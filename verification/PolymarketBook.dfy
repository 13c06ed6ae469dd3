/**
  The local books of the prediction market's tokens: what each message does to
  one book, the quote it gives, and the readiness counts the rates come from.
 */
module PolymarketBook {
  import opened Sides
  import opened Options
  import opened PolymarketLevels

  datatype Mode = Strict | Tolerant | Diagnostic

  datatype Config = Config(mode: Mode, toleranceTicks: int)

  datatype Token = Token(id: string)

  datatype Metadata = Metadata(marketId: string, tickSize: real)

  datatype Reason =
    | MissingSnapshot | UnsupportedSide(text: string) | SizeUnknown(side: BookSide) | Mismatch(side: BookSide)
    | MarketInvalidated | EmptyBook | CrossedBook | StructurallyIncomplete | ChangeBeforeSnapshot | BestBeforeSnapshot

  datatype TokenBook = TokenBook(
    metadata: Metadata,
    bids: seq<PriceLevel>,
    asks: seq<PriceLevel>,
    hasSnapshot: bool,
    incomplete: bool,
    invalid: bool,
    validationError: Option<Reason>,
    reportedOk: bool,
    bidOverride: Option<real>,
    askOverride: Option<real>,
    updateCount: nat)

  function Unseen(metadata: Metadata): TokenBook {
    TokenBook(metadata, [], [], false, true, false, None, true, None, None, 0)
  }

  function LevelsOf(b: TokenBook, side: BookSide): seq<PriceLevel> {
    if side == Bid then b.bids else b.asks
  }

  function LocalBest(b: TokenBook, side: BookSide): Option<real> {
    BestPrice(side, LevelsOf(b, side))
  }

  function OverrideOf(b: TokenBook, side: BookSide): Option<real> {
    if side == Bid then b.bidOverride else b.askOverride
  }

  function WithOverride(b: TokenBook, side: BookSide, price: Option<real>): TokenBook {
    if side == Bid then b.(bidOverride := price) else b.(askOverride := price)
  }

  function Shown(b: TokenBook, side: BookSide): Option<real> {
    if OverrideOf(b, side).Some? then OverrideOf(b, side) else LocalBest(b, side)
  }

  // ---- Reported best prices ----

  const EPSILON: real := 0.000000000001

  function Distance(a: real, b: real): real {
    if a >= b then a - b else b - a
  }

  predicate PricesEqual(a: real, b: real) {
    Distance(a, b) <= EPSILON
  }

  predicate WithinTolerance(cfg: Config, local: real, reported: real, tickSize: real) {
    var tolerance := cfg.toleranceTicks as real * tickSize;
    Distance(local, reported) <= (if tolerance > 0.0 then tolerance else 0.0) + EPSILON
  }

  /** A differing report that is let stand beside the local best. */
  predicate LetStand(cfg: Config, b: TokenBook, local: real, reported: real) {
    cfg.mode == Diagnostic || (cfg.mode == Tolerant && WithinTolerance(cfg, local, reported, b.metadata.tickSize))
  }

  /** The reported price replaces the local best in view, and the book counts as incomplete. */
  function Overridden(b: TokenBook, side: BookSide, reason: Reason, reported: real): TokenBook {
    WithOverride(b.(validationError := Some(reason), reportedOk := false, incomplete := true), side, Some(reported))
  }

  function OneReported(cfg: Config, b: TokenBook, side: BookSide, reported: real): TokenBook {
    var local := LocalBest(b, side);
    if local.None? then Overridden(b, side, if b.hasSnapshot then SizeUnknown(side) else MissingSnapshot, reported)
    else if PricesEqual(local.value, reported) then WithOverride(b, side, None)
    else if LetStand(cfg, b, local.value, reported) then
      b.(validationError := Some(Mismatch(side)), reportedOk := cfg.mode == Tolerant)
    else Overridden(b, side, Mismatch(side), reported)
  }

  datatype Reported = Reported(bid: Option<real>, ask: Option<real>)

  function BothReported(cfg: Config, b: TokenBook, reported: Reported): TokenBook {
    var afterBid := if reported.bid.Some? then OneReported(cfg, b, Bid, reported.bid.value) else b;
    if reported.ask.Some? then OneReported(cfg, afterBid, Ask, reported.ask.value) else afterBid
  }

  function AfterReported(cfg: Config, b: TokenBook, reported: Reported, kind: Kind): TokenBook {
    if b.hasSnapshot then BothReported(cfg, b, reported)
    else
      var e := b.(validationError := Some(MissingSnapshot), reportedOk := false, incomplete := true);
      if kind == BestBidAsk then e.(bidOverride := reported.bid, askOverride := reported.ask) else e
  }

  // ---- Messages to one book ----

  datatype Kind = Snapshot | PriceChange | BestBidAsk

  datatype ChangeSide = Buy | Sell | OtherSide(text: string)

  /** What a message says of one token. `None` stands for numbers that do not parse. */
  datatype Content =
    | BookLevels(bids: Option<seq<PriceLevel>>, asks: Option<seq<PriceLevel>>)
    | Change(side: ChangeSide, level: Option<PriceLevel>, best: Option<Reported>)
    | Best(best: Option<Reported>)

  function KindOf(content: Content): Kind {
    if content.BookLevels? then Snapshot else if content.Change? then PriceChange else BestBidAsk
  }

  /** The book after a message, and whether the call returned a quote or raised. */
  datatype Applied = Applied(book: TokenBook, quoted: bool)

  function WithSnapshot(b: TokenBook, bids: seq<PriceLevel>, asks: seq<PriceLevel>, invalid: bool): TokenBook {
    TokenBook(b.metadata, bids, asks, true, false, invalid, None, true, None, None, b.updateCount)
  }

  function Changed(b: TokenBook, side: ChangeSide, level: PriceLevel): TokenBook {
    match side
    case Buy => b.(bids := SetLevel(b.bids, level))
    case Sell => b.(asks := SetLevel(b.asks, level))
    case OtherSide(text) => b.(validationError := Some(UnsupportedSide(text)))
  }

  function Flagged(b: TokenBook, invalid: bool): TokenBook {
    b.(reportedOk := true,
       incomplete := b.incomplete || !b.hasSnapshot,
       validationError := if !b.hasSnapshot && b.validationError.None? then Some(MissingSnapshot) else b.validationError,
       invalid := invalid)
  }

  /** An override that the local best has come to is dropped. */
  function ClearResolved(b: TokenBook): TokenBook {
    b.(bidOverride := if b.bidOverride == LocalBest(b, Bid) then None else b.bidOverride,
       askOverride := if b.askOverride == LocalBest(b, Ask) then None else b.askOverride)
  }

  function AfterChange(b: TokenBook, side: ChangeSide, level: PriceLevel, invalid: bool): TokenBook {
    ClearResolved(Flagged(Changed(b, side, level), invalid))
  }

  function BeforeBest(b: TokenBook): TokenBook {
    b.(incomplete := !b.hasSnapshot,
       validationError := if b.hasSnapshot then None else Some(MissingSnapshot),
       reportedOk := true)
  }

  function AfterBest(cfg: Config, b: TokenBook, reported: Reported, invalid: bool): TokenBook {
    AfterReported(cfg, BeforeBest(b), reported, BestBidAsk).(invalid := invalid)
  }

  function Touched(b: TokenBook): TokenBook {
    b.(updateCount := b.updateCount + 1)
  }

  function Apply(cfg: Config, b: TokenBook, content: Content, invalid: bool): Applied {
    match content
    case BookLevels(bids, asks) =>
      if bids.None? then Applied(b, false)
      else if asks.None? then Applied(b.(bids := FromRows(bids.value)), false)
      else Applied(Touched(WithSnapshot(b, FromRows(bids.value), FromRows(asks.value), invalid)), true)
    case Change(side, level, best) =>
      if level.None? then Applied(b, false)
      else if best.None? then Applied(AfterChange(b, side, level.value, invalid), false)
      else Applied(Touched(AfterReported(cfg, AfterChange(b, side, level.value, invalid), best.value, PriceChange)), true)
    case Best(best) =>
      if best.None? then Applied(b, false)
      else Applied(Touched(AfterBest(cfg, b, best.value, invalid)), true)
  }

  // ---- Quotes ----

  datatype Rates = Rates(mismatch: real, complete: real)

  datatype Quote = Quote(
    token: Token,
    marketId: string,
    kind: Kind,
    bestBid: Option<real>,
    bestBidSize: Option<Size>,
    bestAsk: Option<real>,
    bestAskSize: Option<Size>,
    complete: bool,
    validationError: Option<Reason>,
    reportedOk: bool,
    sequence: nat,
    tokenRates: Option<Rates>,
    marketRates: Option<Rates>)

  function ShownSize(b: TokenBook, side: BookSide): Option<Size> {
    var best := PolymarketLevels.Best(side, LevelsOf(b, side));
    if OverrideOf(b, side).Some? || best.None? then None else Some(best.value.size)
  }

  predicate Crossed(b: TokenBook) {
    var bid, ask := LocalBest(b, Bid), LocalBest(b, Ask);
    bid.Some? && ask.Some? && bid.value >= ask.value
  }

  function StructuralError(b: TokenBook): Option<Reason> {
    var bid, ask := LocalBest(b, Bid), LocalBest(b, Ask);
    if !b.hasSnapshot then None
    else if bid.None? && ask.None? then Some(EmptyBook)
    else if Crossed(b) then Some(CrossedBook)
    else if bid.None? || ask.None? then Some(StructurallyIncomplete)
    else None
  }

  predicate StructurallyComplete(b: TokenBook) {
    b.hasSnapshot && !b.invalid && LocalBest(b, Bid).Some? && LocalBest(b, Ask).Some? && !Crossed(b)
  }

  function ErrorShown(b: TokenBook): Option<Reason> {
    if b.validationError.Some? then b.validationError else StructuralError(b)
  }

  predicate Complete(b: TokenBook) {
    !b.incomplete && !b.invalid && StructurallyComplete(b)
  }

  function QuoteOf(token: Token, b: TokenBook, kind: Kind, tokenRates: Option<Rates>, marketRates: Option<Rates>): Quote {
    Quote(token, b.metadata.marketId, kind, Shown(b, Bid), ShownSize(b, Bid), Shown(b, Ask), ShownSize(b, Ask), Complete(b),
          ErrorShown(b), b.reportedOk, b.updateCount, tokenRates, marketRates)
  }

  // ---- What one message does to a book ----

  /** Every side of the book is a dictionary of positive sizes. */
  ghost predicate PositiveBook(b: TokenBook) {
    DistinctPrices(b.bids) && DistinctPrices(b.asks) && AllPositive(b.bids) && AllPositive(b.asks)
  }

  /** A price change for a known side whose size is not a number. */
  predicate StoresNaN(content: Content) {
    content.Change? && !content.side.OtherSide? && content.level.Some? && content.level.value.size.NotANumber?
  }

  /** `after` differs from `b` in its error, its flags and its overrides only, and is not newly completed. */
  predicate KeepsLevels(b: TokenBook, after: TokenBook) {
    && after.bids == b.bids && after.asks == b.asks && after.metadata == b.metadata && after.hasSnapshot == b.hasSnapshot
    && after.invalid == b.invalid && after.updateCount == b.updateCount
    && (b.incomplete ==> after.incomplete)
  }

  function Other(side: BookSide): BookSide {
    if side == Bid then Ask else Bid
  }

  lemma OverriddenKeeps(b: TokenBook, side: BookSide, reason: Reason, reported: real)
    ensures KeepsLevels(b, Overridden(b, side, reason, reported))
    ensures OverrideOf(Overridden(b, side, reason, reported), Other(side)) == OverrideOf(b, Other(side))
  {}

  lemma OneReportedKeeps(cfg: Config, b: TokenBook, side: BookSide, reported: real)
    ensures KeepsLevels(b, OneReported(cfg, b, side, reported))
    ensures OverrideOf(OneReported(cfg, b, side, reported), Other(side)) == OverrideOf(b, Other(side))
  {
    OverriddenKeeps(b, side, Mismatch(side), reported);
    OverriddenKeeps(b, side, if b.hasSnapshot then SizeUnknown(side) else MissingSnapshot, reported);
  }

  lemma BothReportedKeep(cfg: Config, b: TokenBook, reported: Reported)
    ensures KeepsLevels(b, BothReported(cfg, b, reported))
  {
    var afterBid := if reported.bid.Some? then OneReported(cfg, b, Bid, reported.bid.value) else b;
    if reported.bid.Some? { OneReportedKeeps(cfg, b, Bid, reported.bid.value); }
    if reported.ask.Some? { OneReportedKeeps(cfg, afterBid, Ask, reported.ask.value); }
  }

  lemma ReportsKeepLevels(cfg: Config, b: TokenBook, reported: Reported, kind: Kind)
    ensures KeepsLevels(b, AfterReported(cfg, b, reported, kind))
  {
    BothReportedKeep(cfg, b, reported);
  }

  lemma ChangedPositiveIff(b: TokenBook, side: ChangeSide, level: PriceLevel, invalid: bool)
    requires PositiveBook(b)
    ensures PositiveBook(AfterChange(b, side, level, invalid)) <==> side.OtherSide? || level.size.Number?
  {
    SetLevelMeans(LevelsOf(b, if side == Buy then Bid else Ask), level, level.price);
    SetLevelPositiveIff(LevelsOf(b, if side == Buy then Bid else Ask), level);
  }

  /** A message leaves only positive sizes exactly when it is not a price change to a size that is no number. */
  lemma SizesStayPositiveIff(cfg: Config, b: TokenBook, content: Content, invalid: bool)
    requires PositiveBook(b)
    ensures PositiveBook(Apply(cfg, b, content, invalid).book) <==> !StoresNaN(content)
  {
    match content
    case BookLevels(bids, asks) =>
      if bids.Some? { FromRowsPositive(bids.value); }
      if asks.Some? { FromRowsPositive(asks.value); }
    case Change(side, level, best) =>
      if level.Some? {
        ChangedPositiveIff(b, side, level.value, invalid);
        if best.Some? { ReportsKeepLevels(cfg, AfterChange(b, side, level.value, invalid), best.value, PriceChange); }
      }
    case Best(best) =>
      if best.Some? { ReportsKeepLevels(cfg, BeforeBest(b), best.value, BestBidAsk); }
  }

  /** A price change never completes a book: only a snapshot or a best-price message does. */
  lemma ChangesNeverComplete(cfg: Config, b: TokenBook, content: Content, invalid: bool)
    requires content.Change? && b.incomplete
    ensures Apply(cfg, b, content, invalid).book.incomplete
  {
    if content.level.Some? && content.best.Some? {
      ReportsKeepLevels(cfg, AfterChange(b, content.side, content.level.value, invalid), content.best.value, PriceChange);
    }
  }

  /** A book without a snapshot stays incomplete until one arrives. */
  lemma SnapshotComesFirst(cfg: Config, b: TokenBook, content: Content, invalid: bool)
    requires !b.hasSnapshot && b.incomplete
    ensures var after := Apply(cfg, b, content, invalid).book;
      if content.BookLevels? && content.bids.Some? && content.asks.Some? then after.hasSnapshot
      else (!after.hasSnapshot && after.incomplete)
  {
    if content.Change? && content.level.Some? && content.best.Some? {
      ReportsKeepLevels(cfg, AfterChange(b, content.side, content.level.value, invalid), content.best.value, PriceChange);
    }
    if content.Best? && content.best.Some? {
      ReportsKeepLevels(cfg, BeforeBest(b), content.best.value, BestBidAsk);
    }
  }

  // ---- What a best-price message shows ----

  /** The override that a report leaves. */
  function OverrideAfter(cfg: Config, b: TokenBook, side: BookSide, reported: real): Option<real> {
    var local := LocalBest(b, side);
    if local.None? then Some(reported)
    else if PricesEqual(local.value, reported) then None
    else if LetStand(cfg, b, local.value, reported) then OverrideOf(b, side)
    else Some(reported)
  }

  lemma OneReportedShows(cfg: Config, b: TokenBook, side: BookSide, reported: real)
    ensures OverrideOf(OneReported(cfg, b, side, reported), side) == OverrideAfter(cfg, b, side, reported)
  {}

  lemma SameOverrideAfter(cfg: Config, a: TokenBook, b: TokenBook, side: BookSide, reported: real)
    requires KeepsLevels(a, b) && OverrideOf(a, side) == OverrideOf(b, side)
    ensures OverrideAfter(cfg, a, side, reported) == OverrideAfter(cfg, b, side, reported)
    ensures LocalBest(a, side) == LocalBest(b, side)
  {}

  lemma {:induction false} BothReportedShow(cfg: Config, b: TokenBook, reported: Reported, side: BookSide)
    ensures var price := if side == Bid then reported.bid else reported.ask;
      OverrideOf(BothReported(cfg, b, reported), side) ==
        if price.Some? then OverrideAfter(cfg, b, side, price.value) else OverrideOf(b, side)
  {
    var afterBid := if reported.bid.Some? then OneReported(cfg, b, Bid, reported.bid.value) else b;
    if reported.bid.Some? {
      OneReportedKeeps(cfg, b, Bid, reported.bid.value);
      OneReportedShows(cfg, b, Bid, reported.bid.value);
    }
    if reported.ask.Some? {
      OneReportedKeeps(cfg, afterBid, Ask, reported.ask.value);
      OneReportedShows(cfg, afterBid, Ask, reported.ask.value);
      SameOverrideAfter(cfg, b, afterBid, Ask, reported.ask.value);
    }
  }

  /**
    After a best-price message for a book with a snapshot and a local best, the
    local best is shown exactly when the report equals it, or is let stand while
    no other price was shown before, or is missing while none was. A report let
    stand leaves an older override in view, though it may complete the book.
   */
  lemma {:induction false} BestMessageShowsLocalIff(cfg: Config, b: TokenBook, reported: Reported, invalid: bool, side: BookSide)
    requires b.hasSnapshot && LocalBest(b, side).Some?
    ensures var price := if side == Bid then reported.bid else reported.ask;
      var local := LocalBest(b, side).value;
      var heldBefore := OverrideOf(b, side).None? || OverrideOf(b, side).value == local;
      var after := AfterBest(cfg, b, reported, invalid);
      Shown(after, side) == Some(local) <==>
        if price.None? then heldBefore
        else (PricesEqual(local, price.value) || (LetStand(cfg, b, local, price.value) && heldBefore))
  {
    BothReportedShow(cfg, BeforeBest(b), reported, side);
    BothReportedKeep(cfg, BeforeBest(b), reported);
  }

  /** A complete quote can show an older override: the new report was let stand and the old one never cleared. */
  lemma CompleteQuoteCanShowOldOverride(cfg: Config, b: TokenBook, bid: real, older: real)
    requires b.hasSnapshot && b.bidOverride == Some(older) && StructurallyComplete(b)
    requires !PricesEqual(LocalBest(b, Bid).value, bid) && cfg.mode == Tolerant
    requires LetStand(cfg, b, LocalBest(b, Bid).value, bid)
    ensures var after := AfterBest(cfg, b, Reported(Some(bid), None), false);
      Complete(after) && after.reportedOk && Shown(after, Bid) == Some(older)
  {}
}
