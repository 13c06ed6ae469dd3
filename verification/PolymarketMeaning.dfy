/**
  What one event does to the prediction market's books and what its quote says,
  stated on the books' levels and fields and on the events and quotes before.
 */
module PolymarketMeaning {
  import opened Sides
  import opened Options
  import opened PolymarketLevels
  import opened PolymarketBook
  import opened PolymarketVenue
  import opened PolymarketRuns

  // ---- Each price once ----

  ghost predicate DistinctBook(b: TokenBook) {
    DistinctPrices(b.bids) && DistinctPrices(b.asks)
  }

  ghost predicate DistinctVenue(v: Venue) {
    forall t :: t in v.books ==> DistinctBook(v.books[t])
  }

  lemma ChangeStaysDistinct(b: TokenBook, side: ChangeSide, level: PriceLevel, invalid: bool)
    requires DistinctBook(b)
    ensures DistinctBook(AfterChange(b, side, level, invalid))
  {
    SetLevelMeans(b.bids, level, level.price);
    SetLevelMeans(b.asks, level, level.price);
  }

  lemma ApplyStaysDistinct(cfg: Config, b: TokenBook, content: Content, invalid: bool)
    requires DistinctBook(b)
    ensures DistinctBook(Apply(cfg, b, content, invalid).book)
  {
    match content
    case BookLevels(bids, asks) =>
      if bids.Some? { FromRowsPositive(bids.value); }
      if asks.Some? { FromRowsPositive(asks.value); }
    case Change(side, level, best) =>
      if level.Some? {
        ChangeStaysDistinct(b, side, level.value, invalid);
        if best.Some? { ReportsKeepLevels(cfg, AfterChange(b, side, level.value, invalid), best.value, PriceChange); }
      }
    case Best(best) =>
      if best.Some? { ReportsKeepLevels(cfg, BeforeBest(b), best.value, BestBidAsk); }
  }

  lemma StepStaysDistinct(cfg: Config, v: Venue, event: Event)
    requires DistinctVenue(v)
    ensures DistinctVenue(Step(cfg, v, event).0)
  {
    if event.Message? {
      var b := BookAt(v, event.token, event.marketId);
      ApplyStaysDistinct(cfg, b, event.content, b.metadata.marketId in v.invalid);
    }
  }

  /** Over every run each side of each book is a dictionary. */
  lemma {:induction false} RunStaysDistinct(cfg: Config, items: seq<(Token, Metadata)>, events: seq<Event>)
    ensures DistinctVenue(Run(cfg, Opened(items), events).0)
  {
    if events != [] {
      RunStaysDistinct(cfg, items, events[..|events| - 1]);
      StepStaysDistinct(cfg, Run(cfg, Opened(items), events[..|events| - 1]).0, events[|events| - 1]);
    }
  }

  // ---- What a message writes ----

  /** The levels held of a token's bids; none before its first message. */
  function BidsOf(v: Venue, token: Token): seq<PriceLevel> {
    if token in v.books then v.books[token].bids else []
  }

  function AsksOf(v: Venue, token: Token): seq<PriceLevel> {
    if token in v.books then v.books[token].asks else []
  }

  /** `after` is `before` with one dictionary entry written, or deleted by a size that is at most 0. */
  ghost predicate OneWritten(before: seq<PriceLevel>, level: PriceLevel, after: seq<PriceLevel>) {
    forall p :: SizeHeldAt(after, p) ==
      if p != level.price then SizeHeldAt(before, p)
      else if level.size.Number? && level.size.value <= 0.0 then None
      else Some(level.size)
  }

  lemma OneIsWritten(before: seq<PriceLevel>, level: PriceLevel)
    requires DistinctPrices(before)
    ensures OneWritten(before, level, SetLevel(before, level))
  {
    forall p ensures SizeHeldAt(SetLevel(before, level), p) ==
      if p != level.price then SizeHeldAt(before, p)
      else if level.size.Number? && level.size.value <= 0.0 then None else Some(level.size) {
      SetLevelMeans(before, level, p);
    }
  }

  lemma ChangeWrites(b: TokenBook, side: ChangeSide, level: PriceLevel, invalid: bool)
    requires DistinctBook(b)
    ensures var after := AfterChange(b, side, level, invalid);
      && (if side.Buy? then OneWritten(b.bids, level, after.bids) else after.bids == b.bids)
      && (if side.Sell? then OneWritten(b.asks, level, after.asks) else after.asks == b.asks)
  {
    OneIsWritten(b.bids, level);
    OneIsWritten(b.asks, level);
  }

  /** The levels of a price change are in the book whether or not its reported prices parse. */
  lemma ChangeIsApplied(cfg: Config, b: TokenBook, side: ChangeSide, level: PriceLevel, best: Option<Reported>, invalid: bool)
    ensures var after := Apply(cfg, b, Change(side, Some(level), best), invalid).book;
      after.bids == AfterChange(b, side, level, invalid).bids && after.asks == AfterChange(b, side, level, invalid).asks
  {
    if best.Some? { ReportsKeepLevels(cfg, AfterChange(b, side, level, invalid), best.value, PriceChange); }
  }

  /** A price change that parses writes its level to the bids if it buys, to the asks if it sells, and to no side else. */
  lemma {:induction false} PriceChangeMeans(cfg: Config, v: Venue, token: Token, marketId: string, side: ChangeSide,
                                            level: PriceLevel, best: Option<Reported>)
    requires DistinctVenue(v)
    ensures var w := Step(cfg, v, Message(token, marketId, Change(side, Some(level), best))).0;
      && (if side.Buy? then OneWritten(BidsOf(v, token), level, BidsOf(w, token)) else BidsOf(w, token) == BidsOf(v, token))
      && (if side.Sell? then OneWritten(AsksOf(v, token), level, AsksOf(w, token)) else AsksOf(w, token) == AsksOf(v, token))
  {
    var b := BookAt(v, token, marketId);
    var invalid := b.metadata.marketId in v.invalid;
    StepHolds(cfg, v, token, marketId, Change(side, Some(level), best));
    ChangeIsApplied(cfg, b, side, level, best, invalid);
    ChangeWrites(b, side, level, invalid);
  }

  lemma StepHolds(cfg: Config, v: Venue, token: Token, marketId: string, content: Content)
    ensures var b, w := BookAt(v, token, marketId), Step(cfg, v, Message(token, marketId, content)).0;
      && BidsOf(v, token) == b.bids && AsksOf(v, token) == b.asks && (DistinctVenue(v) ==> DistinctBook(b))
      && BidsOf(w, token) == Apply(cfg, b, content, b.metadata.marketId in v.invalid).book.bids
      && AsksOf(w, token) == Apply(cfg, b, content, b.metadata.marketId in v.invalid).book.asks
  {}

  /** A side that holds at each price the last positive row for it, and nothing where there is none. */
  ghost predicate HoldsRows(levels: seq<PriceLevel>, rows: seq<PriceLevel>) {
    forall p :: HoldsRowAt(levels, rows, p)
  }

  ghost predicate HoldsRowAt(levels: seq<PriceLevel>, rows: seq<PriceLevel>, p: real) {
    if SizeHeldAt(levels, p).None? then forall i :: 0 <= i < |rows| && rows[i].price == p ==> !IsPositive(rows[i].size)
    else exists i :: IsLastPositive(rows, p, i) && SizeHeldAt(levels, p) == Some(rows[i].size)
  }

  lemma RowsAreHeld(rows: seq<PriceLevel>)
    ensures HoldsRows(FromRows(rows), rows)
  {
    forall p ensures HoldsRowAt(FromRows(rows), rows, p) {
      var i := LastPositiveRowWins(rows, p);
    }
  }

  /** A whole snapshot: each side holds its own rows, and nothing is held against the book. */
  lemma {:induction false} SnapshotMeans(cfg: Config, v: Venue, token: Token, marketId: string, bids: seq<PriceLevel>,
                                         asks: seq<PriceLevel>)
    ensures var w := Step(cfg, v, Message(token, marketId, BookLevels(Some(bids), Some(asks)))).0;
      && token in w.books
      && HoldsRows(w.books[token].bids, bids) && HoldsRows(w.books[token].asks, asks)
      && w.books[token].hasSnapshot && !w.books[token].incomplete && w.books[token].reportedOk
      && w.books[token].validationError.None? && w.books[token].bidOverride.None? && w.books[token].askOverride.None?
      && (w.books[token].invalid <==> w.books[token].metadata.marketId in v.invalid)
      && w.books[token].updateCount == (if token in v.books then v.books[token].updateCount else 0) + 1
  {
    RowsAreHeld(bids);
    RowsAreHeld(asks);
  }

  /** A best-price message writes no level, nor does any message whose first numbers do not parse. */
  lemma OthersWriteNothing(cfg: Config, v: Venue, token: Token, marketId: string, content: Content)
    requires content.Best? || (content.Change? && content.level.None?) || (content.BookLevels? && content.bids.None?)
    ensures var w := Step(cfg, v, Message(token, marketId, content)).0;
      BidsOf(w, token) == BidsOf(v, token) && AsksOf(w, token) == AsksOf(v, token)
  {
    if content.Best? && content.best.Some? {
      ReportsKeepLevels(cfg, BeforeBest(BookAt(v, token, marketId)), content.best.value, BestBidAsk);
    }
  }

  /**
    A snapshot whose asks do not parse gives no quote and yet replaces the bids:
    new bids stand beside old asks, with the flags as they were.
   */
  lemma HalfSnapshotReplacesBids(cfg: Config, v: Venue, token: Token, marketId: string, bids: seq<PriceLevel>)
    ensures var step := Step(cfg, v, Message(token, marketId, BookLevels(Some(bids), None)));
      && step.1.None? && token in step.0.books
      && HoldsRows(step.0.books[token].bids, bids) && AsksOf(step.0, token) == AsksOf(v, token)
      && (token in v.books ==> step.0.books[token] == v.books[token].(bids := step.0.books[token].bids))
  {
    RowsAreHeld(bids);
  }

  /** Only the book of the message's token changes, and no market's validity. */
  lemma OtherTokensUntouched(cfg: Config, v: Venue, token: Token, marketId: string, content: Content, other: Token)
    requires other != token
    ensures var w := Step(cfg, v, Message(token, marketId, content)).0;
      && (other in w.books <==> other in v.books) && (other in v.books ==> w.books[other] == v.books[other])
      && w.invalid == v.invalid && w.metadata == v.metadata
  {}

  /** A token's first message makes its book, with the metadata subscribed or else the market the message names. */
  lemma FirstMessageMakesBook(cfg: Config, v: Venue, token: Token, marketId: string, content: Content)
    requires token !in v.books
    ensures var w := Step(cfg, v, Message(token, marketId, content)).0;
      && token in w.books
      && w.books[token].metadata == (if token in v.metadata then v.metadata[token] else Metadata(marketId, 0.01))
      && (w.books[token].hasSnapshot ==> content.BookLevels?)
  {
    var b := BookAt(v, token, marketId);
    SnapshotComesFirst(cfg, b, content, b.metadata.marketId in v.invalid);
    QuoteCarriesInvalid(cfg, b, content, b.metadata.marketId in v.invalid);
  }

  // ---- What a quote says ----

  /** The price and size of a level that no other level of the side beats. */
  ghost predicate BestShown(side: BookSide, levels: seq<PriceLevel>, price: Option<real>, size: Option<Size>) {
    if levels == [] then price.None? && size.None?
    else (&& price.Some? && size.Some? && PriceLevel(price.value, size.value) in levels
          && forall i :: 0 <= i < |levels| ==> if side == Bid then levels[i].price <= price.value else levels[i].price >= price.value)
  }

  ghost predicate SideShown(side: BookSide, levels: seq<PriceLevel>, override: Option<real>, price: Option<real>,
                            size: Option<Size>) {
    if override.Some? then price == override && size.None? else BestShown(side, levels, price, size)
  }

  lemma SideIsShown(b: TokenBook, side: BookSide)
    ensures SideShown(side, LevelsOf(b, side), OverrideOf(b, side), Shown(b, side), ShownSize(b, side))
  {
    BestIsBest(side, LevelsOf(b, side));
  }

  /** Both sides hold levels and every bid is below every ask. */
  ghost predicate Uncrossed(b: TokenBook) {
    && b.bids != [] && b.asks != []
    && forall i, j :: 0 <= i < |b.bids| && 0 <= j < |b.asks| ==> b.bids[i].price < b.asks[j].price
  }

  lemma UncrossedIff(b: TokenBook)
    ensures Uncrossed(b) <==> LocalBest(b, Bid).Some? && LocalBest(b, Ask).Some? && !Crossed(b)
  {
    BestIsBest(Bid, b.bids);
    BestIsBest(Ask, b.asks);
    if b.bids != [] && b.asks != [] {
      var i :| 0 <= i < |b.bids| && b.bids[i] == PolymarketLevels.Best(Bid, b.bids).value;
      var j :| 0 <= j < |b.asks| && b.asks[j] == PolymarketLevels.Best(Ask, b.asks).value;
      assert Uncrossed(b) ==> b.bids[i].price < b.asks[j].price;
    }
  }

  /**
    A quote shows the best of the bids and of the asks, or an override where one
    is held; it is complete exactly when nothing is held against the book, its
    market is valid and both sides are filled and uncrossed.
   */
  lemma {:induction false} QuoteMeans(cfg: Config, v: Venue, event: Event)
    requires Step(cfg, v, event).1.Some?
    ensures event.Message? && event.token in Step(cfg, v, event).0.books
    ensures var q, b := Step(cfg, v, event).1.value, Step(cfg, v, event).0.books[event.token];
      && q.token == event.token && q.marketId == b.metadata.marketId && q.reportedOk == b.reportedOk
      && q.sequence == b.updateCount
      && (q.kind == if event.content.BookLevels? then Snapshot else if event.content.Change? then PriceChange else BestBidAsk)
      && SideShown(Bid, b.bids, b.bidOverride, q.bestBid, q.bestBidSize)
      && SideShown(Ask, b.asks, b.askOverride, q.bestAsk, q.bestAskSize)
      && (q.complete <==> b.hasSnapshot && !b.incomplete && !b.invalid && Uncrossed(b))
  {
    var b := Step(cfg, v, event).0.books[event.token];
    SideIsShown(b, Bid);
    SideIsShown(b, Ask);
    UncrossedIff(b);
  }

  /** The error a quote carries: the book's own, else what is wrong with its two sides once it has a snapshot. */
  lemma QuoteErrorMeans(cfg: Config, v: Venue, event: Event)
    requires Step(cfg, v, event).1.Some?
    ensures event.Message? && event.token in Step(cfg, v, event).0.books
    ensures var q, b := Step(cfg, v, event).1.value, Step(cfg, v, event).0.books[event.token];
      q.validationError ==
        if b.validationError.Some? then b.validationError
        else if !b.hasSnapshot || Uncrossed(b) then None
        else if b.bids == [] && b.asks == [] then Some(EmptyBook)
        else if b.bids == [] || b.asks == [] then Some(StructurallyIncomplete)
        else Some(CrossedBook)
  {
    var b := Step(cfg, v, event).0.books[event.token];
    UncrossedIff(b);
    BestIsBest(Bid, b.bids);
    BestIsBest(Ask, b.asks);
  }

  // ---- Reported best prices ----

  /** `a` and `b` are at most `d` apart. */
  predicate Within(a: real, b: real, d: real) {
    -d <= a - b <= d
  }

  /** How far a report may be off in tolerant mode. */
  function Allowed(cfg: Config, b: TokenBook): real {
    (if cfg.toleranceTicks as real * b.metadata.tickSize > 0.0 then cfg.toleranceTicks as real * b.metadata.tickSize else 0.0)
    + 0.000000000001
  }

  /**
    One reported price against the side's local best: equal up to 1e-12 it drops
    the override; differing it is an error of that side, which is let stand in
    diagnostic mode and within tolerance in tolerant mode, and else makes the
    book incomplete and takes the report in view; with no level it does so too.
   */
  lemma ReportMeans(cfg: Config, b: TokenBook, side: BookSide, reported: real, local: PriceLevel)
    requires LevelsOf(b, side) != [] ==> BestShown(side, LevelsOf(b, side), Some(local.price), Some(local.size))
    ensures var after := OneReported(cfg, b, side, reported);
      var off := !Within(local.price, reported, 0.000000000001);
      var stands := cfg.mode == Diagnostic || (cfg.mode == Tolerant && Within(local.price, reported, Allowed(cfg, b)));
      if LevelsOf(b, side) == [] then
        after.validationError == Some(if b.hasSnapshot then SizeUnknown(side) else MissingSnapshot)
        && !after.reportedOk && after.incomplete && OverrideOf(after, side) == Some(reported)
      else if !off then
        after.validationError == b.validationError && after.reportedOk == b.reportedOk && after.incomplete == b.incomplete
        && OverrideOf(after, side).None?
      else if stands then
        after.validationError == Some(Mismatch(side)) && after.reportedOk == (cfg.mode == Tolerant)
        && after.incomplete == b.incomplete && OverrideOf(after, side) == OverrideOf(b, side)
      else
        after.validationError == Some(Mismatch(side)) && !after.reportedOk && after.incomplete
        && OverrideOf(after, side) == Some(reported)
  {
    BestIsBest(side, LevelsOf(b, side));
    if LevelsOf(b, side) != [] {
      SameBest(side, LevelsOf(b, side), local);
    }
  }

  /** The report differs from the local best, or there is none. */
  predicate Errs(b: TokenBook, side: BookSide, reported: Option<real>) {
    reported.Some? && (BestPrice(side, LevelsOf(b, side)).None?
                       || !Within(BestPrice(side, LevelsOf(b, side)).value, reported.value, 0.000000000001))
  }

  function ErrorOfSide(b: TokenBook, side: BookSide): Reason {
    if LevelsOf(b, side) != [] then Mismatch(side) else if b.hasSnapshot then SizeUnknown(side) else MissingSnapshot
  }

  lemma OneErrs(cfg: Config, b: TokenBook, side: BookSide, reported: real)
    ensures var after := OneReported(cfg, b, side, reported);
      && (Errs(b, side, Some(reported)) ==> after.validationError == Some(ErrorOfSide(b, side)))
      && (!Errs(b, side, Some(reported)) ==>
            after.validationError == b.validationError && after.incomplete == b.incomplete && after.reportedOk == b.reportedOk)
  {
    BestIsBest(side, LevelsOf(b, side));
  }

  /** Of two reports the ask's error is kept if it has one, else the bid's, else the error before. */
  lemma BothErrorsMean(cfg: Config, b: TokenBook, reported: Reported)
    requires b.hasSnapshot
    ensures BothReported(cfg, b, reported).validationError ==
      if Errs(b, Ask, reported.ask) then Some(if b.asks != [] then Mismatch(Ask) else SizeUnknown(Ask))
      else if Errs(b, Bid, reported.bid) then Some(if b.bids != [] then Mismatch(Bid) else SizeUnknown(Bid))
      else b.validationError
  {
    var afterBid := if reported.bid.Some? then OneReported(cfg, b, Bid, reported.bid.value) else b;
    if reported.bid.Some? {
      OneErrs(cfg, b, Bid, reported.bid.value);
      OneReportedKeeps(cfg, b, Bid, reported.bid.value);
    }
    if reported.ask.Some? {
      OneErrs(cfg, afterBid, Ask, reported.ask.value);
    }
  }

  lemma SameBest(side: BookSide, levels: seq<PriceLevel>, local: PriceLevel)
    requires levels != [] && BestShown(side, levels, Some(local.price), Some(local.size))
    ensures BestPrice(side, levels) == Some(local.price)
  {
    BestIsBest(side, levels);
    var best := PolymarketLevels.Best(side, levels).value;
    var i :| 0 <= i < |levels| && levels[i] == PriceLevel(local.price, local.size);
    var j :| 0 <= j < |levels| && levels[j] == best;
  }

  /** The flags that a price change without reported prices leaves: it completes nothing and clears no error. */
  lemma ChangeFlagsMean(cfg: Config, v: Venue, token: Token, marketId: string, side: ChangeSide, level: PriceLevel)
    requires token in v.books
    ensures var b, t := v.books[token],
                        Step(cfg, v, Message(token, marketId, Change(side, Some(level), Some(Reported(None, None))))).0.books[token];
      && t.hasSnapshot == b.hasSnapshot && t.incomplete == (b.incomplete || !b.hasSnapshot)
      && t.reportedOk == b.hasSnapshot && t.updateCount == b.updateCount + 1 && t.metadata == b.metadata
      && (t.invalid <==> b.metadata.marketId in v.invalid)
      && t.validationError == (if !b.hasSnapshot then Some(MissingSnapshot)
                               else if side.OtherSide? then Some(UnsupportedSide(side.text)) else b.validationError)
      && t.bidOverride == (if b.bidOverride == BestPrice(Bid, t.bids) then None else b.bidOverride)
      && t.askOverride == (if b.askOverride == BestPrice(Ask, t.asks) then None else b.askOverride)
  {}

  /** The flags that a best-price message leaves before its prices count: complete once a snapshot is there, and no error. */
  lemma BestFlagsMean(cfg: Config, v: Venue, token: Token, marketId: string, reported: Reported)
    requires token in v.books && (v.books[token].hasSnapshot ==> reported == Reported(None, None))
    ensures var b, t := v.books[token], Step(cfg, v, Message(token, marketId, Content.Best(Some(reported)))).0.books[token];
      && t.hasSnapshot == b.hasSnapshot && t.incomplete == !b.hasSnapshot && t.reportedOk == b.hasSnapshot
      && t.updateCount == b.updateCount + 1 && t.metadata == b.metadata
      && (t.invalid <==> b.metadata.marketId in v.invalid)
      && t.validationError == (if b.hasSnapshot then None else Some(MissingSnapshot))
      && t.bidOverride == (if b.hasSnapshot then b.bidOverride else reported.bid)
      && t.askOverride == (if b.hasSnapshot then b.askOverride else reported.ask)
  {}

  // ---- Other events ----

  /** Marking a market invalid closes exactly the books of that market and leaves every level. */
  lemma InvalidateMeans(cfg: Config, v: Venue, marketId: string, token: Token)
    ensures var w := Step(cfg, v, Invalidate(marketId)).0;
      && w.invalid == v.invalid + {marketId} && (token in w.books <==> token in v.books)
      && (token in v.books && v.books[token].metadata.marketId != marketId ==> w.books[token] == v.books[token])
      && (token in v.books && v.books[token].metadata.marketId == marketId ==>
            w.books[token] == v.books[token].(invalid := true, incomplete := true, validationError := Some(MarketInvalidated)))
  {}

  /** The last item of a list for a token. */
  ghost predicate LastItem(items: seq<(Token, Metadata)>, token: Token, i: int) {
    0 <= i < |items| && items[i].0 == token && forall j :: i < j < |items| ==> items[j].0 != token
  }

  lemma {:induction false} ItemsMapHolds(items: seq<(Token, Metadata)>, active: set<Token>, token: Token) returns (i: Option<nat>)
    ensures i.Some? ==> token in active && LastItem(items, token, i.value) && token in ItemsMap(items, active)
    ensures i.Some? ==> ItemsMap(items, active)[token] == items[i.value].1
    ensures i.None? ==> token !in ItemsMap(items, active)
    ensures i.None? && token in active ==> forall j :: 0 <= j < |items| ==> items[j].0 != token
  {
    if items == [] {
      i := None;
    } else {
      var front, last := items[..|items| - 1], items[|items| - 1];
      i := ItemsMapHolds(front, active, token);
      if last.0 == token && token in active { i := Some(|items| - 1); }
    }
  }

  /**
    A subscription keeps the metadata of the active tokens it lists, relabels
    their books, and touches no level, flag or count.
   */
  lemma SubscribeMeans(cfg: Config, v: Venue, items: seq<(Token, Metadata)>, active: set<Token>, token: Token)
    returns (i: Option<nat>)
    ensures var w := Step(cfg, v, Subscribe(items, active)).0;
      && (token in w.metadata <==> i.Some?) && (token in w.books <==> token in v.books) && w.invalid == v.invalid
      && (i.Some? ==> token in active && LastItem(items, token, i.value) && w.metadata[token] == items[i.value].1)
      && (i.None? && token in active ==> forall j :: 0 <= j < |items| ==> items[j].0 != token)
      && (token in v.books ==>
            w.books[token] == if i.Some? then v.books[token].(metadata := items[i.value].1) else v.books[token])
      && TokenTotals(w.readiness, token) == TokenTotals(v.readiness, token)
  {
    i := ItemsMapHolds(items, active, token);
    ListingAddsNothing(v.readiness, items, ItemsMap(items, active), token);
  }

  /** A positive tick size reaches exactly the token named, or all tokens of the market, that have metadata. */
  lemma RetickMeans(cfg: Config, v: Venue, marketId: string, only: Option<Token>, tickSize: real, token: Token)
    ensures var w := Step(cfg, v, Retick(marketId, only, tickSize)).0;
      var meant := tickSize > 0.0 && token in v.metadata
        && (only == Some(token) || (only.None? && v.metadata[token].marketId == marketId));
      && (token in w.metadata <==> token in v.metadata) && (token in w.books <==> token in v.books)
      && w.readiness == v.readiness && w.invalid == v.invalid
      && (token in v.metadata ==>
            w.metadata[token] == if meant then v.metadata[token].(tickSize := tickSize) else v.metadata[token])
      && (token in v.books ==>
            w.books[token] == if meant then v.books[token].(metadata := v.metadata[token].(tickSize := tickSize))
                              else v.books[token])
  {}

  // ---- Counts and rates ----

  /** Each reason that a quote gives adds one to that reason's count, and no other count moves. */
  lemma ErrorsMean(errors: map<Reason, nat>, q: Quote, before: bool, reason: Reason)
    ensures CountOf(ErrorsAfter(errors, q, before), reason) == CountOf(errors, reason)
      + (if before && q.kind == PriceChange && reason == ChangeBeforeSnapshot then 1 else 0)
      + (if before && q.kind == BestBidAsk && reason == BestBeforeSnapshot then 1 else 0)
      + (if q.bestBid.Some? && q.bestBidSize.None? && reason == SizeUnknown(Bid) then 1 else 0)
      + (if q.bestAsk.Some? && q.bestAskSize.None? && reason == SizeUnknown(Ask) then 1 else 0)
      + (if q.validationError == Some(reason) then 1 else 0)
  {}

  function ErrorCount(table: ReadinessTable, token: Token, reason: Reason): nat {
    var row := Find(table, token);
    if row.None? then 0 else CountOf(row.value.errors, reason)
  }

  /** A quote reads its rates from the counts before it and is then counted, as early if no snapshot came before. */
  lemma QuoteIsCounted(cfg: Config, v: Venue, event: Event, w: Venue, q: Quote)
    requires event.Message? && Step(cfg, v, event) == (w, Some(q))
    ensures w.readiness == Recorded(v.readiness, q, event.token !in v.books || !v.books[event.token].hasSnapshot)
    ensures q.tokenRates == RatesFrom(TokenTotals(v.readiness, event.token))
    ensures q.marketRates == RatesFrom(MarketTotals(v.readiness, q.marketId))
  {}

  /** Counting a quote adds one to the count of each reason it gives, and to the one for coming early. */
  lemma RecordedErrorsMean(table: ReadinessTable, q: Quote, early: bool, token: Token, reason: Reason)
    ensures ErrorCount(Recorded(table, q, early), token, reason) == ErrorCount(table, token, reason)
      + if token != q.token then 0 else
          (if early && q.kind == PriceChange && reason == ChangeBeforeSnapshot then 1 else 0)
          + (if early && q.kind == BestBidAsk && reason == BestBeforeSnapshot then 1 else 0)
          + (if q.bestBid.Some? && q.bestBidSize.None? && reason == SizeUnknown(Bid) then 1 else 0)
          + (if q.bestAsk.Some? && q.bestAskSize.None? && reason == SizeUnknown(Ask) then 1 else 0)
          + (if q.validationError == Some(reason) then 1 else 0)
  {
    ErrorsMean(RowFor(table, q).errors, q, early, reason);
    PutFinds(table, q.token, Counted(RowFor(table, q), q, early), token);
  }

  /** The places in a history of the quotes with a property. */
  ghost function PlacesWhere(quotes: seq<Quote>, has: Quote -> bool): set<int> {
    set i | 0 <= i < |quotes| && has(quotes[i])
  }

  lemma PlaceAdded(quotes: seq<Quote>, last: Quote, has: Quote -> bool, i: int)
    ensures i in PlacesWhere(quotes + [last], has) <==> i in PlacesWhere(quotes, has) || (i == |quotes| && has(last))
  {}

  lemma PlacesAppend(quotes: seq<Quote>, last: Quote, has: Quote -> bool)
    ensures |PlacesWhere(quotes + [last], has)| == |PlacesWhere(quotes, has)| + (if has(last) then 1 else 0)
  {
    var before, after, more := PlacesWhere(quotes, has), PlacesWhere(quotes + [last], has), if has(last) then {|quotes|} else {};
    forall i ensures i in after <==> i in before + more {
      PlaceAdded(quotes, last, has, i);
    }
    assert after == before + more;
  }

  function OfToken(token: Token, has: Quote -> bool): Quote -> bool {
    (q: Quote) => q.token == token && has(q)
  }

  /** A token's quotes with a property. */
  ghost function Places(quotes: seq<Quote>, token: Token, has: Quote -> bool): set<int> {
    PlacesWhere(quotes, OfToken(token, has))
  }

  function IsComplete(): Quote -> bool { (q: Quote) => q.complete }
  function IsIncomplete(): Quote -> bool { (q: Quote) => !q.complete }
  function Mismatched(): Quote -> bool {
    (q: Quote) => q.validationError == Some(Mismatch(Bid)) || q.validationError == Some(Mismatch(Ask))
  }

  lemma {:induction false} PastCounts(quotes: seq<Quote>, token: Token)
    ensures var t := Past(quotes, token);
      && t.complete == |Places(quotes, token, IsComplete())|
      && t.notComplete == |Places(quotes, token, IsIncomplete())|
      && t.mismatches == |Places(quotes, token, Mismatched())|
  {
    if quotes == [] {
      forall i ensures i !in Places(quotes, token, IsComplete()) {}
    } else {
      var front, last := quotes[..|quotes| - 1], quotes[|quotes| - 1];
      PastCounts(front, token);
      PlacesAppend(front, last, OfToken(token, IsComplete()));
      PlacesAppend(front, last, OfToken(token, IsIncomplete()));
      PlacesAppend(front, last, OfToken(token, Mismatched()));
      assert quotes == front + [last];
      if last.validationError.Some? && last.validationError.value.Mismatch? {
        assert last.validationError.value.side == Bid || last.validationError.value.side == Ask;
      }
    }
  }

  /** `rates` is none of no quotes, else the share of the mismatched and of the complete ones. */
  predicate Shares(rates: Option<Rates>, mismatched: nat, complete: nat, incomplete: nat) {
    if complete + incomplete == 0 then rates.None?
    else (&& rates.Some?
          && rates.value.mismatch * (complete + incomplete) as real == mismatched as real
          && rates.value.complete * (complete + incomplete) as real == complete as real)
  }

  lemma RatesAreShares(t: Totals)
    ensures Shares(RatesFrom(t), t.mismatches, t.complete, t.notComplete)
  {
    var total := (t.complete + t.notComplete) as real;
    if t.complete + t.notComplete > 0 {
      ShareOf(t.mismatches, total);
      ShareOf(t.complete, total);
    }
  }

  lemma ShareOf(part: nat, total: real)
    requires total > 0.0
    ensures (part as real / total) * total == part as real
  {}

  /** Over every run a quote's token rates are the shares among the quotes given before it for its token. */
  lemma {:induction false} TokenRatesMean(cfg: Config, items: seq<(Token, Metadata)>, events: seq<Event>, event: Event)
    ensures var run := Run(cfg, Opened(items), events);
      var given := Step(cfg, run.0, event).1;
      given.Some? ==>
        Shares(given.value.tokenRates, |Places(run.1, given.value.token, Mismatched())|,
               |Places(run.1, given.value.token, IsComplete())|, |Places(run.1, given.value.token, IsIncomplete())|)
  {
    if event.Message? {
      var run := Run(cfg, Opened(items), events);
      ReadinessCountsQuotes(cfg, items, events, event.token);
      PastCounts(run.1, event.token);
      RatesAreShares(Past(run.1, event.token));
    }
  }

  // ---- Market rates ----

  /** The market under which a token's quotes are counted. */
  function CountedUnder(table: ReadinessTable, token: Token): Option<string> {
    var row := Find(table, token);
    if row.None? then None else Some(row.value.marketId)
  }

  function MarketPast(table: ReadinessTable, quotes: seq<Quote>, marketId: string): Totals {
    if quotes == [] then Totals(0, 0, 0)
    else
      var before, last := MarketPast(table, quotes[..|quotes| - 1], marketId), quotes[|quotes| - 1];
      if CountedUnder(table, last.token) == Some(marketId) then PlusQuote(before, last) else before
  }

  function Sum(a: Totals, b: Totals): Totals {
    Totals(a.mismatches + b.mismatches, a.complete + b.complete, a.notComplete + b.notComplete)
  }

  function Share(r: Option<Readiness>, marketId: string): Totals {
    if r.Some? && r.value.marketId == marketId then TotalsOf(r.value) else Totals(0, 0, 0)
  }

  lemma HeadShare(table: ReadinessTable, marketId: string)
    requires table != []
    ensures MarketTotals(table, marketId) == Sum(Share(Some(table[0].1), marketId), MarketTotals(table[1..], marketId))
  {}

  lemma SumCarries(h: Totals, x: Totals, y: Totals, o: Totals, n: Totals)
    requires Sum(x, o) == Sum(y, n)
    ensures Sum(Sum(h, x), o) == Sum(Sum(h, y), n)
  {}

  lemma SumSwaps(n: Totals, rest: Totals, o: Totals)
    ensures Sum(Sum(n, rest), o) == Sum(Sum(o, rest), n)
  {}

  lemma PlusCancels(x: Totals, y: Totals, o: Totals, q: Quote)
    requires Sum(x, o) == Sum(y, PlusQuote(o, q))
    ensures x == PlusQuote(y, q)
  {}

  lemma SumCancels(x: Totals, y: Totals, o: Totals)
    requires Sum(x, o) == Sum(y, o)
    ensures x == y
  {}

  /** Replacing a row of a market exchanges its share in the market's totals. */
  lemma {:induction false} PutTotals(table: ReadinessTable, token: Token, r: Readiness, marketId: string)
    requires Find(table, token).Some? ==> Find(table, token).value.marketId == r.marketId
    ensures Sum(MarketTotals(Put(table, token, r), marketId), Share(Find(table, token), marketId)) ==
            Sum(MarketTotals(table, marketId), Share(Some(r), marketId))
  {
    HeadShare(Put(table, token, r), marketId);
    if table == [] {
      assert [(token, r)][1..] == [];
      assert MarketTotals([], marketId) == Totals(0, 0, 0);
    } else {
      HeadShare(table, marketId);
      var rest := MarketTotals(table[1..], marketId);
      if table[0].0 == token {
        SumSwaps(Share(Some(r), marketId), rest, Share(Some(table[0].1), marketId));
      } else {
        PutTotals(table[1..], token, r, marketId);
        SumCarries(Share(Some(table[0].1), marketId), MarketTotals(Put(table[1..], token, r), marketId), rest,
                   Share(Find(table[1..], token), marketId), Share(Some(r), marketId));
      }
    }
  }

  /** The row that a quote is counted in. */
  function RowFor(table: ReadinessTable, q: Quote): Readiness {
    var found := Find(table, q.token);
    if found.Some? then found.value else Unready(q.marketId)
  }

  lemma UnreadyIsZero(marketId: string)
    ensures TotalsOf(Unready(marketId)) == Totals(0, 0, 0)
  {}

  lemma RecordedTotalsInMarket(table: ReadinessTable, q: Quote, before: bool, marketId: string)
    ensures MarketTotals(Recorded(table, q, before), marketId) ==
            if RowFor(table, q).marketId == marketId then PlusQuote(MarketTotals(table, marketId), q)
            else MarketTotals(table, marketId)
  {
    var r, x, y := RowFor(table, q), MarketTotals(Recorded(table, q, before), marketId), MarketTotals(table, marketId);
    CountedTotals(r, q, before);
    PutTotals(table, q.token, Counted(r, q, before), marketId);
    UnreadyIsZero(q.marketId);
    if r.marketId == marketId {
      PlusCancels(x, y, TotalsOf(r), q);
    } else {
      SumCancels(x, y, Totals(0, 0, 0));
    }
  }

  lemma RecordedInMarket(table: ReadinessTable, q: Quote, before: bool, marketId: string)
    ensures var after := Recorded(table, q, before);
      && CountedUnder(after, q.token).Some?
      && (CountedUnder(table, q.token).Some? ==> CountedUnder(after, q.token) == CountedUnder(table, q.token))
      && MarketTotals(after, marketId) ==
         if CountedUnder(after, q.token) == Some(marketId) then PlusQuote(MarketTotals(table, marketId), q)
         else MarketTotals(table, marketId)
  {
    RecordedTotalsInMarket(table, q, before, marketId);
    PutFinds(table, q.token, Counted(RowFor(table, q), q, before), q.token);
  }

  lemma RecordedElsewhere(table: ReadinessTable, q: Quote, before: bool, token: Token)
    ensures token != q.token ==> CountedUnder(Recorded(table, q, before), token) == CountedUnder(table, token)
  {
    PutFinds(table, q.token, Counted(RowFor(table, q), q, before), token);
  }

  lemma AbsentListed(table: ReadinessTable, listed: Token, under: string, marketId: string, token: Token)
    ensures MarketTotals(PutIfAbsent(table, listed, under), marketId) == MarketTotals(table, marketId)
    ensures CountedUnder(table, token).Some? ==>
            CountedUnder(PutIfAbsent(table, listed, under), token) == CountedUnder(table, token)
  {
    if Find(table, listed).None? {
      UnreadyIsZero(under);
      PutTotals(table, listed, Unready(under), marketId);
      SumCancels(MarketTotals(PutIfAbsent(table, listed, under), marketId), MarketTotals(table, marketId), Totals(0, 0, 0));
      PutFinds(table, listed, Unready(under), token);
    }
  }

  lemma {:induction false} ListedInMarket(table: ReadinessTable, items: seq<(Token, Metadata)>, metadata: map<Token, Metadata>,
                                          marketId: string, token: Token)
    ensures MarketTotals(Listed(table, items, metadata), marketId) == MarketTotals(table, marketId)
    ensures CountedUnder(table, token).Some? ==>
            CountedUnder(Listed(table, items, metadata), token) == CountedUnder(table, token)
  {
    if items != [] {
      var front, last := items[..|items| - 1], items[|items| - 1].0;
      ListedInMarket(table, front, metadata, marketId, token);
      if last in metadata {
        AbsentListed(Listed(table, front, metadata), last, metadata[last].marketId, marketId, token);
      }
    }
  }

  /** A token first met in a quote is counted under the quote's market. */
  lemma FirstQuotedUnder(table: ReadinessTable, q: Quote, early: bool)
    requires CountedUnder(table, q.token).None?
    ensures CountedUnder(Recorded(table, q, early), q.token) == Some(q.marketId)
  {
    PutFinds(table, q.token, Counted(RowFor(table, q), q, early), q.token);
  }

  /** A token first met in a subscription is counted under the market it is listed with. */
  lemma {:induction false} FirstListedUnder(table: ReadinessTable, items: seq<(Token, Metadata)>, metadata: map<Token, Metadata>,
                                            token: Token)
    requires CountedUnder(table, token).None?
    ensures CountedUnder(Listed(table, items, metadata), token) ==
      if token in metadata && (exists i :: 0 <= i < |items| && items[i].0 == token) then Some(metadata[token].marketId) else None
  {
    if items != [] {
      var front, last := items[..|items| - 1], items[|items| - 1].0;
      FirstListedUnder(table, front, metadata, token);
      assert (exists i :: 0 <= i < |items| && items[i].0 == token) <==>
             last == token || exists i :: 0 <= i < |front| && front[i].0 == token;
      if last in metadata {
        PutFinds(Listed(table, front, metadata), last, Unready(metadata[last].marketId), token);
      }
    }
  }

  /** Tokens that are counted stay under their market. */
  lemma StepKeepsMarket(cfg: Config, v: Venue, event: Event, token: Token)
    requires CountedUnder(v.readiness, token).Some?
    ensures CountedUnder(Step(cfg, v, event).0.readiness, token) == CountedUnder(v.readiness, token)
  {
    if event.Message? {
      var step := Step(cfg, v, event);
      if step.1.Some? {
        var early := event.token !in v.books || !v.books[event.token].hasSnapshot;
        QuoteIsCounted(cfg, v, event, step.0, step.1.value);
        RecordedInMarket(v.readiness, step.1.value, early, "");
        RecordedElsewhere(v.readiness, step.1.value, early, token);
      }
    } else if event.Subscribe? {
      ListedInMarket(v.readiness, event.items, ItemsMap(event.items, event.active), "", token);
    }
  }

  /** A market's totals grow by the quotes counted under it. */
  lemma QuoteInMarket(cfg: Config, v: Venue, event: Event, w: Venue, q: Quote, marketId: string)
    requires Step(cfg, v, event) == (w, Some(q))
    ensures CountedUnder(w.readiness, q.token).Some?
    ensures MarketTotals(w.readiness, marketId) ==
            if CountedUnder(w.readiness, q.token) == Some(marketId) then PlusQuote(MarketTotals(v.readiness, marketId), q)
            else MarketTotals(v.readiness, marketId)
  {
    QuoteIsCounted(cfg, v, event, w, q);
    RecordedInMarket(v.readiness, q, event.token !in v.books || !v.books[event.token].hasSnapshot, marketId);
  }

  lemma NoQuoteInMarket(cfg: Config, v: Venue, event: Event, marketId: string)
    requires Step(cfg, v, event).1.None?
    ensures MarketTotals(Step(cfg, v, event).0.readiness, marketId) == MarketTotals(v.readiness, marketId)
  {
    if event.Subscribe? {
      ListedInMarket(v.readiness, event.items, ItemsMap(event.items, event.active), marketId, Token(""));
    }
  }

  lemma {:induction false} MarketPastKept(a: ReadinessTable, b: ReadinessTable, quotes: seq<Quote>, marketId: string)
    requires forall i :: 0 <= i < |quotes| ==> CountedUnder(a, quotes[i].token) == CountedUnder(b, quotes[i].token)
    ensures MarketPast(a, quotes, marketId) == MarketPast(b, quotes, marketId)
  {
    if quotes != [] {
      MarketPastKept(a, b, quotes[..|quotes| - 1], marketId);
    }
  }

  lemma {:induction false} MarketCountsQuotes(cfg: Config, items: seq<(Token, Metadata)>, events: seq<Event>, marketId: string)
    ensures var run := Run(cfg, Opened(items), events);
      && (forall i :: 0 <= i < |run.1| ==> CountedUnder(run.0.readiness, run.1[i].token).Some?)
      && MarketTotals(run.0.readiness, marketId) == MarketPast(run.0.readiness, run.1, marketId)
  {
    if events == [] {
      ListedInMarket([], items, ItemsMap(items, set item <- items :: item.0), marketId, Token(""));
    } else {
      var front, last := events[..|events| - 1], events[|events| - 1];
      MarketCountsQuotes(cfg, items, front, marketId);
      MarketCountsNext(cfg, Run(cfg, Opened(items), front).0, Run(cfg, Opened(items), front).1, last, marketId);
    }
  }

  lemma MarketCountsNext(cfg: Config, v: Venue, quotes: seq<Quote>, event: Event, marketId: string)
    requires forall i :: 0 <= i < |quotes| ==> CountedUnder(v.readiness, quotes[i].token).Some?
    requires MarketTotals(v.readiness, marketId) == MarketPast(v.readiness, quotes, marketId)
    ensures var step := Step(cfg, v, event);
      var all := quotes + Given(step.1);
      && (forall i :: 0 <= i < |all| ==> CountedUnder(step.0.readiness, all[i].token).Some?)
      && MarketTotals(step.0.readiness, marketId) == MarketPast(step.0.readiness, all, marketId)
  {
    var step := Step(cfg, v, event);
    var all := quotes + Given(step.1);
    forall i | 0 <= i < |quotes|
      ensures CountedUnder(step.0.readiness, quotes[i].token) == CountedUnder(v.readiness, quotes[i].token) {
      StepKeepsMarket(cfg, v, event, quotes[i].token);
    }
    MarketPastKept(v.readiness, step.0.readiness, quotes, marketId);
    if step.1.Some? {
      QuoteInMarket(cfg, v, event, step.0, step.1.value, marketId);
      assert all[..|all| - 1] == quotes;
    } else {
      NoQuoteInMarket(cfg, v, event, marketId);
      assert all == quotes;
    }
  }

  function OfMarket(table: ReadinessTable, marketId: string, has: Quote -> bool): Quote -> bool {
    (q: Quote) => CountedUnder(table, q.token) == Some(marketId) && has(q)
  }

  /** The quotes with a property that are counted under a market. */
  ghost function MarketPlaces(table: ReadinessTable, quotes: seq<Quote>, marketId: string, has: Quote -> bool): set<int> {
    PlacesWhere(quotes, OfMarket(table, marketId, has))
  }

  lemma {:induction false} MarketPastCounts(table: ReadinessTable, quotes: seq<Quote>, marketId: string)
    ensures var t := MarketPast(table, quotes, marketId);
      && t.complete == |MarketPlaces(table, quotes, marketId, IsComplete())|
      && t.notComplete == |MarketPlaces(table, quotes, marketId, IsIncomplete())|
      && t.mismatches == |MarketPlaces(table, quotes, marketId, Mismatched())|
  {
    if quotes == [] {
      forall i ensures i !in MarketPlaces(table, quotes, marketId, IsComplete()) {}
    } else {
      var front, last := quotes[..|quotes| - 1], quotes[|quotes| - 1];
      MarketPastCounts(table, front, marketId);
      PlacesAppend(front, last, OfMarket(table, marketId, IsComplete()));
      PlacesAppend(front, last, OfMarket(table, marketId, IsIncomplete()));
      PlacesAppend(front, last, OfMarket(table, marketId, Mismatched()));
      assert quotes == front + [last];
      if last.validationError.Some? && last.validationError.value.Mismatch? {
        assert last.validationError.value.side == Bid || last.validationError.value.side == Ask;
      }
    }
  }

  /**
    After every run, the rates that the next quote of a market publishes are the
    shares among the quotes given so far that are counted under the market.
   */
  lemma {:induction false} MarketRatesMean(cfg: Config, items: seq<(Token, Metadata)>, events: seq<Event>, marketId: string)
    ensures var run := Run(cfg, Opened(items), events);
      Shares(RatesFrom(MarketTotals(run.0.readiness, marketId)),
             |MarketPlaces(run.0.readiness, run.1, marketId, Mismatched())|,
             |MarketPlaces(run.0.readiness, run.1, marketId, IsComplete())|,
             |MarketPlaces(run.0.readiness, run.1, marketId, IsIncomplete())|)
  {
    var run := Run(cfg, Opened(items), events);
    MarketCountsQuotes(cfg, items, events, marketId);
    MarketPastCounts(run.0.readiness, run.1, marketId);
    RatesAreShares(MarketTotals(run.0.readiness, marketId));
  }
}
