/**
  All the prediction market's local books together: which token a message is
  for, which markets are invalid, and the readiness counts behind the rates.
 */
module PolymarketVenue {
  import opened Sides
  import opened Options
  import opened PolymarketLevels
  import opened PolymarketBook

  // ---- Readiness counts ----

  datatype Readiness = Readiness(marketId: string, complete: nat, notComplete: nat, errors: map<Reason, nat>)

  /** The readiness dictionary, in insertion order. */
  type ReadinessTable = seq<(Token, Readiness)>

  function Unready(marketId: string): Readiness {
    Readiness(marketId, 0, 0, map[])
  }

  function Find(table: ReadinessTable, token: Token): Option<Readiness> {
    if table == [] then None
    else if table[0].0 == token then Some(table[0].1)
    else Find(table[1..], token)
  }

  function Put(table: ReadinessTable, token: Token, r: Readiness): ReadinessTable {
    if table == [] then [(token, r)]
    else if table[0].0 == token then [(token, r)] + table[1..]
    else [table[0]] + Put(table[1..], token, r)
  }

  function PutIfAbsent(table: ReadinessTable, token: Token, marketId: string): ReadinessTable {
    if Find(table, token).Some? then table else Put(table, token, Unready(marketId))
  }

  function CountOf(errors: map<Reason, nat>, reason: Reason): nat {
    if reason in errors then errors[reason] else 0
  }

  function Bump(errors: map<Reason, nat>, reason: Reason): map<Reason, nat> {
    errors[reason := CountOf(errors, reason) + 1]
  }

  /** The sum over the reasons that start with `reported_best_`. */
  function Mismatches(errors: map<Reason, nat>): nat {
    CountOf(errors, Mismatch(Bid)) + CountOf(errors, Mismatch(Ask))
  }

  function EarlyCounted(errors: map<Reason, nat>, kind: Kind, before: bool): map<Reason, nat> {
    if !before || kind == Snapshot then errors
    else Bump(errors, if kind == PriceChange then ChangeBeforeSnapshot else BestBeforeSnapshot)
  }

  function SizeCounted(errors: map<Reason, nat>, side: BookSide, price: Option<real>, size: Option<Size>): map<Reason, nat> {
    if price.Some? && size.None? then Bump(errors, SizeUnknown(side)) else errors
  }

  function ErrorsAfter(errors: map<Reason, nat>, q: Quote, before: bool): map<Reason, nat> {
    var early := EarlyCounted(errors, q.kind, before);
    var bids := SizeCounted(early, Bid, q.bestBid, q.bestBidSize);
    var asks := SizeCounted(bids, Ask, q.bestAsk, q.bestAskSize);
    if q.validationError.Some? then Bump(asks, q.validationError.value) else asks
  }

  function Counted(r: Readiness, q: Quote, before: bool): Readiness {
    Readiness(r.marketId, r.complete + (if q.complete then 1 else 0), r.notComplete + (if q.complete then 0 else 1),
              ErrorsAfter(r.errors, q, before))
  }

  function Recorded(table: ReadinessTable, q: Quote, before: bool): ReadinessTable {
    var found := Find(table, q.token);
    Put(table, q.token, Counted(if found.Some? then found.value else Unready(q.marketId), q, before))
  }

  // ---- Rates ----

  datatype Totals = Totals(mismatches: nat, complete: nat, notComplete: nat)

  function RatesFrom(t: Totals): Option<Rates> {
    var total := t.complete + t.notComplete;
    if total == 0 then None
    else Some(Rates(t.mismatches as real / total as real, t.complete as real / total as real))
  }

  function TotalsOf(r: Readiness): Totals {
    Totals(Mismatches(r.errors), r.complete, r.notComplete)
  }

  function TokenTotals(table: ReadinessTable, token: Token): Totals {
    var found := Find(table, token);
    if found.None? then Totals(0, 0, 0) else TotalsOf(found.value)
  }

  function MarketTotals(table: ReadinessTable, marketId: string): Totals {
    if table == [] then Totals(0, 0, 0)
    else
      var rest, own := MarketTotals(table[1..], marketId), TotalsOf(table[0].1);
      if table[0].1.marketId != marketId then rest
      else Totals(rest.mismatches + own.mismatches, rest.complete + own.complete, rest.notComplete + own.notComplete)
  }

  // ---- Steps ----

  datatype Venue = Venue(
    metadata: map<Token, Metadata>,
    books: map<Token, TokenBook>,
    readiness: ReadinessTable,
    invalid: set<string>)

  datatype Event =
    | Message(token: Token, marketId: string, content: Content)
    | Invalidate(marketId: string)
    | Subscribe(items: seq<(Token, Metadata)>, active: set<Token>)
    | Retick(marketId: string, only: Option<Token>, tickSize: real)

  /** The book of a token, new with the token's metadata or with the message's market. */
  function BookAt(v: Venue, token: Token, marketId: string): TokenBook {
    if token in v.books then v.books[token]
    else Unseen(if token in v.metadata then v.metadata[token] else Metadata(marketId, 0.01))
  }

  function QuoteIn(table: ReadinessTable, token: Token, b: TokenBook, kind: Kind): Quote {
    QuoteOf(token, b, kind, RatesFrom(TokenTotals(table, token)), RatesFrom(MarketTotals(table, b.metadata.marketId)))
  }

  function WithBook(v: Venue, token: Token, b: TokenBook): Venue {
    v.(books := v.books[token := b])
  }

  /** The message's book put back and, unless the call raised, quoted and counted. */
  function Answered(v: Venue, token: Token, applied: Applied, kind: Kind, before: bool): (Venue, Option<Quote>) {
    var held := WithBook(v, token, applied.book);
    if !applied.quoted then (held, None)
    else
      var q := QuoteIn(v.readiness, token, applied.book, kind);
      (held.(readiness := Recorded(v.readiness, q, before)), Some(q))
  }

  function Received(cfg: Config, v: Venue, token: Token, marketId: string, content: Content): (Venue, Option<Quote>) {
    var b := BookAt(v, token, marketId);
    Answered(v, token, Apply(cfg, b, content, b.metadata.marketId in v.invalid), KindOf(content), !b.hasSnapshot)
  }

  function Invalidated(b: TokenBook, marketId: string): TokenBook {
    if b.metadata.marketId != marketId then b
    else b.(invalid := true, incomplete := true, validationError := Some(MarketInvalidated))
  }

  function InvalidatedAll(books: map<Token, TokenBook>, marketId: string): map<Token, TokenBook> {
    map t | t in books :: Invalidated(books[t], marketId)
  }

  function ItemsMap(items: seq<(Token, Metadata)>, active: set<Token>): map<Token, Metadata> {
    if items == [] then map[]
    else
      var before, last := ItemsMap(items[..|items| - 1], active), items[|items| - 1];
      if last.0 in active then before[last.0 := last.1] else before
  }

  function Listed(table: ReadinessTable, items: seq<(Token, Metadata)>, metadata: map<Token, Metadata>): ReadinessTable {
    if items == [] then table
    else
      var before, token := Listed(table, items[..|items| - 1], metadata), items[|items| - 1].0;
      if token in metadata then PutIfAbsent(before, token, metadata[token].marketId) else before
  }

  function Relabelled(books: map<Token, TokenBook>, metadata: map<Token, Metadata>): map<Token, TokenBook> {
    map t | t in books :: if t in metadata then books[t].(metadata := metadata[t]) else books[t]
  }

  function Subscribed(v: Venue, items: seq<(Token, Metadata)>, active: set<Token>): Venue {
    var metadata := ItemsMap(items, active);
    Venue(metadata, Relabelled(v.books, metadata), Listed(v.readiness, items, metadata), v.invalid)
  }

  /** The tokens whose tick size an event changes, with their new metadata. */
  function Reticked(v: Venue, marketId: string, token: Option<Token>, tickSize: real): map<Token, Metadata> {
    map t | t in v.metadata && (if token.Some? then t == token.value else v.metadata[t].marketId == marketId)
      :: v.metadata[t].(tickSize := tickSize)
  }

  function Step(cfg: Config, v: Venue, event: Event): (Venue, Option<Quote>) {
    match event
    case Message(token, marketId, content) => Received(cfg, v, token, marketId, content)
    case Invalidate(marketId) =>
      (v.(invalid := v.invalid + {marketId}, books := InvalidatedAll(v.books, marketId)), None)
    case Subscribe(items, active) => (Subscribed(v, items, active), None)
    case Retick(marketId, token, tickSize) =>
      if tickSize <= 0.0 then (v, None)
      else
        var changed := Reticked(v, marketId, token, tickSize);
        (v.(metadata := v.metadata + changed, books := Relabelled(v.books, changed)), None)
  }

  function Opened(items: seq<(Token, Metadata)>): Venue {
    Subscribed(Venue(map[], map[], [], {}), items, set item <- items :: item.0)
  }

  function Run(cfg: Config, v: Venue, events: seq<Event>): (Venue, seq<Quote>) {
    if events == [] then (v, [])
    else
      var before := Run(cfg, v, events[..|events| - 1]);
      var last := Step(cfg, before.0, events[|events| - 1]);
      (last.0, before.1 + Given(last.1))
  }

  // ---- The rates are those of the quotes already given ----

  predicate IsMismatch(q: Quote) {
    q.validationError.Some? && q.validationError.value.Mismatch?
  }

  /** A token's quotes in a history: how many report a mismatch, how many are complete, how many not. */
  function Past(quotes: seq<Quote>, token: Token): Totals {
    if quotes == [] then Totals(0, 0, 0)
    else
      var before, last := Past(quotes[..|quotes| - 1], token), quotes[|quotes| - 1];
      if last.token != token then before else PlusQuote(before, last)
  }

  function PlusQuote(t: Totals, q: Quote): Totals {
    Totals(t.mismatches + (if IsMismatch(q) then 1 else 0), t.complete + (if q.complete then 1 else 0),
           t.notComplete + (if q.complete then 0 else 1))
  }

  lemma BumpCounts(errors: map<Reason, nat>, reason: Reason)
    ensures Mismatches(Bump(errors, reason)) == Mismatches(errors) + if reason.Mismatch? then 1 else 0
  {
    if reason.Mismatch? { assert reason.side == Bid || reason.side == Ask; }
  }

  /** A quote adds one mismatch at most, and only when its own error is one. */
  lemma CountedTotals(r: Readiness, q: Quote, before: bool)
    ensures TotalsOf(Counted(r, q, before)) == PlusQuote(TotalsOf(r), q)
  {
    var early := EarlyCounted(r.errors, q.kind, before);
    var bids := SizeCounted(early, Bid, q.bestBid, q.bestBidSize);
    var asks := SizeCounted(bids, Ask, q.bestAsk, q.bestAskSize);
    BumpCounts(r.errors, if q.kind == PriceChange then ChangeBeforeSnapshot else BestBeforeSnapshot);
    BumpCounts(early, SizeUnknown(Bid));
    BumpCounts(bids, SizeUnknown(Ask));
    if q.validationError.Some? { BumpCounts(asks, q.validationError.value); }
  }

  lemma {:induction false} PutFinds(table: ReadinessTable, token: Token, r: Readiness, other: Token)
    ensures Find(Put(table, token, r), other) == if other == token then Some(r) else Find(table, other)
  {
    if table == [] {
      assert [(token, r)][1..] == [];
    } else if table[0].0 != token {
      PutFinds(table[1..], token, r, other);
    }
  }

  lemma {:induction false} ListingAddsNothing(table: ReadinessTable, items: seq<(Token, Metadata)>, metadata: map<Token, Metadata>,
                                              token: Token)
    ensures TokenTotals(Listed(table, items, metadata), token) == TokenTotals(table, token)
  {
    if items != [] {
      var before, last := Listed(table, items[..|items| - 1], metadata), items[|items| - 1].0;
      ListingAddsNothing(table, items[..|items| - 1], metadata, token);
      if last in metadata {
        PutFinds(before, last, Unready(metadata[last].marketId), token);
      }
    }
  }

  lemma RecordedTotals(table: ReadinessTable, q: Quote, before: bool, token: Token)
    ensures TokenTotals(Recorded(table, q, before), token) ==
            if q.token == token then PlusQuote(TokenTotals(table, token), q) else TokenTotals(table, token)
  {
    var found := Find(table, q.token);
    var r := if found.Some? then found.value else Unready(q.marketId);
    CountedTotals(r, q, before);
    PutFinds(table, q.token, Counted(r, q, before), token);
  }

  function Plus(t: Totals, given: Option<Quote>, token: Token): Totals {
    if given.Some? && given.value.token == token then PlusQuote(t, given.value) else t
  }

  lemma ReceivedTotals(cfg: Config, v: Venue, to: Token, marketId: string, content: Content, token: Token)
    ensures var step := Received(cfg, v, to, marketId, content);
      TokenTotals(step.0.readiness, token) == Plus(TokenTotals(v.readiness, token), step.1, token)
  {
    var step := Received(cfg, v, to, marketId, content);
    if step.1.Some? {
      RecordedTotals(v.readiness, step.1.value, !BookAt(v, to, marketId).hasSnapshot, token);
    }
  }

  lemma StepTotals(cfg: Config, v: Venue, event: Event, token: Token)
    ensures TokenTotals(Step(cfg, v, event).0.readiness, token) ==
            Plus(TokenTotals(v.readiness, token), Step(cfg, v, event).1, token)
  {
    if event.Message? {
      ReceivedTotals(cfg, v, event.token, event.marketId, event.content, token);
    } else if event.Subscribe? {
      ListingAddsNothing(v.readiness, event.items, ItemsMap(event.items, event.active), token);
    }
  }

  function Given(quote: Option<Quote>): seq<Quote> {
    if quote.Some? then [quote.value] else []
  }

  lemma PastPlus(quotes: seq<Quote>, given: Option<Quote>, token: Token)
    ensures Past(quotes + Given(given), token) == Plus(Past(quotes, token), given, token)
  {
    if given.Some? {
      assert (quotes + [given.value])[..|quotes|] == quotes;
    } else {
      assert quotes + [] == quotes;
    }
  }

  /** The readiness counts of a token are the counts of the quotes given for it, over every run. */
  lemma {:induction false} ReadinessCountsQuotes(cfg: Config, items: seq<(Token, Metadata)>, events: seq<Event>, token: Token)
    ensures var run := Run(cfg, Opened(items), events);
      TokenTotals(run.0.readiness, token) == Past(run.1, token)
  {
    if events == [] {
      ListingAddsNothing([], items, ItemsMap(items, set item <- items :: item.0), token);
    } else {
      var before := Run(cfg, Opened(items), events[..|events| - 1]);
      ReadinessCountsQuotes(cfg, items, events[..|events| - 1], token);
      StepTotals(cfg, before.0, events[|events| - 1], token);
      PastPlus(before.1, Step(cfg, before.0, events[|events| - 1]).1, token);
    }
  }
}
