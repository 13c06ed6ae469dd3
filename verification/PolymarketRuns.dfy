/** What holds of the prediction market's books and quotes over every run of messages. */
module PolymarketRuns {
  import opened Options
  import opened PolymarketLevels
  import opened PolymarketBook
  import opened PolymarketVenue

  // ---- Rates ----

  /** A quote publishes the rates of the quotes given before it for its token. */
  lemma {:induction false} QuotedRatesArePast(cfg: Config, items: seq<(Token, Metadata)>, events: seq<Event>, event: Event)
    ensures var run := Run(cfg, Opened(items), events);
      var given := Step(cfg, run.0, event).1;
      given.Some? ==> given.value.tokenRates == RatesFrom(Past(run.1, given.value.token))
  {
    if event.Message? {
      ReadinessCountsQuotes(cfg, items, events, event.token);
    }
  }

  predicate Balanced(t: Totals) {
    t.mismatches <= t.complete + t.notComplete
  }

  ghost predicate AllBalanced(table: ReadinessTable) {
    forall i :: 0 <= i < |table| ==> Balanced(TotalsOf(table[i].1))
  }

  lemma {:induction false} FoundIsBalanced(table: ReadinessTable, token: Token)
    requires AllBalanced(table)
    ensures Balanced(TokenTotals(table, token))
  {
    if table != [] {
      FoundIsBalanced(table[1..], token);
    }
  }

  lemma {:induction false} PutBalanced(table: ReadinessTable, token: Token, r: Readiness)
    requires AllBalanced(table) && Balanced(TotalsOf(r))
    ensures AllBalanced(Put(table, token, r))
  {
    if table != [] {
      PutBalanced(table[1..], token, r);
    }
  }

  lemma {:induction false} ListedBalanced(table: ReadinessTable, items: seq<(Token, Metadata)>, metadata: map<Token, Metadata>)
    requires AllBalanced(table)
    ensures AllBalanced(Listed(table, items, metadata))
  {
    if items != [] {
      var front, token := items[..|items| - 1], items[|items| - 1].0;
      ListedBalanced(table, front, metadata);
      if token in metadata {
        PutBalanced(Listed(table, front, metadata), token, Unready(metadata[token].marketId));
      }
    }
  }

  lemma RecordedBalanced(table: ReadinessTable, q: Quote, before: bool)
    requires AllBalanced(table)
    ensures AllBalanced(Recorded(table, q, before))
  {
    var found := Find(table, q.token);
    var r := if found.Some? then found.value else Unready(q.marketId);
    FoundIsBalanced(table, q.token);
    CountedTotals(r, q, before);
    PutBalanced(table, q.token, Counted(r, q, before));
  }

  lemma {:induction false} RunBalanced(cfg: Config, items: seq<(Token, Metadata)>, events: seq<Event>)
    ensures AllBalanced(Run(cfg, Opened(items), events).0.readiness)
  {
    if events == [] {
      ListedBalanced([], items, ItemsMap(items, set item <- items :: item.0));
    } else {
      var before, event := Run(cfg, Opened(items), events[..|events| - 1]).0, events[|events| - 1];
      RunBalanced(cfg, items, events[..|events| - 1]);
      StepBalanced(cfg, before, event);
    }
  }

  lemma StepBalanced(cfg: Config, v: Venue, event: Event)
    requires AllBalanced(v.readiness)
    ensures AllBalanced(Step(cfg, v, event).0.readiness)
  {
    if event.Message? {
      var given := Received(cfg, v, event.token, event.marketId, event.content).1;
      if given.Some? {
        RecordedBalanced(v.readiness, given.value, !BookAt(v, event.token, event.marketId).hasSnapshot);
      }
    } else if event.Subscribe? {
      ListedBalanced(v.readiness, event.items, ItemsMap(event.items, event.active));
    }
  }

  lemma {:induction false} MarketIsBalanced(table: ReadinessTable, marketId: string)
    requires AllBalanced(table)
    ensures Balanced(MarketTotals(table, marketId))
  {
    if table != [] {
      MarketIsBalanced(table[1..], marketId);
    }
  }

  predicate InUnit(rates: Option<Rates>) {
    rates.Some? ==> 0.0 <= rates.value.mismatch <= 1.0 && 0.0 <= rates.value.complete <= 1.0
  }

  lemma Fraction(part: nat, total: nat)
    requires part <= total && total > 0
    ensures 0.0 <= part as real / total as real <= 1.0
  {}

  lemma BalancedRates(t: Totals)
    requires Balanced(t)
    ensures InUnit(RatesFrom(t))
  {
    if t.complete + t.notComplete > 0 {
      Fraction(t.mismatches, t.complete + t.notComplete);
      Fraction(t.complete, t.complete + t.notComplete);
    }
  }

  /** Every published rate, a token's or a market's, lies between 0 and 1. */
  lemma {:induction false} PublishedRatesAreFractions(cfg: Config, items: seq<(Token, Metadata)>, events: seq<Event>, event: Event)
    ensures var given := Step(cfg, Run(cfg, Opened(items), events).0, event).1;
      given.Some? ==> InUnit(given.value.tokenRates) && InUnit(given.value.marketRates)
  {
    var v := Run(cfg, Opened(items), events).0;
    var given := Step(cfg, v, event).1;
    if given.Some? {
      RunBalanced(cfg, items, events);
      FoundIsBalanced(v.readiness, given.value.token);
      BalancedRates(TokenTotals(v.readiness, given.value.token));
      MarketIsBalanced(v.readiness, given.value.marketId);
      BalancedRates(MarketTotals(v.readiness, given.value.marketId));
    }
  }

  // ---- Invalid markets ----

  lemma StepInvalid(cfg: Config, v: Venue, event: Event, marketId: string)
    ensures marketId in Step(cfg, v, event).0.invalid <==> marketId in v.invalid || event == Invalidate(marketId)
  {}

  lemma InEvents(front: seq<Event>, last: Event, event: Event)
    ensures event in front + [last] <==> event in front || event == last
  {}

  lemma RunOneMore(cfg: Config, v: Venue, events: seq<Event>)
    requires events != []
    ensures Run(cfg, v, events).0 == Step(cfg, Run(cfg, v, events[..|events| - 1]).0, events[|events| - 1]).0
  {}

  /** A market is invalid exactly when it was or has been marked so: nothing makes it valid again. */
  lemma {:induction false} InvalidIff(cfg: Config, v: Venue, events: seq<Event>, marketId: string)
    ensures marketId in Run(cfg, v, events).0.invalid <==> marketId in v.invalid || Invalidate(marketId) in events
  {
    if events != [] {
      var front, last := events[..|events| - 1], events[|events| - 1];
      InvalidIff(cfg, v, front, marketId);
      StepInvalid(cfg, Run(cfg, v, front).0, last, marketId);
      RunOneMore(cfg, v, events);
      InEvents(front, last, Invalidate(marketId));
      assert events == front + [last];
    }
  }

  lemma ChangeCarriesInvalid(cfg: Config, b: TokenBook, side: ChangeSide, level: PriceLevel, best: Reported, invalid: bool)
    ensures var after := AfterReported(cfg, AfterChange(b, side, level, invalid), best, PriceChange);
      after.invalid == invalid && after.metadata == b.metadata
  {
    ReportsKeepLevels(cfg, AfterChange(b, side, level, invalid), best, PriceChange);
  }

  lemma BestCarriesInvalid(cfg: Config, b: TokenBook, best: Reported, invalid: bool)
    ensures AfterBest(cfg, b, best, invalid).invalid == invalid && AfterBest(cfg, b, best, invalid).metadata == b.metadata
  {
    ReportsKeepLevels(cfg, BeforeBest(b), best, BestBidAsk);
  }

  lemma QuoteCarriesInvalid(cfg: Config, b: TokenBook, content: Content, invalid: bool)
    ensures Apply(cfg, b, content, invalid).quoted ==> Apply(cfg, b, content, invalid).book.invalid == invalid
    ensures Apply(cfg, b, content, invalid).book.metadata == b.metadata
  {
    if content.Change? && content.level.Some? && content.best.Some? {
      ChangeCarriesInvalid(cfg, b, content.side, content.level.value, content.best.value, invalid);
    }
    if content.Best? && content.best.Some? {
      BestCarriesInvalid(cfg, b, content.best.value, invalid);
    }
  }

  /** Once a market has been marked invalid, no later quote that carries its id is complete. */
  lemma {:induction false} InvalidMarketNeverComplete(cfg: Config, v: Venue, events: seq<Event>, event: Event, marketId: string)
    requires Invalidate(marketId) in events
    ensures var given := Step(cfg, Run(cfg, v, events).0, event).1;
      given.Some? && given.value.marketId == marketId ==> !given.value.complete
  {
    var now := Run(cfg, v, events).0;
    InvalidIff(cfg, v, events, marketId);
    if event.Message? {
      var b := BookAt(now, event.token, event.marketId);
      QuoteCarriesInvalid(cfg, b, event.content, b.metadata.marketId in now.invalid);
    }
  }

  // ---- What makes a quote complete ----

  predicate IsSnapshotOf(event: Event, token: Token) {
    event.Message? && event.token == token && event.content.BookLevels? && event.content.bids.Some? && event.content.asks.Some?
  }

  ghost predicate SawSnapshot(events: seq<Event>, token: Token) {
    exists i :: 0 <= i < |events| && IsSnapshotOf(events[i], token)
  }

  /** The book of a token that no snapshot has reached yet. */
  predicate StillWaiting(v: Venue, token: Token) {
    token in v.books ==> !v.books[token].hasSnapshot && v.books[token].incomplete
  }

  lemma StepWaits(cfg: Config, v: Venue, event: Event, token: Token)
    requires StillWaiting(v, token) && !IsSnapshotOf(event, token)
    ensures StillWaiting(Step(cfg, v, event).0, token)
    ensures var given := Step(cfg, v, event).1;
      given.Some? && given.value.token == token ==> !given.value.complete
  {
    if event.Message? && event.token == token {
      var b := BookAt(v, token, event.marketId);
      SnapshotComesFirst(cfg, b, event.content, b.metadata.marketId in v.invalid);
    }
  }

  lemma {:induction false} RunWaits(cfg: Config, items: seq<(Token, Metadata)>, events: seq<Event>, token: Token)
    requires !SawSnapshot(events, token)
    ensures StillWaiting(Run(cfg, Opened(items), events).0, token)
  {
    if events != [] {
      var front := events[..|events| - 1];
      assert forall i :: 0 <= i < |front| ==> front[i] == events[i];
      RunWaits(cfg, items, front, token);
      StepWaits(cfg, Run(cfg, Opened(items), front).0, events[|events| - 1], token);
    }
  }

  /** A complete quote is never given for a token before a whole snapshot of it has arrived. */
  lemma {:induction false} CompleteNeedsSnapshot(cfg: Config, items: seq<(Token, Metadata)>, events: seq<Event>, event: Event)
    ensures var given := Step(cfg, Run(cfg, Opened(items), events).0, event).1;
      given.Some? && given.value.complete ==> SawSnapshot(events + [event], given.value.token)
  {
    var v := Run(cfg, Opened(items), events).0;
    var given := Step(cfg, v, event).1;
    if given.Some? && given.value.complete && !SawSnapshot(events + [event], given.value.token) {
      var all, token := events + [event], given.value.token;
      assert all[|events|] == event;
      assert forall i :: 0 <= i < |events| ==> all[i] == events[i];
      RunWaits(cfg, items, events, token);
      StepWaits(cfg, v, event, token);
    }
  }

  /** The event may refresh the token's book: a snapshot or a best-price message for it. */
  predicate MayRefresh(event: Event, token: Token) {
    event.Message? && event.token == token && !event.content.Change?
  }

  predicate IncompleteAt(v: Venue, token: Token) {
    token in v.books && v.books[token].incomplete
  }

  lemma StepStaysIncomplete(cfg: Config, v: Venue, event: Event, token: Token)
    requires IncompleteAt(v, token) && !MayRefresh(event, token)
    ensures IncompleteAt(Step(cfg, v, event).0, token)
    ensures var given := Step(cfg, v, event).1;
      given.Some? && given.value.token == token ==> !given.value.complete
  {
    if event.Message? && event.token == token {
      var b := v.books[token];
      ChangesNeverComplete(cfg, b, event.content, b.metadata.marketId in v.invalid);
    }
  }

  ghost predicate NoneComplete(quotes: seq<Quote>, token: Token) {
    forall i :: 0 <= i < |quotes| && quotes[i].token == token ==> !quotes[i].complete
  }

  /**
    From an incomplete book on, whatever price changes, subscriptions and
    invalidations come, every quote of the token is incomplete until its next
    snapshot or best-price message.
   */
  lemma {:induction false} IncompleteUntilRefreshed(cfg: Config, v: Venue, events: seq<Event>, token: Token)
    requires IncompleteAt(v, token) && forall i :: 0 <= i < |events| ==> !MayRefresh(events[i], token)
    ensures IncompleteAt(Run(cfg, v, events).0, token)
    ensures NoneComplete(Run(cfg, v, events).1, token)
  {
    if events != [] {
      var front := events[..|events| - 1];
      IncompleteUntilRefreshed(cfg, v, front, token);
      StepStaysIncomplete(cfg, Run(cfg, v, front).0, events[|events| - 1], token);
    }
  }

  // ---- Sizes ----

  ghost predicate PositiveVenue(v: Venue) {
    forall t :: t in v.books ==> PositiveBook(v.books[t])
  }

  predicate BringsNaN(event: Event) {
    event.Message? && StoresNaN(event.content)
  }

  /** One step leaves only positive sizes exactly when it is not a price change to a size that is no number. */
  lemma StepPositiveIff(cfg: Config, v: Venue, event: Event)
    requires PositiveVenue(v)
    ensures PositiveVenue(Step(cfg, v, event).0) <==> !BringsNaN(event)
  {
    if event.Message? {
      var b := BookAt(v, event.token, event.marketId);
      SizesStayPositiveIff(cfg, b, event.content, b.metadata.marketId in v.invalid);
      var after := Step(cfg, v, event).0;
      assert after.books[event.token] == Apply(cfg, b, event.content, b.metadata.marketId in v.invalid).book;
    }
  }

  lemma {:induction false} RunStaysPositive(cfg: Config, items: seq<(Token, Metadata)>, events: seq<Event>)
    requires forall i :: 0 <= i < |events| ==> !BringsNaN(events[i])
    ensures PositiveVenue(Run(cfg, Opened(items), events).0)
  {
    if events != [] {
      RunStaysPositive(cfg, items, events[..|events| - 1]);
      StepPositiveIff(cfg, Run(cfg, Opened(items), events[..|events| - 1]).0, events[|events| - 1]);
    }
  }
}
