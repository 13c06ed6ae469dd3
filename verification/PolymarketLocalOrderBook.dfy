/** The local order book object of the prediction market, method by method, against the steps of its value. */
module PolymarketLocalOrderBook {
  import opened Sides
  import opened Options
  import opened PolymarketLevels
  import opened PolymarketBook
  import opened PolymarketVenue

  /** Putting the new book in the dictionary first changes nothing. */
  lemma AnsweredOnce(v: Venue, token: Token, b: TokenBook, applied: Applied, kind: Kind, before: bool)
    ensures Answered(WithBook(v, token, b), token, applied, kind, before) == Answered(v, token, applied, kind, before)
  {
    assert v.books[token := b][token := applied.book] == v.books[token := applied.book];
  }

  class LocalOrderBook {
    const cfg: Config
    var tokenMetadata: map<Token, Metadata>
    var books: map<Token, TokenBook>
    var readiness: ReadinessTable
    var marketInvalid: set<string>

    function View(): Venue
      reads this
    {
      Venue(tokenMetadata, books, readiness, marketInvalid)
    }

    constructor (cfg: Config, items: seq<(Token, Metadata)>)
      ensures this.cfg == cfg && View() == Opened(items)
    {
      var tokens := set item <- items :: item.0;
      var metadata := ItemsMap(items, tokens);
      this.cfg := cfg;
      tokenMetadata := metadata;
      books := map[];
      readiness := Listed([], items, metadata);
      marketInvalid := {};
    }

    /** The token's book, made on its first message. */
    method BookFor(token: Token, marketId: string) returns (b: TokenBook)
      modifies `books
      ensures b == BookAt(old(View()), token, marketId) && View() == WithBook(old(View()), token, b)
    {
      if token in books {
        b := books[token];
        assert books == books[token := b];
        return;
      }
      b := Unseen(if token in tokenMetadata then tokenMetadata[token] else Metadata(marketId, 0.01));
      books := books[token := b];
    }

    // ---- Reported best prices ----

    method ApplyOneReportedBest(b: TokenBook, side: BookSide, reported: real) returns (book: TokenBook)
      ensures book == OneReported(cfg, b, side, reported)
    {
      book := b;
      var local := BestPrice(side, if side == Bid then book.bids else book.asks);
      if local.None? {
        book := book.(validationError := Some(if book.hasSnapshot then SizeUnknown(side) else MissingSnapshot));
        book := book.(reportedOk := false);
        book := book.(incomplete := true);
        book := if side == Bid then book.(bidOverride := Some(reported)) else book.(askOverride := Some(reported));
        return;
      }
      if Distance(local.value, reported) <= EPSILON {
        book := if side == Bid then book.(bidOverride := None) else book.(askOverride := None);
        return;
      }
      book := book.(validationError := Some(Mismatch(side)));
      var within := WithinTolerance(cfg, local.value, reported, book.metadata.tickSize);
      if cfg.mode == Diagnostic {
        book := book.(reportedOk := false);
        return;
      }
      if cfg.mode == Tolerant && within {
        book := book.(reportedOk := true);
        return;
      }
      book := book.(reportedOk := false);
      book := book.(incomplete := true);
      book := if side == Bid then book.(bidOverride := Some(reported)) else book.(askOverride := Some(reported));
    }

    method ApplyReportedBest(b: TokenBook, reported: Reported, kind: Kind) returns (book: TokenBook)
      ensures book == AfterReported(cfg, b, reported, kind)
    {
      book := b;
      if !book.hasSnapshot {
        book := book.(validationError := Some(MissingSnapshot));
        book := book.(reportedOk := false);
        book := book.(incomplete := true);
        if kind == BestBidAsk {
          book := book.(bidOverride := reported.bid);
          book := book.(askOverride := reported.ask);
        }
        return;
      }
      if reported.bid.Some? {
        book := ApplyOneReportedBest(book, Bid, reported.bid.value);
      }
      if reported.ask.Some? {
        book := ApplyOneReportedBest(book, Ask, reported.ask.value);
      }
    }

    method ClearResolvedOverrides(b: TokenBook) returns (book: TokenBook)
      ensures book == ClearResolved(b)
    {
      book := b;
      var localBid := BestPrice(Bid, book.bids);
      var localAsk := BestPrice(Ask, book.asks);
      if book.bidOverride.Some? && book.bidOverride == localBid {
        book := book.(bidOverride := None);
      }
      if book.askOverride.Some? && book.askOverride == localAsk {
        book := book.(askOverride := None);
      }
    }

    // ---- Quotes and readiness ----

    method QualityRatesForToken(token: Token) returns (rates: Option<Rates>)
      ensures rates == RatesFrom(TokenTotals(readiness, token))
    {
      var row := Find(readiness, token);
      if row.None? || row.value.complete + row.value.notComplete == 0 {
        return None;
      }
      rates := RatesFrom(TotalsOf(row.value));
    }

    /** The sums over the rows of a market, row by row. */
    method QualityRatesForMarket(marketId: string) returns (rates: Option<Rates>)
      ensures rates == RatesFrom(MarketTotals(readiness, marketId))
    {
      var mismatches, complete, notComplete := 0, 0, 0;
      for i := 0 to |readiness|
        invariant mismatches + MarketTotals(readiness[i..], marketId).mismatches == MarketTotals(readiness, marketId).mismatches
        invariant complete + MarketTotals(readiness[i..], marketId).complete == MarketTotals(readiness, marketId).complete
        invariant notComplete + MarketTotals(readiness[i..], marketId).notComplete == MarketTotals(readiness, marketId).notComplete
      {
        var row := readiness[i].1;
        assert readiness[i..][1..] == readiness[i + 1..];
        if row.marketId == marketId {
          mismatches := mismatches + CountOf(row.errors, Mismatch(Bid)) + CountOf(row.errors, Mismatch(Ask));
          complete := complete + row.complete;
          notComplete := notComplete + row.notComplete;
        }
      }
      assert readiness[|readiness|..] == [];
      assert MarketTotals([], marketId) == Totals(0, 0, 0);
      if complete + notComplete == 0 {
        return None;
      }
      var total := (complete + notComplete) as real;
      rates := Some(Rates(mismatches as real / total, complete as real / total));
    }

    /** The price and the size shown of one side: an override has no size. */
    method ShownLevel(book: TokenBook, side: BookSide) returns (price: Option<real>, size: Option<Size>)
      ensures price == Shown(book, side) && size == ShownSize(book, side)
    {
      var local := PolymarketLevels.Best(side, if side == Bid then book.bids else book.asks);
      price, size := if side == Bid then book.bidOverride else book.askOverride, None;
      if price.None? && local.Some? {
        price, size := Some(local.value.price), Some(local.value.size);
      }
    }

    method ErrorOf(book: TokenBook) returns (error: Option<Reason>)
      ensures error == ErrorShown(book)
    {
      var localBid, localAsk := BestPrice(Bid, book.bids), BestPrice(Ask, book.asks);
      error := book.validationError;
      if error.None? && book.hasSnapshot {
        if localBid.None? && localAsk.None? {
          error := Some(EmptyBook);
        } else if localBid.Some? && localAsk.Some? && localBid.value >= localAsk.value {
          error := Some(CrossedBook);
        } else if localBid.None? || localAsk.None? {
          error := Some(StructurallyIncomplete);
        }
      }
    }

    method CompletenessOf(book: TokenBook) returns (complete: bool)
      ensures complete == Complete(book)
    {
      var localBid, localAsk := BestPrice(Bid, book.bids), BestPrice(Ask, book.asks);
      var structurally := book.hasSnapshot && !book.invalid && localBid.Some? && localAsk.Some? && localBid.value < localAsk.value;
      var incomplete := book.incomplete || book.invalid || !structurally;
      complete := !incomplete;
    }

    method QuoteFor(token: Token, book: TokenBook, kind: Kind) returns (quote: Quote)
      ensures quote == QuoteIn(readiness, token, book, kind)
    {
      var bestBid, bestBidSize := ShownLevel(book, Bid);
      var bestAsk, bestAskSize := ShownLevel(book, Ask);
      var error := ErrorOf(book);
      var complete := CompletenessOf(book);
      var tokenRates := QualityRatesForToken(token);
      var marketRates := QualityRatesForMarket(book.metadata.marketId);
      quote := Quote(token, book.metadata.marketId, kind, bestBid, bestBidSize, bestAsk, bestAskSize, complete, error,
                     book.reportedOk, book.updateCount, tokenRates, marketRates);
    }

    method IncrementReadinessError(errors: map<Reason, nat>, reason: Reason) returns (after: map<Reason, nat>)
      ensures after == Bump(errors, reason)
    {
      var count := 0;
      if reason in errors {
        count := errors[reason];
      }
      after := errors[reason := count + 1];
    }

    method CountErrors(errors: map<Reason, nat>, quote: Quote, before: bool) returns (after: map<Reason, nat>)
      ensures after == ErrorsAfter(errors, quote, before)
    {
      after := errors;
      if quote.kind == PriceChange && before {
        after := IncrementReadinessError(after, ChangeBeforeSnapshot);
      } else if quote.kind == BestBidAsk && before {
        after := IncrementReadinessError(after, BestBeforeSnapshot);
      }
      if quote.bestBid.Some? && quote.bestBidSize.None? {
        after := IncrementReadinessError(after, SizeUnknown(Bid));
      }
      if quote.bestAsk.Some? && quote.bestAskSize.None? {
        after := IncrementReadinessError(after, SizeUnknown(Ask));
      }
      if quote.validationError.Some? {
        after := IncrementReadinessError(after, quote.validationError.value);
      }
    }

    method RecordReadiness(quote: Quote, before: bool)
      modifies `readiness
      ensures readiness == Recorded(old(readiness), quote, before)
    {
      var found := Find(readiness, quote.token);
      var row := if found.Some? then found.value else Readiness(quote.marketId, 0, 0, map[]);
      var errors := CountErrors(row.errors, quote, before);
      if quote.complete {
        row := row.(complete := row.complete + 1);
      } else {
        row := row.(notComplete := row.notComplete + 1);
      }
      row := row.(errors := errors);
      readiness := Put(readiness, quote.token, row);
    }

    /** The book of a message put back; one that did not raise is quoted, its rates read before the record is made. */
    method Deliver(token: Token, applied: Applied, kind: Kind, before: bool) returns (quote: Option<Quote>)
      modifies `books, `readiness
      ensures (View(), quote) == Answered(old(View()), token, applied, kind, before)
    {
      books := books[token := applied.book];
      if !applied.quoted {
        return None;
      }
      var q := QuoteFor(token, applied.book, kind);
      RecordReadiness(q, before);
      quote := Some(q);
    }

    method Touch(b: TokenBook) returns (book: TokenBook)
      ensures book == Touched(b)
    {
      book := b.(updateCount := b.updateCount + 1);
    }

    // ---- Messages ----

    method TakeBook(b: TokenBook, bids: Option<seq<PriceLevel>>, asks: Option<seq<PriceLevel>>) returns (applied: Applied)
      ensures applied == Apply(cfg, b, BookLevels(bids, asks), b.metadata.marketId in marketInvalid)
    {
      if bids.None? {
        return Applied(b, false);
      }
      var levels := LevelsToDict(bids.value);
      var book := b.(bids := levels);
      if asks.None? {
        return Applied(book, false);
      }
      levels := LevelsToDict(asks.value);
      book := book.(asks := levels);
      book := book.(hasSnapshot := true, incomplete := false, invalid := book.metadata.marketId in marketInvalid);
      book := book.(bidOverride := None, askOverride := None);
      book := book.(validationError := None, reportedOk := true);
      book := Touch(book);
      applied := Applied(book, true);
    }

    method ApplyBook(token: Token, marketId: string, bids: Option<seq<PriceLevel>>, asks: Option<seq<PriceLevel>>)
      returns (quote: Option<Quote>)
      modifies `books, `readiness
      ensures (View(), quote) == Received(cfg, old(View()), token, marketId, BookLevels(bids, asks))
    {
      var book := BookFor(token, marketId);
      var applied := TakeBook(book, bids, asks);
      quote := Deliver(token, applied, Snapshot, !book.hasSnapshot);
      AnsweredOnce(old(View()), token, book, applied, Snapshot, !book.hasSnapshot);
    }

    /** The statements of `apply_price_change` between the level and the reported prices. */
    method ChangeLevel(b: TokenBook, side: ChangeSide, level: PriceLevel) returns (book: TokenBook)
      ensures book == AfterChange(b, side, level, b.metadata.marketId in marketInvalid)
    {
      book := b;
      match side {
        case Buy => book := book.(bids := SetLevel(book.bids, level));
        case Sell => book := book.(asks := SetLevel(book.asks, level));
        case OtherSide(text) => book := book.(validationError := Some(UnsupportedSide(text)));
      }
      book := book.(reportedOk := true);
      if !book.hasSnapshot {
        book := book.(incomplete := true);
        if book.validationError.None? {
          book := book.(validationError := Some(MissingSnapshot));
        }
      }
      book := book.(invalid := book.metadata.marketId in marketInvalid);
      book := ClearResolvedOverrides(book);
    }

    method TakeChange(b: TokenBook, side: ChangeSide, level: Option<PriceLevel>, best: Option<Reported>) returns (applied: Applied)
      ensures applied == Apply(cfg, b, Change(side, level, best), b.metadata.marketId in marketInvalid)
    {
      if level.None? {
        return Applied(b, false);
      }
      var book := ChangeLevel(b, side, level.value);
      if best.None? {
        return Applied(book, false);
      }
      book := ApplyReportedBest(book, best.value, PriceChange);
      book := Touch(book);
      applied := Applied(book, true);
    }

    method ApplyPriceChange(token: Token, marketId: string, side: ChangeSide, level: Option<PriceLevel>, best: Option<Reported>)
      returns (quote: Option<Quote>)
      modifies `books, `readiness
      ensures (View(), quote) == Received(cfg, old(View()), token, marketId, Change(side, level, best))
    {
      var book := BookFor(token, marketId);
      var applied := TakeChange(book, side, level, best);
      quote := Deliver(token, applied, PriceChange, !book.hasSnapshot);
      AnsweredOnce(old(View()), token, book, applied, PriceChange, !book.hasSnapshot);
    }

    /** The statements of `apply_best_bid_ask` on the book. */
    method TakeBest(b: TokenBook, reported: Reported) returns (book: TokenBook)
      ensures book == AfterBest(cfg, b, reported, b.metadata.marketId in marketInvalid)
    {
      book := b.(incomplete := !b.hasSnapshot);
      book := book.(validationError := None);
      book := book.(reportedOk := true);
      if !book.hasSnapshot {
        book := book.(validationError := Some(MissingSnapshot));
      }
      BothReportedKeep(cfg, book, reported);
      book := ApplyReportedBest(book, reported, BestBidAsk);
      if !book.hasSnapshot {
        book := book.(incomplete := true);
      }
      book := book.(invalid := book.metadata.marketId in marketInvalid);
    }

    method ApplyBestBidAsk(token: Token, marketId: string, best: Option<Reported>) returns (quote: Option<Quote>)
      modifies `books, `readiness
      ensures (View(), quote) == Received(cfg, old(View()), token, marketId, Content.Best(best))
    {
      var book := BookFor(token, marketId);
      var applied := Applied(book, false);
      if best.Some? {
        var after := TakeBest(book, best.value);
        after := Touch(after);
        applied := Applied(after, true);
      }
      quote := Deliver(token, applied, BestBidAsk, !book.hasSnapshot);
      AnsweredOnce(old(View()), token, book, applied, BestBidAsk, !book.hasSnapshot);
    }

    method MarkMarketInvalid(marketId: string)
      modifies `books, `marketInvalid
      ensures View() == Step(cfg, old(View()), Invalidate(marketId)).0
    {
      marketInvalid := marketInvalid + {marketId};
      var todo := books.Keys;
      while todo != {}
        invariant todo <= books.Keys == old(books).Keys && marketInvalid == old(marketInvalid) + {marketId}
        invariant forall t :: t in books ==>
          books[t] == if t in todo then old(books)[t] else Invalidated(old(books)[t], marketId)
        decreases todo
      {
        var t :| t in todo;
        if books[t].metadata.marketId == marketId {
          books := books[t := books[t].(invalid := true, incomplete := true, validationError := Some(MarketInvalidated))];
        }
        todo := todo - {t};
      }
      assert books == InvalidatedAll(old(books), marketId);
    }

    method UpdateTokenMetadata(items: seq<(Token, Metadata)>, active: set<Token>)
      modifies `tokenMetadata, `books, `readiness
      ensures View() == Step(cfg, old(View()), Subscribe(items, active)).0
    {
      var metadata := ItemsMap(items, active);
      tokenMetadata := metadata;
      ghost var table := readiness;
      for i := 0 to |items|
        invariant readiness == Listed(table, items[..i], metadata)
        invariant tokenMetadata == metadata && books == old(books) && marketInvalid == old(marketInvalid)
      {
        assert items[..i + 1][..i] == items[..i];
        var token := items[i].0;
        if token in metadata && Find(readiness, token).None? {
          readiness := Put(readiness, token, Unready(metadata[token].marketId));
        }
      }
      assert items[..|items|] == items;
      Relabel(metadata);
    }

    /** Gives the books the metadata that changed for them. */
    method Relabel(metadata: map<Token, Metadata>)
      modifies `books
      ensures books == Relabelled(old(books), metadata)
    {
      var todo := metadata.Keys;
      while todo != {}
        invariant todo <= metadata.Keys && books.Keys == old(books).Keys
        invariant forall t :: t in books ==>
          books[t] == if t in metadata && t !in todo then old(books)[t].(metadata := metadata[t]) else old(books)[t]
        decreases todo
      {
        var t :| t in todo;
        if t in books {
          books := books[t := books[t].(metadata := metadata[t])];
        }
        todo := todo - {t};
      }
      assert books == Relabelled(old(books), metadata);
    }

    method UpdateTickSize(marketId: string, only: Option<Token>, tickSize: real)
      modifies `tokenMetadata, `books
      ensures View() == Step(cfg, old(View()), Retick(marketId, only, tickSize)).0
    {
      if tickSize <= 0.0 {
        return;
      }
      var changed := Reticked(View(), marketId, only, tickSize);
      tokenMetadata := tokenMetadata + changed;
      Relabel(changed);
    }
  }
}
