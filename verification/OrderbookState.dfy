/**
  The mutable book: the maps, the sorted price lists that must follow them, and
  the flags, changed in place one snapshot, delta or reset at a time.
 */
module OrderbookState {
  import opened Sides
  import opened Options
  import opened PriceIndex
  import opened TopLevels
  import opened BookModel

  datatype BookSnapshot = BookSnapshot(
    snapshotVersion: nat,
    stateVersion: nat,
    generation: nat,
    bidsTopN: Levels,
    asksTopN: Levels,
    bidCount: nat,
    askCount: nat,
    bestBid: Option<real>,
    bestAsk: Option<real>,
    spread: Option<real>,
    mid: Option<real>,
    lastUpdateId: Option<int>,
    lastBookUpdateNs: Option<int>)

  function FirstPrice(levels: Levels): Option<real> {
    if levels == [] then None else Some(levels[0].0)
  }

  /** `snap` is a copy of `s` that keeps `n` levels a side. */
  ghost predicate Copies(s: BookState, n: int, snap: BookSnapshot) {
    && IsBestN(Bid, s.bids, n, snap.bidsTopN)
    && IsBestN(Ask, s.asks, n, snap.asksTopN)
    && snap.snapshotVersion == snap.stateVersion == s.stateVersion
    && snap.generation == s.generation
    && snap.bidCount == |s.bids|
    && snap.askCount == |s.asks|
    && snap.bestBid == FirstPrice(snap.bidsTopN)
    && snap.bestAsk == FirstPrice(snap.asksTopN)
    && (if snap.bestBid.Some? && snap.bestAsk.Some?
        then snap.spread == Some(snap.bestAsk.value - snap.bestBid.value)
             && snap.mid == Some((snap.bestBid.value + snap.bestAsk.value) / 2.0)
        else snap.spread.None? && snap.mid.None?)
    && snap.lastUpdateId == s.lastUpdateId
    && snap.lastBookUpdateNs == s.lastBookUpdateNs
  }

  /** A parsed, clean side only holds positive prices and sizes. */
  /** What a price or a size that is not positive is reported as. */
  predicate LevelError(level: (real, real), code: ErrorCode) {
    match code
    case NegativePrice => level.0 <= 0.0
    case InvalidPriceLevel => level.0 <= 0.0
    case NegativeSize => level.1 <= 0.0
    case InvalidSizeLevel => level.1 <= 0.0
    case _ => false
  }

  method LevelErrorsOf(levels: Levels) returns (errors: set<ErrorCode>)
    ensures forall code :: code in errors <==> exists level :: level in levels && LevelError(level, code)
  {
    errors := {};
    for i := 0 to |levels|
      invariant forall code :: code in errors <==> exists k :: 0 <= k < i && LevelError(levels[k], code)
    {
      if levels[i].0 <= 0.0 {
        errors := errors + {NegativePrice, InvalidPriceLevel};
      }
      if levels[i].1 <= 0.0 {
        errors := errors + {NegativeSize, InvalidSizeLevel};
      }
    }
  }

  ghost predicate ActiveError(book: Sizes, code: ErrorCode) {
    exists p :: p in book && LevelError((p, book[p]), code)
  }

  /** `_active_level_errors`, on the entries in the order of their prices. */
  method ActiveLevelErrors(book: Sizes) returns (errors: set<ErrorCode>)
    ensures forall code :: code in errors <==> ActiveError(book, code)
  {
    var prices := SortedPrices(book.Keys);
    IndexedPricesInBook(prices, book);
    var entries := seq(|prices|, i requires 0 <= i < |prices| => (prices[i], book[prices[i]]));
    errors := LevelErrorsOf(entries);
    forall code ensures code in errors <==> ActiveError(book, code) {
      if p :| p in book && LevelError((p, book[p]), code) {
        assert p in PriceSet(prices);
        var i :| 0 <= i < |prices| && prices[i] == p;
        assert entries[i] == (p, book[p]);
      }
    }
  }

  /** The best prices of a positive book decide whether it is crossed, and its levels give no errors. */
  lemma BookErrorsSplit(bids: Sizes, asks: Sizes, bid: Option<real>, ask: Option<real>)
    requires bid.None? <==> bids == map[]
    requires bid.Some? ==> bid.value in bids && forall p :: p in bids ==> p <= bid.value
    requires ask.None? <==> asks == map[]
    requires ask.Some? ==> ask.value in asks && forall p :: p in asks ==> ask.value <= p
    ensures forall code :: HasBookError(bids, asks, code) <==>
      ActiveError(bids, code) || ActiveError(asks, code) || StructureError(|bids|, |asks|, bid, ask, code)
  {
    assert Crossed(bids, asks) <==> bid.Some? && ask.Some? && bid.value >= ask.value;
  }

  lemma {:induction false} LevelsStayPositive(m: Sizes, rows: seq<RawLevel>, allowZero: bool)
    requires Positive(m) && Clean(rows, allowZero)
    ensures Positive(WithLevels(m, Parsed(rows, allowZero)))
  {
    if rows != [] {
      LevelsStayPositive(m, rows[..|rows| - 1], allowZero);
      var last := rows[|rows| - 1];
      assert last.Row? && last.price.Finite? && last.size.Finite?;
      var front := Parsed(rows[..|rows| - 1], allowZero);
      assert Parsed(rows, allowZero)[..|front|] == front;
    }
  }

  lemma {:induction false} ParsedSizesNonzero(rows: seq<RawLevel>)
    ensures forall i :: 0 <= i < |Parsed(rows, false)| ==> Parsed(rows, false)[i].size != 0.0
  {
    if rows != [] {
      ParsedSizesNonzero(rows[..|rows| - 1]);
    }
  }

  predicate StructureError(bidCount: nat, askCount: nat, bid: Option<real>, ask: Option<real>, code: ErrorCode) {
    match code
    case BookEmpty => bidCount == 0 && askCount == 0
    case OneSideMissing => bidCount == 0 || askCount == 0
    case BestBidMissing => bid.None?
    case BestAskMissing => ask.None?
    case CrossedBook => bid.Some? && ask.Some? && bid.value >= ask.value
    case _ => false
  }

  /** The structural errors that the counts and the best prices give. */
  method StructureErrors(bidCount: nat, askCount: nat, bid: Option<real>, ask: Option<real>)
    returns (errors: set<ErrorCode>)
    ensures forall code :: code in errors <==> StructureError(bidCount, askCount, bid, ask, code)
  {
    errors := {};
    if bidCount == 0 && askCount == 0 {
      errors := errors + {BookEmpty};
    }
    if bidCount == 0 || askCount == 0 {
      errors := errors + {OneSideMissing};
    }
    if bid.None? {
      errors := errors + {BestBidMissing};
    }
    if ask.None? {
      errors := errors + {BestAskMissing};
    }
    if bid.Some? && ask.Some? && bid.value >= ask.value {
      errors := errors + {CrossedBook};
    }
  }

  class OrderbookState {
    var bids: Sizes
    var asks: Sizes
    var bidPricesAsc: seq<real>
    var askPricesAsc: seq<real>
    var snapshotReady: bool
    var readyToEmit: bool
    var lastUpdateId: Option<int>
    var snapshotLastUpdateId: Option<int>
    var requiredFreshSnapshotAfterUpdateId: Option<int>
    var stateVersion: nat
    var generation: nat
    var sequenceContinuous: bool
    var awaitingFirstDeltaAfterSnapshot: bool
    var lastBookUpdateNs: Option<int>

    /** Each price list is its map's keys in ascending order; all prices and sizes are positive. */
    ghost predicate Valid()
      reads `bids, `asks, `bidPricesAsc, `askPricesAsc
    {
      && Indexes(bidPricesAsc, bids) && Indexes(askPricesAsc, asks)
      && Positive(bids) && Positive(asks)
    }

    /** The book as a value; the price lists are not part of it. */
    ghost function View(): BookState
      reads this
    {
      BookState(bids, asks, snapshotReady, readyToEmit, sequenceContinuous, awaitingFirstDeltaAfterSnapshot,
                lastUpdateId, snapshotLastUpdateId, requiredFreshSnapshotAfterUpdateId, stateVersion, generation,
                lastBookUpdateNs)
    }

    constructor ()
      ensures Valid() && View() == FRESH
    {
      bids, asks := map[], map[];
      bidPricesAsc, askPricesAsc := [], [];
      snapshotReady, readyToEmit := false, false;
      lastUpdateId, snapshotLastUpdateId, requiredFreshSnapshotAfterUpdateId := None, None, None;
      stateVersion, generation := 0, 0;
      sequenceContinuous, awaitingFirstDeltaAfterSnapshot := false, false;
      lastBookUpdateNs := None;
      new;
      EmptyIndex();
    }

    method MarkNotReady(advanceGeneration: bool, gapBoundaryUpdateId: Option<int>)
      modifies `snapshotReady, `readyToEmit, `sequenceContinuous, `awaitingFirstDeltaAfterSnapshot, `generation,
               `requiredFreshSnapshotAfterUpdateId
      ensures View() == WithNotReady(old(View()), advanceGeneration, gapBoundaryUpdateId)
    {
      snapshotReady := false;
      readyToEmit := false;
      sequenceContinuous := false;
      awaitingFirstDeltaAfterSnapshot := false;
      if advanceGeneration {
        generation := generation + 1;
      }
      if gapBoundaryUpdateId.Some? {
        requiredFreshSnapshotAfterUpdateId := gapBoundaryUpdateId;
      }
    }

    /** On a valid book the length test never fires, so the lists are never rebuilt. */
    method EnsurePriceIndexes()
      modifies `bidPricesAsc, `askPricesAsc
      ensures old(Valid()) ==> bidPricesAsc == old(bidPricesAsc) && askPricesAsc == old(askPricesAsc)
      ensures |old(bidPricesAsc)| != |bids| || |old(askPricesAsc)| != |asks|
              ==> Indexes(bidPricesAsc, bids) && Indexes(askPricesAsc, asks)
    {
      if |bidPricesAsc| != |bids| || |askPricesAsc| != |asks| {
        ghost var wasValid := Valid();
        RebuildPriceIndexes();
        if wasValid {
          IndexLength(old(bidPricesAsc), bids);
          IndexLength(old(askPricesAsc), asks);
        }
      }
    }

    method RebuildPriceIndexes()
      modifies `bidPricesAsc, `askPricesAsc
      ensures Indexes(bidPricesAsc, bids) && Indexes(askPricesAsc, asks)
    {
      bidPricesAsc := SortedPrices(bids.Keys);
      askPricesAsc := SortedPrices(asks.Keys);
    }

    method BestBid() returns (best: Option<real>)
      requires Valid()
      modifies `bidPricesAsc, `askPricesAsc
      ensures Valid()
      ensures best.None? <==> bids == map[]
      ensures best.Some? ==> best.value in bids && forall p :: p in bids ==> p <= best.value
    {
      EnsurePriceIndexes();
      if bidPricesAsc != [] {
        best := Some(bidPricesAsc[|bidPricesAsc| - 1]);
        PriceSetLast(bidPricesAsc);
        assert best.value in PriceSet(bidPricesAsc);
      } else {
        best := None;
        forall p ensures p !in bids { assert p !in PriceSet(bidPricesAsc); }
      }
    }

    method BestAsk() returns (best: Option<real>)
      requires Valid()
      modifies `bidPricesAsc, `askPricesAsc
      ensures Valid()
      ensures best.None? <==> asks == map[]
      ensures best.Some? ==> best.value in asks && forall p :: p in asks ==> best.value <= p
    {
      EnsurePriceIndexes();
      if askPricesAsc != [] {
        best := Some(askPricesAsc[0]);
        assert best.value in PriceSet(askPricesAsc);
        forall p | p in asks ensures best.value <= p { assert p in PriceSet(askPricesAsc); }
      } else {
        best := None;
        forall p ensures p !in asks { assert p !in PriceSet(askPricesAsc); }
      }
    }

    method Validate() returns (errors: set<ErrorCode>)
      requires Valid()
      modifies `bidPricesAsc, `askPricesAsc
      ensures Valid()
      ensures errors == BookErrors(bids, asks)
    {
      var ofBids := ActiveLevelErrors(bids);
      var ofAsks := ActiveLevelErrors(asks);
      var bid := BestBid();
      var ask := BestAsk();
      var structure := StructureErrors(|bids|, |asks|, bid, ask);
      errors := ofBids + ofAsks + structure;
      BookErrorsSplit(bids, asks, bid, ask);
      assert forall code :: code in errors <==> HasBookError(bids, asks, code);
    }

    method RefreshReadyToEmit()
      requires Valid()
      modifies `bidPricesAsc, `askPricesAsc, `readyToEmit
      ensures Valid() && View() == WithReadyRefreshed(old(View()))
    {
      readyToEmit := PassesGate();
    }

    method PassesGate() returns (ready: bool)
      requires Valid()
      modifies `bidPricesAsc, `askPricesAsc
      ensures Valid() && ready == MayEmit(old(View()))
    {
      var errors := Validate();
      ready := snapshotReady && sequenceContinuous && !awaitingFirstDeltaAfterSnapshot && errors == {};
    }

    method MarkReady() returns (ready: bool)
      requires Valid()
      modifies `bidPricesAsc, `askPricesAsc, `readyToEmit
      ensures Valid() && View() == WithReadyRefreshed(old(View()))
      ensures ready == readyToEmit
    {
      RefreshReadyToEmit();
      ready := readyToEmit;
    }

    method ApplySnapshot(rawBids: seq<RawLevel>, rawAsks: seq<RawLevel>, id: int, nowNs: int,
                         expectedGeneration: Option<int>)
      returns (result: ApplyResult)
      requires Valid()
      modifies this
      ensures Valid() && View() == AfterSnapshot(old(View()), rawBids, rawAsks, id, nowNs, expectedGeneration)
      ensures result == SnapshotResult(old(View()), rawBids, rawAsks, id, expectedGeneration)
    {
      var previousLast := lastUpdateId;
      if expectedGeneration.Some? && expectedGeneration.value != generation {
        return ApplyResult(false, StaleSnapshotGeneration, {SnapshotInconsistent}, previousLast, None);
      }
      if requiredFreshSnapshotAfterUpdateId.Some? && id <= requiredFreshSnapshotAfterUpdateId.value {
        return ApplyResult(false, StaleSnapshotBeforeGapBoundary, {SequenceGapOrReset}, previousLast, None);
      }
      var parsedBids, parsedAsks, errors := ParseSides(rawBids, rawAsks, false);
      if errors != {} {
        MarkNotReady(false, None);
        return ApplyResult(false, SnapshotInvalidLevels, errors, previousLast, None);
      }
      LoadParsed(rawBids, rawAsks, parsedBids, parsedAsks, id, nowNs);
      result := ApplyResult(true, SnapshotLoaded, {}, previousLast, None);
    }

    /** The accepting half of `ApplySnapshot`. */
    method LoadParsed(ghost rawBids: seq<RawLevel>, ghost rawAsks: seq<RawLevel>,
                      parsedBids: seq<Level>, parsedAsks: seq<Level>, id: int, nowNs: int)
      requires Clean(rawBids, false) && Clean(rawAsks, false)
      requires parsedBids == Parsed(rawBids, false) && parsedAsks == Parsed(rawAsks, false)
      modifies this
      ensures Valid() && View() == Loaded(old(View()), rawBids, rawAsks, id, nowNs)
    {
      LoadSides(rawBids, rawAsks, parsedBids, parsedAsks);
      AwaitBridge(id, nowNs);
    }

    method AwaitBridge(id: int, nowNs: int)
      modifies `snapshotReady, `sequenceContinuous, `awaitingFirstDeltaAfterSnapshot, `readyToEmit, `lastUpdateId,
               `snapshotLastUpdateId, `requiredFreshSnapshotAfterUpdateId, `lastBookUpdateNs, `stateVersion
      ensures snapshotReady && !sequenceContinuous && awaitingFirstDeltaAfterSnapshot && !readyToEmit
      ensures lastUpdateId == snapshotLastUpdateId == Some(id) && requiredFreshSnapshotAfterUpdateId.None?
      ensures lastBookUpdateNs == Some(nowNs) && stateVersion == old(stateVersion) + 1
    {
      snapshotReady := true;
      sequenceContinuous := false;
      awaitingFirstDeltaAfterSnapshot := true;
      readyToEmit := false;
      lastUpdateId := Some(id);
      snapshotLastUpdateId := Some(id);
      requiredFreshSnapshotAfterUpdateId := None;
      lastBookUpdateNs := Some(nowNs);
      stateVersion := stateVersion + 1;
    }

    /** Both maps replaced by the snapshot's levels and both lists sorted anew. */
    method LoadSides(ghost rawBids: seq<RawLevel>, ghost rawAsks: seq<RawLevel>,
                     parsedBids: seq<Level>, parsedAsks: seq<Level>)
      requires Clean(rawBids, false) && Clean(rawAsks, false)
      requires parsedBids == Parsed(rawBids, false) && parsedAsks == Parsed(rawAsks, false)
      modifies `bids, `asks, `bidPricesAsc, `askPricesAsc
      ensures Valid()
      ensures bids == WithLevels(map[], Parsed(rawBids, false)) && asks == WithLevels(map[], Parsed(rawAsks, false))
    {
      LevelsStayPositive(map[], rawBids, false);
      LevelsStayPositive(map[], rawAsks, false);
      ParsedSizesNonzero(rawBids);
      ParsedSizesNonzero(rawAsks);
      bids := DictOfLevels(parsedBids);
      asks := DictOfLevels(parsedAsks);
      RebuildPriceIndexes();
    }

    method ApplyDelta(e: DepthEvent) returns (result: ApplyResult)
      requires Valid()
      modifies this
      ensures Valid() && View() == AfterDelta(old(View()), e)
      ensures result == DeltaResult(old(View()), e)
    {
      var parsedBids, parsedAsks;
      result, parsedBids, parsedAsks := CheckDelta(e);
      match result.status
      case DeltaBeforeSnapshot =>
      case DuplicateDelta =>
      case DeltaApplied =>
        AdvanceParsed(e, parsedBids, parsedAsks);
        RefreshReadyToEmit();
      case _ =>
        MarkNotReady(true, Some(e.final));
    }

    /** The id tests of `ApplyDelta` in their order, down to the first that rejects. */
    method CheckOrder(e: DepthEvent) returns (status: ApplyStatus)
      ensures DeltaStatus(View(), e) == if status != DeltaApplied || CleanEvent(e) then status else InvalidDeltaLevels
      ensures status in {DeltaBeforeSnapshot, DuplicateDelta, PreviousIdMismatch, BridgeFailed, SequenceGap, DeltaApplied}
    {
      if !snapshotReady || lastUpdateId.None? {
        return DeltaBeforeSnapshot;
      }
      var previousLast := lastUpdateId.value;
      if e.final <= previousLast {
        return DuplicateDelta;
      }
      if e.prevFinal.Some? && e.prevFinal.value != previousLast {
        return PreviousIdMismatch;
      }
      if awaitingFirstDeltaAfterSnapshot {
        if snapshotLastUpdateId.None? || !(e.first <= snapshotLastUpdateId.value + 1 <= e.final) {
          return BridgeFailed;
        }
      } else if e.first != previousLast + 1 {
        return SequenceGap;
      }
      status := DeltaApplied;
    }

    method CheckDelta(e: DepthEvent) returns (result: ApplyResult, parsedBids: seq<Level>, parsedAsks: seq<Level>)
      ensures result == DeltaResult(View(), e)
      ensures result.accepted ==> CleanEvent(e) && parsedBids == Parsed(e.bids, true) && parsedAsks == Parsed(e.asks, true)
    {
      parsedBids, parsedAsks := [], [];
      var status := CheckOrder(e);
      var errors: set<ErrorCode> := {};
      if status == DeltaBeforeSnapshot {
        errors := {SampleBeforeBookReady};
      } else if status == DuplicateDelta {
        errors := {DuplicateUpdate};
      } else if status == PreviousIdMismatch {
        errors := {PreviousFinalUpdateIdMismatch};
      } else if status == BridgeFailed || status == SequenceGap {
        errors := {SequenceGapOrReset};
      } else {
        parsedBids, parsedAsks, errors := ParseSides(e.bids, e.asks, true);
        if errors != {} {
          status := InvalidDeltaLevels;
        }
      }
      var expectedNext := if status == DeltaBeforeSnapshot || lastUpdateId.None? then None else Some(lastUpdateId.value + 1);
      result := ApplyResult(status == DeltaApplied, status, errors, lastUpdateId, expectedNext);
    }

    /** The accepting half of `ApplyDelta`, up to the readiness refresh. */
    method AdvanceParsed(e: DepthEvent, parsedBids: seq<Level>, parsedAsks: seq<Level>)
      requires Valid() && CleanEvent(e)
      requires parsedBids == Parsed(e.bids, true) && parsedAsks == Parsed(e.asks, true)
      modifies this
      ensures Valid() && View() == Advanced(old(View()), e)
    {
      ApplySides(e, parsedBids, parsedAsks);
      StandAt(e.final, e.recvNs);
    }

    method StandAt(id: int, nowNs: int)
      modifies `lastUpdateId, `lastBookUpdateNs, `awaitingFirstDeltaAfterSnapshot, `sequenceContinuous, `stateVersion
      ensures lastUpdateId == Some(id) && lastBookUpdateNs == Some(nowNs)
      ensures !awaitingFirstDeltaAfterSnapshot && sequenceContinuous
      ensures stateVersion == old(stateVersion) + 1
    {
      lastUpdateId := Some(id);
      lastBookUpdateNs := Some(nowNs);
      awaitingFirstDeltaAfterSnapshot := false;
      sequenceContinuous := true;
      stateVersion := stateVersion + 1;
    }

    /** The two level loops of `ApplyDelta`: each map and its list change together. */
    method ApplySides(ghost e: DepthEvent, parsedBids: seq<Level>, parsedAsks: seq<Level>)
      requires Valid() && CleanEvent(e)
      requires parsedBids == Parsed(e.bids, true) && parsedAsks == Parsed(e.asks, true)
      modifies `bids, `asks, `bidPricesAsc, `askPricesAsc
      ensures Valid()
      ensures bids == WithLevels(old(bids), Parsed(e.bids, true)) && asks == WithLevels(old(asks), Parsed(e.asks, true))
    {
      LevelsStayPositive(bids, e.bids, true);
      LevelsStayPositive(asks, e.asks, true);
      bids, bidPricesAsc := ApplyLevels(bids, bidPricesAsc, parsedBids);
      asks, askPricesAsc := ApplyLevels(asks, askPricesAsc, parsedAsks);
    }

    method CopyTopLevels(topN: int) returns (bidsTopN: Levels, asksTopN: Levels)
      requires Valid()
      modifies `bidPricesAsc, `askPricesAsc
      ensures Valid()
      ensures IsBestN(Bid, bids, topN, bidsTopN) && IsBestN(Ask, asks, topN, asksTopN)
    {
      EnsurePriceIndexes();
      bidsTopN := CopyTopBids(bids, bidPricesAsc, topN);
      asksTopN := CopyTopAsks(asks, askPricesAsc, topN);
    }

    method CopySnapshot(topN: int) returns (snap: BookSnapshot)
      requires Valid()
      modifies `bidPricesAsc, `askPricesAsc
      ensures Valid()
      ensures Copies(View(), topN, snap)
    {
      var bidsTopN, asksTopN := CopyTopLevels(topN);
      var bid := if bidsTopN == [] then None else Some(bidsTopN[0].0);
      var ask := if asksTopN == [] then None else Some(asksTopN[0].0);
      var both := bid.Some? && ask.Some?;
      snap := BookSnapshot(
        stateVersion, stateVersion, generation, bidsTopN, asksTopN, |bids|, |asks|, bid, ask,
        if both then Some(ask.value - bid.value) else None,
        if both then Some((bid.value + ask.value) / 2.0) else None,
        lastUpdateId, lastBookUpdateNs);
    }

    method Cleanup()
      modifies this
      ensures Valid() && View() == Cleaned(old(View()))
    {
      ClearSides();
      snapshotReady := false;
      readyToEmit := false;
      sequenceContinuous := false;
      awaitingFirstDeltaAfterSnapshot := false;
    }

    method ClearSides()
      modifies `bids, `asks, `bidPricesAsc, `askPricesAsc
      ensures Valid() && bids == map[] && asks == map[]
    {
      bids, asks := map[], map[];
      bidPricesAsc, askPricesAsc := [], [];
      EmptyIndex();
    }
  }

  /** `{level.price: level.size for level in levels}`: the last listing of a price wins. */
  method DictOfLevels(levels: seq<Level>) returns (m: Sizes)
    requires forall i :: 0 <= i < |levels| ==> levels[i].size != 0.0
    ensures m == WithLevels(map[], levels)
  {
    m := map[];
    for i := 0 to |levels|
      invariant m == WithLevels(map[], levels[..i])
    {
      assert levels[..i + 1][..i] == levels[..i];
      m := m[levels[i].price := levels[i].size];
    }
    assert levels[..|levels|] == levels;
  }

  /** The two loops of `apply_delta` over one side's levels. */
  method ApplyLevels(book: Sizes, prices: seq<real>, levels: seq<Level>) returns (book': Sizes, prices': seq<real>)
    requires Indexes(prices, book)
    ensures book' == WithLevels(book, levels)
    ensures Indexes(prices', book')
  {
    book', prices' := book, prices;
    for i := 0 to |levels|
      invariant book' == WithLevels(book, levels[..i])
      invariant Indexes(prices', book')
    {
      assert levels[..i + 1][..i] == levels[..i];
      book', prices' := ApplyLevel(book', prices', levels[i]);
    }
    assert levels[..|levels|] == levels;
  }
}
