/**
  What one snapshot or one delta does to a book, said on the book's fields and
  on the rows that arrived, without the functions that compute it.
 */
module BookMeaning {
  import opened Options
  import opened PriceIndex
  import opened BookModel
  import opened BookRuns

  // ---- What the rows of a message leave at a price ----

  /** `i` is the last row for the price. */
  ghost predicate LastRowFor(rows: seq<RawLevel>, price: real, i: int) {
    && 0 <= i < |rows| && rows[i].Row? && rows[i].price == Finite(price)
    && forall j :: i < j < |rows| && rows[j].Row? ==> rows[j].price != Finite(price)
  }

  ghost predicate NoRowFor(rows: seq<RawLevel>, price: real) {
    forall j :: 0 <= j < |rows| && rows[j].Row? ==> rows[j].price != Finite(price)
  }

  /** A row that every check passes is two finite numbers: a positive price and a size that is not negative, or positive. */
  lemma CleanRowIff(row: RawLevel, allowZero: bool)
    ensures RowErrors(row, allowZero) == {} <==>
      && row.Row? && row.price.Finite? && row.size.Finite?
      && row.price.value > 0.0 && row.size.value >= 0.0 && (row.size.value == 0.0 ==> allowZero)
  {
    if row.Row? && row.price.Unparseable? { assert InvalidPriceLevel in RowErrors(row, allowZero); }
    if row.Row? && row.price.NonFinite? { assert InvalidPriceLevel in RowErrors(row, allowZero); }
    if row.Row? && row.size.Unparseable? { assert InvalidSizeLevel in RowErrors(row, allowZero); }
    if row.Row? && row.size.NonFinite? { assert InvalidSizeLevel in RowErrors(row, allowZero); }
    if row.Row? && row.price.Finite? && row.price.value <= 0.0 { assert InvalidPriceLevel in RowErrors(row, allowZero); }
    if row.Row? && row.size.Finite? && row.size.value <= 0.0 {
      assert InvalidSizeLevel in RowErrors(row, allowZero) <==> row.size.value < 0.0 || !allowZero;
    }
    if row.MalformedRow? { assert InvalidPriceLevel in RowErrors(row, allowZero); }
  }

  /** What each error code of a row tells of it. */
  lemma RowErrorsMean(row: RawLevel, allowZero: bool)
    ensures NonFinitePrice in RowErrors(row, allowZero) <==> row.Row? && row.price.NonFinite?
    ensures NegativePrice in RowErrors(row, allowZero) <==> row.Row? && row.price.Finite? && row.price.value <= 0.0
    ensures NonFiniteSize in RowErrors(row, allowZero) <==> row.Row? && row.size.NonFinite?
    ensures NegativeSize in RowErrors(row, allowZero) <==>
            row.Row? && row.size.Finite? && (row.size.value < 0.0 || (row.size.value == 0.0 && !allowZero))
    ensures InvalidPriceLevel in RowErrors(row, allowZero) <==>
            row.MalformedRow? || !row.price.Finite? || row.price.value <= 0.0
    ensures InvalidSizeLevel in RowErrors(row, allowZero) <==>
            row.MalformedRow? || !row.size.Finite? || row.size.value < 0.0 || (row.size.value == 0.0 && !allowZero)
  {}

  lemma LastRowIsWritten(m: Sizes, rows: seq<RawLevel>, allowZero: bool)
    requires rows != [] && Clean(rows, allowZero)
    ensures var front, last := rows[..|rows| - 1], rows[|rows| - 1];
      && Clean(front, allowZero) && last.Row? && last.price.Finite? && last.size.Finite?
      && WithLevels(m, Parsed(rows, allowZero)) ==
         WithLevel(WithLevels(m, Parsed(front, allowZero)), Level(last.price.value, last.size.value))
  {
    var front, last := rows[..|rows| - 1], rows[|rows| - 1];
    assert RowErrors(last, allowZero) == {};
    CleanRowIff(last, allowZero);
    var before := Parsed(front, allowZero);
    assert Parsed(rows, allowZero) == before + [Level(last.price.value, last.size.value)];
    assert Parsed(rows, allowZero)[..|before|] == before;
  }

  /** Clean rows written over a map: the last row of a price gives its size, 0 for none, and other prices keep theirs. */
  lemma {:induction false} LastRowWins(m: Sizes, rows: seq<RawLevel>, allowZero: bool, price: real) returns (i: Option<nat>)
    requires Clean(rows, allowZero)
    ensures i.Some? ==> LastRowFor(rows, price, i.value) && rows[i.value].size.Finite?
    ensures i.Some? ==> SizeAt(WithLevels(m, Parsed(rows, allowZero)), price) == rows[i.value].size.value
    ensures i.None? ==> NoRowFor(rows, price) && SizeAt(WithLevels(m, Parsed(rows, allowZero)), price) == SizeAt(m, price)
  {
    if rows == [] {
      i := None;
    } else {
      LastRowIsWritten(m, rows, allowZero);
      i := LastRowWins(m, rows[..|rows| - 1], allowZero, price);
      if rows[|rows| - 1].price == Finite(price) {
        i := Some(|rows| - 1);
      }
    }
  }

  /** The side that a message with these rows leaves of the side `m`. */
  ghost predicate Written(m: Sizes, rows: seq<RawLevel>, after: Sizes) {
    forall price, i :: LastRowFor(rows, price, i) && rows[i].size.Finite? ==> SizeAt(after, price) == rows[i].size.value
  }

  /** Prices that the rows leave out keep their size. */
  ghost predicate KeptElsewhere(m: Sizes, rows: seq<RawLevel>, after: Sizes) {
    forall price :: NoRowFor(rows, price) ==> SizeAt(after, price) == SizeAt(m, price)
  }

  lemma RowsAreWritten(m: Sizes, rows: seq<RawLevel>, allowZero: bool)
    requires Clean(rows, allowZero)
    ensures Written(m, rows, WithLevels(m, Parsed(rows, allowZero)))
    ensures KeptElsewhere(m, rows, WithLevels(m, Parsed(rows, allowZero)))
  {
    var after := WithLevels(m, Parsed(rows, allowZero));
    forall price, i | LastRowFor(rows, price, i) && rows[i].size.Finite? ensures SizeAt(after, price) == rows[i].size.value {
      var k := LastRowWins(m, rows, allowZero, price);
      assert k.Some? && k.value == i;
    }
    forall price | NoRowFor(rows, price) ensures SizeAt(after, price) == SizeAt(m, price) {
      var k := LastRowWins(m, rows, allowZero, price);
      assert k.None?;
    }
  }

  // ---- Snapshots ----

  /** What the source asks of a snapshot. */
  ghost predicate Takable(s: BookState, bids: seq<RawLevel>, asks: seq<RawLevel>, id: int, generation: Option<int>) {
    && Clean(bids, false) && Clean(asks, false)
    && (generation.None? || generation.value == s.generation)
    && (s.gapBoundary.None? || s.gapBoundary.value < id)
  }

  /** A book that waits at `id` for the delta that bridges a snapshot. */
  ghost predicate WaitsAt(t: BookState, id: int) {
    && t.snapshotReady && t.awaitingBridge && !t.sequenceContinuous && !t.readyToEmit
    && t.lastUpdateId == t.snapshotLastUpdateId == Some(id) && t.gapBoundary.None?
  }

  ghost predicate SameContents(s: BookState, t: BookState) {
    && t.bids == s.bids && t.asks == s.asks && t.lastUpdateId == s.lastUpdateId && t.stateVersion == s.stateVersion
    && t.gapBoundary == s.gapBoundary && t.generation == s.generation
  }

  /**
    A snapshot is taken exactly when both sides are clean, its generation fits
    and no gap boundary reaches its id: then the book waits at its id with the
    snapshot's levels only. Otherwise levels, id, version and boundary stay.
   */
  lemma {:induction false} SnapshotTakenIff(s: BookState, bids: seq<RawLevel>, asks: seq<RawLevel>, id: int, nowNs: int,
                                            generation: Option<int>)
    requires Inv(s)
    ensures var t := AfterSnapshot(s, bids, asks, id, nowNs, generation);
      var result := SnapshotResult(s, bids, asks, id, generation);
      if Takable(s, bids, asks, id, generation)
      then (&& result.accepted && result.status == SnapshotLoaded && result.errors == {}
            && result.previousLast == s.lastUpdateId
            && WaitsAt(t, id) && t.stateVersion == s.stateVersion + 1 && t.generation == s.generation
            && t.lastBookUpdateNs == Some(nowNs)
            && Written(map[], bids, t.bids) && KeptElsewhere(map[], bids, t.bids)
            && Written(map[], asks, t.asks) && KeptElsewhere(map[], asks, t.asks))
      else (!result.accepted && result.status != SnapshotLoaded && SameContents(s, t))
  {
    if Takable(s, bids, asks, id, generation) {
      RowsAreWritten(map[], bids, false);
      RowsAreWritten(map[], asks, false);
    }
  }

  /** Why a snapshot is refused, and that only bad levels close the book. */
  lemma RefusalMeans(s: BookState, bids: seq<RawLevel>, asks: seq<RawLevel>, id: int, nowNs: int, generation: Option<int>)
    requires Inv(s) && !Takable(s, bids, asks, id, generation)
    ensures var t := AfterSnapshot(s, bids, asks, id, nowNs, generation);
      var result := SnapshotResult(s, bids, asks, id, generation);
      && result.previousLast == s.lastUpdateId
      && if generation.Some? && generation.value != s.generation then
           result.status == StaleSnapshotGeneration && result.errors == {SnapshotInconsistent} && t == s
         else if s.gapBoundary.Some? && id <= s.gapBoundary.value then
           result.status == StaleSnapshotBeforeGapBoundary && result.errors == {SequenceGapOrReset} && t == s
         else (result.status == SnapshotInvalidLevels && !t.snapshotReady && !t.readyToEmit)
  {}

  /** Cleaning up empties both sides and closes the book; its ids, version, generation and boundary stay. */
  lemma CleanupMeans(s: BookState)
    ensures var t := Apply(s, Cleanup);
      && t.bids == map[] && t.asks == map[]
      && !t.snapshotReady && !t.readyToEmit && !t.sequenceContinuous && !t.awaitingBridge
      && t.lastUpdateId == s.lastUpdateId && t.stateVersion == s.stateVersion && t.generation == s.generation
      && t.gapBoundary == s.gapBoundary
  {}

  // ---- Deltas ----

  /** The previous id that the delta names, if it names one, is the book's. */
  predicate PreviousFits(s: BookState, e: DepthEvent)
    requires s.lastUpdateId.Some?
  {
    e.prevFinal.None? || e.prevFinal.value == s.lastUpdateId.value
  }

  /** The delta leaves out no id after the book's, and once live repeats none. */
  predicate RangeFits(s: BookState, e: DepthEvent)
    requires s.lastUpdateId.Some?
  {
    if s.sequenceContinuous then e.first == s.lastUpdateId.value + 1 else e.first <= s.lastUpdateId.value + 1
  }

  /** The outcome of a delta, on the ids. */
  lemma DeltaStatusMeans(s: BookState, e: DepthEvent)
    requires Inv(s)
    ensures DeltaStatus(s, e) ==
      if !s.snapshotReady then DeltaBeforeSnapshot
      else if e.final <= s.lastUpdateId.value then DuplicateDelta
      else if !PreviousFits(s, e) then PreviousIdMismatch
      else if !RangeFits(s, e) then (if s.sequenceContinuous then SequenceGap else BridgeFailed)
      else if !CleanEvent(e) then InvalidDeltaLevels
      else DeltaApplied
  {}

  /** What a result reports: the id before, the id expected next, and the code of the refusal. */
  lemma DeltaResultMeans(s: BookState, e: DepthEvent)
    requires Inv(s)
    ensures var r := DeltaResult(s, e);
      && r.previousLast == s.lastUpdateId
      && (r.expectedNext == if s.snapshotReady then Some(s.lastUpdateId.value + 1) else None)
      && (!s.snapshotReady ==> r.errors == {SampleBeforeBookReady})
      && (s.snapshotReady && e.final <= s.lastUpdateId.value ==> r.errors == {DuplicateUpdate})
      && (s.snapshotReady && e.final > s.lastUpdateId.value ==>
            if !PreviousFits(s, e) then r.errors == {PreviousFinalUpdateIdMismatch}
            else if !RangeFits(s, e) then r.errors == {SequenceGapOrReset}
            else (r.accepted ==> r.errors == {}))
  {
    DeltaStatusMeans(s, e);
  }

  /** An applied delta writes its rows over the book and makes it live at its last id, as old as the message. */
  lemma AppliedDeltaMeans(s: BookState, e: DepthEvent)
    requires Inv(s) && DeltaResult(s, e).accepted
    ensures var t := AfterDelta(s, e);
      && t.snapshotReady && t.sequenceContinuous && !t.awaitingBridge && t.lastUpdateId == Some(e.final)
      && t.stateVersion == s.stateVersion + 1 && t.generation == s.generation && t.lastBookUpdateNs == Some(e.recvNs)
      && Written(s.bids, e.bids, t.bids) && KeptElsewhere(s.bids, e.bids, t.bids)
      && Written(s.asks, e.asks, t.asks) && KeptElsewhere(s.asks, e.asks, t.asks)
  {
    DeltaStatusMeans(s, e);
    RowsAreWritten(s.bids, e.bids, true);
    RowsAreWritten(s.asks, e.asks, true);
  }

  // ---- After a gap ----

  /**
    However a run goes on after a delta with last id `u` was refused for a gap,
    as long as no snapshot above `u` was taken the next clean one reopens the
    book at its id.
   */
  lemma {:induction false} NewerSnapshotReopens(s: BookState, e: DepthEvent, ops: seq<BookOp>, bids: seq<RawLevel>,
                                                asks: seq<RawLevel>, id: int, nowNs: int)
    requires Inv(s) && s.snapshotReady && e.final > s.lastUpdateId.value && !DeltaResult(s, e).accepted
    requires !SomeLoadAbove(AfterDelta(s, e), ops, e.final)
    requires Clean(bids, false) && Clean(asks, false) && id > e.final
    ensures var t := Run(AfterDelta(s, e), ops);
      && !t.snapshotReady && t.lastUpdateId == s.lastUpdateId
      && SnapshotResult(t, bids, asks, id, None).accepted
      && WaitsAt(AfterSnapshot(t, bids, asks, id, nowNs, None), id)
  {
    var closed := AfterDelta(s, e);
    DeltaStatusMeans(s, e);
    InvKept(s, Delta(e));
    BoundaryHoldsUntilNewerSnapshot(closed, ops, e.final);
    assert HeldAt(closed, Run(closed, ops), e.final);
  }
}
