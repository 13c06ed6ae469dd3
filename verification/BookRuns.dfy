/**
  Every run of one book: what each snapshot, delta, reset or cleanup keeps, and
  what a detected gap forbids until it is repaired.
 */
module BookRuns {
  import opened Options
  import opened PriceIndex
  import opened BookModel
  import OrderbookState

  /** One call on the book. `Reset` is a stale feed, a reconnect or a missing bridge: no boundary is set. */
  datatype BookOp =
    | Snapshot(bids: seq<RawLevel>, asks: seq<RawLevel>, id: int, nowNs: int, generation: Option<int>)
    | Delta(event: DepthEvent)
    | Reset(advanceGeneration: bool)
    | MarkReady
    | Cleanup

  ghost function Apply(s: BookState, op: BookOp): BookState {
    match op
    case Snapshot(bids, asks, id, nowNs, generation) => AfterSnapshot(s, bids, asks, id, nowNs, generation)
    case Delta(e) => AfterDelta(s, e)
    case Reset(advance) => WithNotReady(s, advance, None)
    case MarkReady => WithReadyRefreshed(s)
    case Cleanup => Cleaned(s)
  }

  ghost function Run(s: BookState, ops: seq<BookOp>): BookState {
    if ops == [] then s else Apply(Run(s, ops[..|ops| - 1]), ops[|ops| - 1])
  }

  /** What holds of a book in every state it can reach. */
  ghost predicate Inv(s: BookState) {
    && Positive(s.bids) && Positive(s.asks)
    && s.readyToEmit == MayEmit(s)
    && (s.snapshotReady ==> s.awaitingBridge != s.sequenceContinuous && s.lastUpdateId.Some?)
    && (!s.snapshotReady ==> !s.awaitingBridge && !s.sequenceContinuous)
    && (s.awaitingBridge ==> s.lastUpdateId == s.snapshotLastUpdateId)
    && (s.gapBoundary.Some? ==>
          !s.snapshotReady && s.lastUpdateId.Some? && s.gapBoundary.value > s.lastUpdateId.value)
  }

  lemma InvKept(s: BookState, op: BookOp)
    requires Inv(s)
    ensures Inv(Apply(s, op))
  {
    match op
    case Snapshot(bids, asks, id, nowNs, generation) =>
      if SnapshotStatus(s, bids, asks, id, generation) == SnapshotLoaded {
        OrderbookState.LevelsStayPositive(map[], bids, false);
        OrderbookState.LevelsStayPositive(map[], asks, false);
      }
    case Delta(e) =>
      if DeltaStatus(s, e) == DeltaApplied {
        OrderbookState.LevelsStayPositive(s.bids, e.bids, true);
        OrderbookState.LevelsStayPositive(s.asks, e.asks, true);
      }
    case _ =>
  }

  lemma {:induction false} InvAlways(ops: seq<BookOp>)
    ensures Inv(Run(FRESH, ops))
  {
    if ops != [] {
      InvAlways(ops[..|ops| - 1]);
      InvKept(Run(FRESH, ops[..|ops| - 1]), ops[|ops| - 1]);
    }
  }

  /** The cached gate is the formula itself in every reachable state, so asking again changes nothing. */
  lemma MarkReadyChangesNothing(ops: seq<BookOp>)
    ensures Apply(Run(FRESH, ops), MarkReady) == Run(FRESH, ops)
  {
    InvAlways(ops);
  }

  /**
    A delta is taken exactly when its range reaches the next id of a ready book:
    it may overlap only as the bridge after a snapshot, and must start at the
    next id once live.
   */
  lemma DeltaAcceptedIff(s: BookState, e: DepthEvent)
    requires Inv(s)
    ensures DeltaStatus(s, e) == DeltaApplied <==>
      && s.snapshotReady
      && e.first <= s.lastUpdateId.value + 1 <= e.final
      && (s.sequenceContinuous ==> e.first == s.lastUpdateId.value + 1)
      && (e.prevFinal.Some? ==> e.prevFinal.value == s.lastUpdateId.value)
      && CleanEvent(e)
  {}

  /** Accepting moves the id forward; rejecting leaves the levels, the id and the version alone. */
  lemma DeltaMovesForwardOrNotAtAll(s: BookState, e: DepthEvent)
    requires Inv(s)
    ensures var t := AfterDelta(s, e);
      if DeltaStatus(s, e) == DeltaApplied
      then t.lastUpdateId == Some(e.final) && e.final > s.lastUpdateId.value && t.snapshotReady && t.sequenceContinuous
           && t.stateVersion == s.stateVersion + 1 && t.generation == s.generation
      else t.bids == s.bids && t.asks == s.asks && t.lastUpdateId == s.lastUpdateId && t.stateVersion == s.stateVersion
  {}

  ghost predicate LoadsAbove(s: BookState, op: BookOp, boundary: int) {
    op.Snapshot? && SnapshotStatus(s, op.bids, op.asks, op.id, op.generation) == SnapshotLoaded && op.id > boundary
  }

  ghost predicate SomeLoadAbove(s: BookState, ops: seq<BookOp>, boundary: int) {
    exists i :: 0 <= i < |ops| && LoadsAbove(Run(s, ops[..i]), ops[i], boundary)
  }

  /** The book still stands closed at `s`'s id, waiting for a snapshot above `b`. */
  ghost predicate HeldAt(s: BookState, t: BookState, b: int) {
    t.gapBoundary == Some(b) && !t.snapshotReady && t.lastUpdateId == s.lastUpdateId && t.stateVersion == s.stateVersion
  }

  lemma HeldNext(s: BookState, t: BookState, op: BookOp, b: int)
    requires HeldAt(s, t, b) && !LoadsAbove(t, op, b)
    ensures HeldAt(s, Apply(t, op), b)
  {}

  lemma LoadedEarlier(s: BookState, ops: seq<BookOp>, boundary: int)
    requires ops != []
    ensures SomeLoadAbove(s, ops, boundary) <==>
      SomeLoadAbove(s, ops[..|ops| - 1], boundary) || LoadsAbove(Run(s, ops[..|ops| - 1]), ops[|ops| - 1], boundary)
  {
    var front := ops[..|ops| - 1];
    assert ops[..|front|] == front;
    forall i | 0 <= i < |front| ensures ops[..i] == front[..i] && ops[i] == front[i] {}
    if SomeLoadAbove(s, front, boundary) {
      var i :| 0 <= i < |front| && LoadsAbove(Run(s, front[..i]), front[i], boundary);
      assert LoadsAbove(Run(s, ops[..i]), ops[i], boundary);
    }
    if LoadsAbove(Run(s, front), ops[|front|], boundary) {
      assert LoadsAbove(Run(s, ops[..|front|]), ops[|front|], boundary);
    }
  }

  /**
    After a rejection set the boundary `b`, whatever follows leaves the book
    closed at its old id until a snapshot above `b` is taken.
   */
  lemma {:induction false} BoundaryHoldsUntilNewerSnapshot(s: BookState, ops: seq<BookOp>, b: int)
    requires Inv(s) && s.gapBoundary == Some(b)
    ensures SomeLoadAbove(s, ops, b) || HeldAt(s, Run(s, ops), b)
  {
    if ops != [] {
      var front, last := ops[..|ops| - 1], ops[|ops| - 1];
      BoundaryHoldsUntilNewerSnapshot(s, front, b);
      LoadedEarlier(s, ops, b);
      if HeldAt(s, Run(s, front), b) && !LoadsAbove(Run(s, front), last, b) {
        HeldNext(s, Run(s, front), last, b);
      }
    }
  }

  /** Every fail-closed rejection of a ready book sets a boundary past the id it stands at. */
  lemma RejectionSetsBoundary(s: BookState, e: DepthEvent)
    requires Inv(s)
    ensures DeltaStatus(s, e) in {PreviousIdMismatch, BridgeFailed, SequenceGap, InvalidDeltaLevels} <==>
            AfterDelta(s, e).gapBoundary == Some(e.final) && s.snapshotReady
    ensures DeltaStatus(s, e) in {PreviousIdMismatch, BridgeFailed, SequenceGap, InvalidDeltaLevels} ==>
            e.final > s.lastUpdateId.value && !AfterDelta(s, e).snapshotReady
  {}

  // ---- When the id steps back ----

  /** A clean snapshot of an older id, of the generation asked for, on a book that no gap holds. */
  ghost predicate TakesOlder(s: BookState, op: BookOp) {
    && op.Snapshot? && Clean(op.bids, false) && Clean(op.asks, false)
    && (op.generation.Some? ==> op.generation.value == s.generation)
    && s.gapBoundary.None?
    && s.lastUpdateId.Some? && op.id < s.lastUpdateId.value
  }

  ghost predicate IdBelow(t: BookState, s: BookState) {
    s.lastUpdateId.Some? && (t.lastUpdateId.None? || t.lastUpdateId.value < s.lastUpdateId.value)
  }

  /** In a reachable state nothing but an older snapshot moves the id back, and one always does unless a gap holds it off. */
  lemma {:induction false} IdStepsBackIff(s: BookState, op: BookOp)
    requires Inv(s)
    ensures IdBelow(Apply(s, op), s) <==> TakesOlder(s, op)
  {
    if op.Delta? { DeltaMovesForwardOrNotAtAll(s, op.event); }
  }

  ghost predicate SomeTakesOlder(ops: seq<BookOp>) {
    exists i :: 0 <= i < |ops| && TakesOlder(Run(FRESH, ops[..i]), ops[i])
  }

  /** The ids of a run, step after step, never fall. */
  ghost predicate NeverFalls(ops: seq<BookOp>) {
    forall i :: 0 <= i < |ops| ==> !IdBelow(Run(FRESH, ops[..i + 1]), Run(FRESH, ops[..i]))
  }

  /** Over a whole run the id falls somewhere exactly when an older snapshot is taken somewhere. */
  lemma {:induction false} RunNeverFallsIff(ops: seq<BookOp>)
    ensures NeverFalls(ops) <==> !SomeTakesOlder(ops)
  {
    forall i | 0 <= i < |ops|
      ensures IdBelow(Run(FRESH, ops[..i + 1]), Run(FRESH, ops[..i])) <==> TakesOlder(Run(FRESH, ops[..i]), ops[i]) {
      InvAlways(ops[..i]);
      IdStepsBackIff(Run(FRESH, ops[..i]), ops[i]);
      assert ops[..i + 1][..i] == ops[..i];
    }
    if SomeTakesOlder(ops) {
      var i :| 0 <= i < |ops| && TakesOlder(Run(FRESH, ops[..i]), ops[i]);
      assert IdBelow(Run(FRESH, ops[..i + 1]), Run(FRESH, ops[..i]));
    }
  }

  /** A run in which it falls: a reset sets no boundary, and then an older snapshot is taken. */
  lemma ResetAllowsOlderSnapshot() returns (ops: seq<BookOp>)
    ensures |ops| == 3 && Run(FRESH, ops[..1]).lastUpdateId == Some(10)
    ensures Run(FRESH, ops).lastUpdateId == Some(5) && Run(FRESH, ops).snapshotReady
  {
    var newer := Snapshot([], [], 10, 1, None);
    var older := Snapshot([], [], 5, 2, None);
    ops := [newer, Reset(true), older];
    assert ops[..2][..1] == ops[..1] && ops[..1][..0] == [];
    assert Clean([], false);
    assert Run(FRESH, ops[..0]) == FRESH;
    assert Run(FRESH, ops[..1]) == Apply(FRESH, newer);
    assert Run(FRESH, ops[..2]) == Apply(Run(FRESH, ops[..1]), Reset(true));
  }
}
