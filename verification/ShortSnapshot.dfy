/**
  However deep a snapshot may be, a capture can emit a wrong side: the levels of
  the snapshot all go, and what lay just below them was never told.
 */
module ShortSnapshot {
  import opened Sides
  import opened Options
  import opened PriceIndex
  import opened TopLevels
  import opened BookModel
  import opened BookRuns
  import opened OrderbookState
  import opened OrderbookQuality
  import opened QueuePurge
  import opened ExchangeTruth
  import opened Processor
  import opened Capture
  import opened CounterRuns
  import opened CaptureMeaning
  import opened DepthCutoff
  import opened CutoffIsTight

  // ---- A good delta is emitted ----

  /** An applied delta that leaves a sound book is emitted at once. */
  lemma GoodDeltaIsEmitted(p: ProcessorState, cfg: Config, e: DepthEvent, clockNs: int)
    requires Inv(p.book) && DeltaStatus(p.book, e) == DeltaApplied && AfterDelta(p.book, e).readyToEmit
    requires cfg.depthN >= 1 && cfg.limits.staleAfterNs >= 0 && clockNs <= e.recvNs
    ensures AfterApply(p, cfg, e, clockNs, None).samples == p.samples + [SampleOf(cfg, AfterDelta(p.book, e), e, clockNs)]
  {
    var s := AfterDelta(p.book, e);
    InvKept(p.book, Delta(e));
    NoErrorsIffUncrossed(s);
    GoodIffInTime(cfg, s, e, clockNs, None);
    AcceptedDeltaPassesSchema(cfg, s, e, clockNs, None);
  }

  // ---- The messages ----

  /** `depth` bids from 2 upwards. */
  function BidRows(depth: nat): seq<RawLevel> {
    if depth == 0 then [] else BidRows(depth - 1) + [Row(Finite((depth + 1) as real), Finite(1.0))]
  }

  function BidMap(depth: nat): Sizes {
    if depth == 0 then map[] else BidMap(depth - 1)[(depth + 1) as real := 1.0]
  }

  /** All those bids go. */
  function GoneRows(depth: nat): seq<RawLevel> {
    if depth == 0 then [] else GoneRows(depth - 1) + [Row(Finite((depth + 1) as real), Finite(0.0))]
  }

  function AskRows(depth: nat): seq<RawLevel> {
    [Row(Finite((depth + 3) as real), Finite(1.0))]
  }

  function AskMap(depth: nat): Sizes {
    map[(depth + 3) as real := 1.0]
  }

  const LOW_ROW := Row(Finite(1.0), Finite(1.0))

  /** All bids of the snapshot go, and one comes far below. */
  function Collapse(depth: nat): DepthEvent {
    DepthEvent(11, 11, None, GoneRows(depth) + [LOW_ROW], [], 2)
  }

  function Messages(w: Setting, depth: nat): seq<Step> {
    [SnapshotArrives(BidRows(depth), AskRows(depth), 10, 1), Receive(Depth(w.symbol, Collapse(depth))), Consume(0, None)]
  }

  /** An exchange without a hidden order: it only serves to show that the messages are possible. */
  function Plain(depth: nat): History {
    k => if k <= 10 then Truth(BidMap(depth), AskMap(depth)) else Truth(map[1.0 := 1.0], AskMap(depth))
  }

  // ---- What the messages say ----

  lemma ParsedAppends(rows: seq<RawLevel>, price: real, size: real, allowZero: bool)
    requires price > 0.0 && size >= 0.0 && (allowZero || size > 0.0)
    ensures Parsed(rows + [Row(Finite(price), Finite(size))], allowZero) == Parsed(rows, allowZero) + [Level(price, size)]
    ensures Clean(rows, allowZero) ==> Clean(rows + [Row(Finite(price), Finite(size))], allowZero)
  {
    var row := Row(Finite(price), Finite(size));
    assert RowErrors(row, allowZero) == {};
    assert (rows + [row])[..|rows|] == rows;
  }

  lemma WithLevelsAppends(m: Sizes, levels: seq<Level>, level: Level)
    ensures WithLevels(m, levels + [level]) == WithLevel(WithLevels(m, levels), level)
  {
    assert (levels + [level])[..|levels|] == levels;
  }

  lemma {:induction false} BidMapHolds(depth: nat, p: real)
    ensures |BidMap(depth)| == depth
    ensures p in BidMap(depth) ==> 2.0 <= p <= (depth + 1) as real && BidMap(depth)[p] == 1.0
  {
    if depth > 0 {
      BidMapHolds(depth - 1, p);
      BidMapHolds(depth - 1, (depth + 1) as real);
    }
  }

  lemma {:induction false} BidRowsParse(depth: nat)
    ensures Clean(BidRows(depth), false) && WithLevels(map[], Parsed(BidRows(depth), false)) == BidMap(depth)
  {
    if depth > 0 {
      BidRowsParse(depth - 1);
      RowLoads(BidRows(depth - 1), (depth + 1) as real, 1.0);
    }
  }

  lemma RowLoads(rows: seq<RawLevel>, price: real, size: real)
    requires price > 0.0 && size > 0.0 && Clean(rows, false)
    ensures Clean(rows + [Row(Finite(price), Finite(size))], false)
    ensures WithLevels(map[], Parsed(rows + [Row(Finite(price), Finite(size))], false)) ==
            WithLevels(map[], Parsed(rows, false))[price := size]
  {
    ParsedAppends(rows, price, size, false);
    WithLevelsAppends(map[], Parsed(rows, false), Level(price, size));
  }

  lemma AskRowsParse(depth: nat)
    ensures Clean(AskRows(depth), false) && WithLevels(map[], Parsed(AskRows(depth), false)) == AskMap(depth)
  {
    RowLoads([], (depth + 3) as real, 1.0);
    assert [] + AskRows(depth) == AskRows(depth);
  }

  /** The levels that go are listed with size 0, the others are left out. */
  lemma {:induction false} GoneRowsParse(depth: nat, p: real)
    ensures Clean(GoneRows(depth), true)
    ensures Mentions(Parsed(GoneRows(depth), true), p) <==> p in BidMap(depth)
    ensures forall i :: 0 <= i < |Parsed(GoneRows(depth), true)| ==>
      Parsed(GoneRows(depth), true)[i].size == 0.0 && Parsed(GoneRows(depth), true)[i].price >= 2.0
  {
    if depth > 0 {
      var before, level := Parsed(GoneRows(depth - 1), true), Level((depth + 1) as real, 0.0);
      GoneRowsParse(depth - 1, p);
      ParsedAppends(GoneRows(depth - 1), (depth + 1) as real, 0.0, true);
      MentionsAppends(before, level, p);
    }
  }

  lemma MentionsAppends(levels: seq<Level>, level: Level, p: real)
    ensures Mentions(levels + [level], p) <==> Mentions(levels, p) || p == level.price
  {
    assert (levels + [level])[|levels|] == level;
    forall i | 0 <= i < |levels| ensures (levels + [level])[i] == levels[i] {}
    if Mentions(levels, p) {
      var i :| 0 <= i < |levels| && levels[i].price == p;
      assert (levels + [level])[i].price == p;
    }
  }

  lemma {:induction false} ZeroLevelsRemove(m: Sizes, levels: seq<Level>, p: real)
    requires forall i :: 0 <= i < |levels| ==> levels[i].size == 0.0
    ensures p in WithLevels(m, levels) <==> p in m && !Mentions(levels, p)
  {
    if levels != [] {
      var front, last := levels[..|levels| - 1], levels[|levels| - 1];
      ZeroLevelsRemove(m, front, p);
      assert levels == front + [last];
      MentionsAppends(front, last, p);
    }
  }

  lemma CollapseParses(depth: nat)
    ensures CleanEvent(Collapse(depth))
    ensures Parsed(Collapse(depth).bids, true) == Parsed(GoneRows(depth), true) + [Level(1.0, 1.0)]
    ensures Parsed(Collapse(depth).asks, true) == []
  {
    GoneRowsParse(depth, 1.0);
    ParsedAppends(GoneRows(depth), 1.0, 1.0, true);
  }

  /** After the delta one bid is left. */
  lemma OneBidLeft(depth: nat)
    ensures WithLevels(BidMap(depth), Parsed(Collapse(depth).bids, true)) == map[1.0 := 1.0]
  {
    var gone := Parsed(GoneRows(depth), true);
    CollapseParses(depth);
    WithLevelsAppends(BidMap(depth), gone, Level(1.0, 1.0));
    forall p ensures p !in WithLevels(BidMap(depth), gone) {
      GoneRowsParse(depth, p);
      ZeroLevelsRemove(BidMap(depth), gone, p);
    }
    var rest := WithLevels(BidMap(depth), gone);
    forall p ensures p in rest[1.0 := 1.0] <==> p in map[1.0 := 1.0] {}
  }

  // ---- They are honest ----

  lemma CollapseIsHonest(depth: nat)
    ensures HonestEvent(Plain(depth), Collapse(depth))
  {
    var h, levels, gone := Plain(depth), Parsed(Collapse(depth).bids, true), Parsed(GoneRows(depth), true);
    CollapseParses(depth);
    GoneRowsParse(depth, 1.0);
    forall i | 0 <= i < |levels| ensures levels[i].size == SizeAt(h(11).bids, levels[i].price) {}
    forall p, k | 10 <= k <= 11 && !Mentions(levels, p) ensures SizeAt(h(k).bids, p) == SizeAt(h(11).bids, p) {
      GoneRowsParse(depth, p);
      MentionsAppends(gone, Level(1.0, 1.0), p);
    }
    assert HonestLevels(h, Ask, 11, 11, []);
  }

  lemma PlainIsSound(depth: nat)
    ensures Sound(Plain(depth))
  {
    forall p ensures p in BidMap(depth) ==> p > 0.0 && BidMap(depth)[p] > 0.0 {
      BidMapHolds(depth, p);
    }
    assert Positive(BidMap(depth)) && Positive(AskMap(depth));
  }

  lemma SnapshotIsHonest(depth: nat, limit: Option<nat>)
    ensures HonestSnapshot(Plain(depth), limit, BidRows(depth), AskRows(depth), 10)
  {
    BidRowsParse(depth);
    AskRowsParse(depth);
  }

  lemma MessagesAreHonest(w: Setting, depth: nat)
    ensures AllHonest(Plain(depth), w, Messages(w, depth))
  {
    SnapshotIsHonest(depth, w.depthLimit);
    CollapseIsHonest(depth);
    forall i | 0 <= i < 3 ensures HonestStep(Plain(depth), w, Messages(w, depth)[i]) {}
  }

  // ---- The capture ----

  ghost function LoadedBook(depth: nat): BookState {
    Loaded(FRESH, BidRows(depth), AskRows(depth), 10, 1)
  }

  lemma SnapshotTaken(w: Setting, depth: nat)
    ensures var c := RunCapture(w, START, Messages(w, depth)[..1]);
      && c.p.book == LoadedBook(depth) && c.queue == [] && c.p.samples == [] && c.p.openStale.None? && !c.p.recoveryActive
    ensures LoadsSnapshot(START, Messages(w, depth)[0])
  {
    var steps := Messages(w, depth);
    BidRowsParse(depth);
    AskRowsParse(depth);
    assert steps[..1][..0] == [];
    assert RunCapture(w, START, steps[..1]) == Next(w, START, steps[0]);
  }

  lemma EventQueued(w: Setting, depth: nat)
    requires w.queueMax >= 1
    ensures var c := RunCapture(w, START, Messages(w, depth)[..2]);
      && c.p == RunCapture(w, START, Messages(w, depth)[..1]).p && c.queue == [Depth(w.symbol, Collapse(depth))]
  {
    var steps := Messages(w, depth);
    SnapshotTaken(w, depth);
    assert steps[..2][..1] == steps[..1];
  }

  lemma CollapseIsTaken(depth: nat)
    ensures Inv(LoadedBook(depth)) && DeltaStatus(LoadedBook(depth), Collapse(depth)) == DeltaApplied
    ensures var s := AfterDelta(LoadedBook(depth), Collapse(depth));
      s.bids == map[1.0 := 1.0] && s.asks == AskMap(depth) && s.readyToEmit
  {
    BidRowsParse(depth);
    AskRowsParse(depth);
    CollapseParses(depth);
    OneBidLeft(depth);
    assert Inv(FRESH);
    InvKept(FRESH, Snapshot(BidRows(depth), AskRows(depth), 10, 1, None));
    assert AfterSnapshot(FRESH, BidRows(depth), AskRows(depth), 10, 1, None) == LoadedBook(depth);
    OneEachIsSound((depth + 3) as real);
  }

  lemma OneEachIsSound(ask: real)
    requires ask > 1.0
    ensures BookErrors(map[1.0 := 1.0], map[ask := 1.0]) == {}
  {
    var bids, asks := map[1.0 := 1.0], map[ask := 1.0];
    assert 1.0 in bids && ask in asks;
    assert |bids| != 0 && |asks| != 0 by { assert bids.Keys == {1.0} && asks.Keys == {ask}; }
    forall code ensures !HasBookError(bids, asks, code) {}
  }

  ghost function WrongSample(w: Setting, depth: nat): CleanSample {
    SampleOf(w.cfg, AfterDelta(LoadedBook(depth), Collapse(depth)), Collapse(depth), 0)
  }

  ghost predicate Ordinary(w: Setting) {
    w.cfg.depthN >= 1 && w.queueMax >= 1 && w.cfg.feedStaleNs >= 0 && w.cfg.limits.staleAfterNs >= 0
  }

  lemma CollapseIsEmitted(p: ProcessorState, cfg: Config, depth: nat)
    requires p.book == LoadedBook(depth) && p.samples == [] && p.openStale.None? && !p.recoveryActive
    requires cfg.depthN >= 1 && cfg.feedStaleNs >= 0 && cfg.limits.staleAfterNs >= 0
    ensures AfterProcess(p, cfg, Collapse(depth), 0, None).samples ==
            [SampleOf(cfg, AfterDelta(LoadedBook(depth), Collapse(depth)), Collapse(depth), 0)]
  {
    var e := Collapse(depth);
    CollapseIsTaken(depth);
    var mid := AfterStaleCheck(Noted(p, e), cfg, e.recvNs, true, 0);
    assert mid.book == p.book && mid.samples == [];
    GoodDeltaIsEmitted(mid, cfg, e, 0);
  }

  lemma OnlyEventConsumed(w: Setting, c: CaptureState, e: DepthEvent)
    requires c.queue == [Depth(w.symbol, e)]
    ensures Next(w, c, Consume(0, None)).p.samples == AfterProcess(c.p, w.cfg, e, 0, None).samples
  {
    assert Relevant(c.queue[0], w.symbol);
  }

  lemma LastOfThree(w: Setting, depth: nat)
    ensures RunCapture(w, START, Messages(w, depth)) ==
            Next(w, RunCapture(w, START, Messages(w, depth)[..2]), Consume(0, None))
  {
    assert Messages(w, depth)[..|Messages(w, depth)| - 1] == Messages(w, depth)[..2];
  }

  lemma WrongSampleIsEmitted(w: Setting, depth: nat)
    requires Ordinary(w)
    ensures Emits(w, Messages(w, depth), WrongSample(w, depth))
  {
    var c := RunCapture(w, START, Messages(w, depth)[..2]);
    SnapshotTaken(w, depth);
    EventQueued(w, depth);
    LastOfThree(w, depth);
    OnlyEventConsumed(w, c, Collapse(depth));
    CollapseIsEmitted(c.p, w.cfg, depth);
  }

  lemma LoadedHere(w: Setting, depth: nat)
    ensures LoadedSides(Messages(w, depth)[0]) == Truth(BidMap(depth), AskMap(depth))
  {
    BidRowsParse(depth);
    AskRowsParse(depth);
  }

  lemma LastLoadedHere(w: Setting, depth: nat)
    ensures LastLoaded(w, Messages(w, depth)) == Truth(BidMap(depth), AskMap(depth))
  {
    var steps := Messages(w, depth);
    SnapshotTaken(w, depth);
    LoadedHere(w, depth);
    assert steps[..2][..1] == steps[..1] && steps[..1][..0] == [];
    assert LastLoaded(w, steps[..1]) == LoadedSides(steps[0]);
    assert LastLoaded(w, steps[..2]) == LastLoaded(w, steps[..1]);
  }

  /** The one bid shown is worse than every level of the snapshot, which is as long as its limit. */
  lemma WrongSampleIsNotVouched(w: Setting, depth: nat)
    requires Ordinary(w) && w.depthLimit == Some(depth)
    ensures !Vouched(w.depthLimit, BidMap(depth), Bid, w.cfg.depthN, WrongSample(w, depth).bids)
  {
    var levels := WrongSample(w, depth).bids;
    CollapseIsTaken(depth);
    assert |map[1.0 := 1.0]| == 1 by { assert map[1.0 := 1.0].Keys == {1.0}; }
    assert IsBestN(Bid, map[1.0 := 1.0], w.cfg.depthN, levels);
    assert levels[0].0 in map[1.0 := 1.0];
    BidMapHolds(depth, 1.0);
    forall q ensures q in BidMap(depth) ==> !NoWorse(Bid, 1.0, q) {
      BidMapHolds(depth, q);
    }
  }

  lemma SnapshotNotDeeper(w: Setting, depth: nat)
    ensures NotDeeper(w, Messages(w, depth)[0], Bid, BidMap(depth))
  {
    LoadedHere(w, depth);
    assert SideOf(LoadedSides(Messages(w, depth)[0]), Bid) == BidMap(depth);
  }

  lemma OneSnapshotOnly(w: Setting, depth: nat)
    ensures NoneDeeper(w, Messages(w, depth), Bid, BidMap(depth))
  {
    var steps := Messages(w, depth);
    SnapshotNotDeeper(w, depth);
    forall i | 0 <= i < |steps| ensures NotDeeper(w, steps[i], Bid, BidMap(depth)) {
      if i > 0 { assert !steps[i].SnapshotArrives?; }
    }
  }

  /**
    For every depth limit and every number of levels, some exchange and some
    capture of its honest messages emit a sample whose bids are not the
    exchange's best.
   */
  lemma {:induction false} EveryLimitCanMislead(w: Setting) returns (h: History, steps: seq<Step>, sample: CleanSample)
    requires Ordinary(w) && w.depthLimit.Some?
    ensures Sound(h) && AllHonest(h, w, steps) && Emits(w, steps, sample)
    ensures !ShowsExchange(h, w.cfg.depthN, sample, Bid)
  {
    var depth := w.depthLimit.value;
    steps, sample := Messages(w, depth), WrongSample(w, depth);
    PlainIsSound(depth);
    MessagesAreHonest(w, depth);
    WrongSampleIsEmitted(w, depth);
    LastLoadedHere(w, depth);
    WrongSampleIsNotVouched(w, depth);
    OneSnapshotOnly(w, depth);
    h := UnvouchedCanBeWrong(Plain(depth), w, steps, sample, Bid);
  }
}
