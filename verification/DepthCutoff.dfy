/**
  Snapshots are cut at a depth limit. Which emitted sides are the exchange's
  best levels all the same, by a test on the sample and the last snapshot.
 */
module DepthCutoff {
  import opened Sides
  import opened Options
  import opened PriceIndex
  import opened TopLevels
  import opened BookModel
  import opened BookRuns
  import opened OrderbookState
  import opened OrderbookQuality
  import opened QueuePurge
  import opened ExchangeTruth
  import opened Processor
  import opened Capture

  // ---- The test ----

  ghost function LoadedSides(step: Step): Truth
    requires step.SnapshotArrives?
  {
    Truth(WithLevels(map[], Parsed(step.bids, false)), WithLevels(map[], Parsed(step.asks, false)))
  }

  /** The levels of the last snapshot taken in a run. */
  ghost function LastLoaded(w: Setting, steps: seq<Step>): Truth {
    if steps == [] then Truth(map[], map[])
    else
      var front, step := steps[..|steps| - 1], steps[|steps| - 1];
      if LoadsSnapshot(RunCapture(w, START, front), step) then LoadedSides(step) else LastLoaded(w, front)
  }

  /**
    The emitted side is vouched for: the last snapshot was not cut, or all `n`
    places are filled and the last one is no worse than some snapshot level.
   */
  ghost predicate Vouched(limit: Option<nat>, loaded: Sizes, side: BookSide, n: int, levels: Levels) {
    || limit.None? || |loaded| < limit.value || n <= 0
    || (|levels| == n && exists q :: q in loaded && NoWorse(side, levels[n - 1].0, q))
  }

  predicate NoWorse(side: BookSide, p: real, q: real) {
    p == q || Beats(side, p, q)
  }

  lemma VouchedIsExact(side: BookSide, truth: Sizes, known: Prices, limit: Option<nat>, loaded: Sizes, n: int, levels: Levels)
    requires Covered(side, limit, loaded) <= known
    requires IsBestN(side, Restrict(truth, known), n, levels) && Vouched(limit, loaded, side, n, levels)
    ensures IsBestN(side, truth, n, levels)
  {
    if limit.None? || |loaded| < limit.value {
      forall p ensures p in known {
        assert p in Covered(side, limit, loaded);
      }
      BestOfKnownIsBest(side, truth, known, n, levels);
    } else if n > 0 {
      var q :| q in loaded && NoWorse(side, levels[n - 1].0, q);
      AboveCutoffIsExact(side, truth, known, limit, loaded, q, n, levels);
    }
  }

  // ---- What a ready book covers ----

  ghost predicate Covers(limit: Option<nat>, known: Known, loaded: Truth) {
    Covered(Bid, limit, loaded.bids) <= known.bids && Covered(Ask, limit, loaded.asks) <= known.asks
  }

  ghost predicate CoverageKept(w: Setting, c: CaptureState, loaded: Truth) {
    c.p.book.snapshotReady ==> Covers(w.depthLimit, c.known, loaded)
  }

  lemma ConsumeCovers(w: Setting, c: CaptureState, e: DepthEvent, clockNs: int, lagNs: Option<int>, loaded: Truth)
    requires Inv(c.p.book) && CoverageKept(w, c, loaded)
    ensures CoverageKept(w, Consumed(w, c, e, clockNs, lagNs), loaded)
  {
    ProcessKeepsReadiness(c.p, w.cfg, e, clockNs, lagNs);
  }

  lemma CoverageNext(w: Setting, c: CaptureState, loaded: Truth, step: Step)
    requires Inv(c.p.book) && CoverageKept(w, c, loaded)
    ensures CoverageKept(w, Next(w, c, step), if LoadsSnapshot(c, step) then LoadedSides(step) else loaded)
  {
    match step
    case Consume(clockNs, lagNs) =>
      if c.queue != [] && Relevant(c.queue[0], w.symbol) {
        ConsumeCovers(w, c.(queue := c.queue[1..]), c.queue[0].event, clockNs, lagNs, loaded);
      }
    case _ =>
  }

  lemma {:induction false} CoverageAlways(w: Setting, steps: seq<Step>)
    ensures Inv(RunCapture(w, START, steps).p.book)
    ensures CoverageKept(w, RunCapture(w, START, steps), LastLoaded(w, steps))
  {
    if steps != [] {
      var front, step := steps[..|steps| - 1], steps[|steps| - 1];
      CoverageAlways(w, front);
      InvNext(w, RunCapture(w, START, front), step);
      CoverageNext(w, RunCapture(w, START, front), LastLoaded(w, front), step);
    }
  }

  // ---- Emission ----

  /** The last step of the run emits `sample`. */
  ghost predicate Emits(w: Setting, steps: seq<Step>, sample: CleanSample) {
    && steps != []
    && RunCapture(w, START, steps).p.samples == RunCapture(w, START, steps[..|steps| - 1]).p.samples + [sample]
  }

  function SideLevels(sample: CleanSample, side: BookSide): Levels {
    if side == Bid then sample.bids else sample.asks
  }

  function KnownSide(known: Known, side: BookSide): Prices {
    if side == Bid then known.bids else known.asks
  }

  predicate AtMostOneMore(before: seq<CleanSample>, after: seq<CleanSample>) {
    after == before || (|after| == |before| + 1 && after[..|before|] == before)
  }

  lemma StepEmitsAtMostOne(w: Setting, c: CaptureState, step: Step)
    ensures AtMostOneMore(c.p.samples, Next(w, c, step).p.samples)
  {
    if step.Consume? && c.queue != [] && Relevant(c.queue[0], w.symbol) {
      ProcessSamples(c.p, w.cfg, c.queue[0].event, step.clockNs, step.lagNs);
    }
  }

  /** Every sample of a run was emitted by some step of it. */
  lemma {:induction false} SampleHasItsStep(w: Setting, steps: seq<Step>, i: nat) returns (k: nat)
    requires i < |RunCapture(w, START, steps).p.samples|
    ensures k <= |steps| && Emits(w, steps[..k], RunCapture(w, START, steps).p.samples[i])
  {
    var front := steps[..|steps| - 1];
    StepEmitsAtMostOne(w, RunCapture(w, START, front), steps[|steps| - 1]);
    if i < |RunCapture(w, START, front).p.samples| {
      SameOrLast(RunCapture(w, START, front).p.samples, RunCapture(w, START, steps).p.samples, i);
      k := SampleHasItsStep(w, front, i);
      assert steps[..k] == front[..k];
    } else {
      k := |steps|;
      SameOrLast(RunCapture(w, START, front).p.samples, RunCapture(w, START, steps).p.samples, i);
      assert steps[..k] == steps;
    }
  }

  lemma SameOrLast(before: seq<CleanSample>, after: seq<CleanSample>, i: nat)
    requires AtMostOneMore(before, after) && i < |after|
    ensures if i < |before| then after[i] == before[i] else after == before + [after[i]]
  {
    if i < |before| {
      assert after[..|before|][i] == after[i];
    }
  }

  lemma EmittingStep(w: Setting, c: CaptureState, step: Step)
    requires Inv(c.p.book) && |c.stamps| == |c.p.samples| && Next(w, c, step).p.samples != c.p.samples
    ensures var d := Next(w, c, step); d.p.book.snapshotReady && d.stamps == c.stamps + [d.known]
  {
    SampleNeedsDelta(w, c, step);
    ProcessKeepsReadiness(c.p, w.cfg, c.queue[0].event, step.clockNs, step.lagNs);
  }

  /** The sample shows the best known levels of a side. */
  ghost predicate ShowsKnown(h: History, n: int, sample: CleanSample, side: BookSide, known: Prices) {
    sample.lastUpdateId.Some?
    && IsBestN(side, Restrict(SideOf(h(sample.lastUpdateId.value), side), known), n, SideLevels(sample, side))
  }

  /** The sample's side is the exchange's best `n` levels at the sample's id. */
  ghost predicate ShowsExchange(h: History, n: int, sample: CleanSample, side: BookSide) {
    sample.lastUpdateId.Some? && IsBestN(side, SideOf(h(sample.lastUpdateId.value), side), n, SideLevels(sample, side))
  }

  /** An emitted sample shows the best known levels, and the known prices include the last snapshot's. */
  lemma EmittedIsKnown(h: History, w: Setting, steps: seq<Step>, sample: CleanSample, side: BookSide) returns (known: Known)
    requires Sound(h) && AllHonest(h, w, steps) && Emits(w, steps, sample)
    ensures ShowsKnown(h, w.cfg.depthN, sample, side, KnownSide(known, side))
    ensures Covers(w.depthLimit, known, LastLoaded(w, steps))
  {
    var front := steps[..|steps| - 1];
    var c, d := RunCapture(w, START, front), RunCapture(w, START, steps);
    FaithfulAlways(h, w, front);
    FaithfulAlways(h, w, steps);
    CoverageAlways(w, steps);
    assert d.p.samples[|c.p.samples|] == sample;
    EmittingStep(w, c, steps[|steps| - 1]);
    known := d.known;
    assert SampleTrue(h, w.cfg.depthN, d.p.samples[|c.p.samples|], d.stamps[|c.p.samples|]);
  }

  /**
    Whatever is lost, dropped, repeated, reordered or reset on the way: a side
    that its sample and the last snapshot vouch for is the exchange's.
   */
  lemma {:induction false} VouchedSamplesShowTheExchange(h: History, w: Setting, steps: seq<Step>, sample: CleanSample,
                                                         side: BookSide)
    requires Sound(h) && AllHonest(h, w, steps) && Emits(w, steps, sample)
    requires Vouched(w.depthLimit, SideOf(LastLoaded(w, steps), side), side, w.cfg.depthN, SideLevels(sample, side))
    ensures ShowsExchange(h, w.cfg.depthN, sample, side)
  {
    var known := EmittedIsKnown(h, w, steps, sample, side);
    VouchedIsExact(side, SideOf(h(sample.lastUpdateId.value), side), KnownSide(known, side), w.depthLimit,
                   SideOf(LastLoaded(w, steps), side), w.cfg.depthN, SideLevels(sample, side));
  }

  lemma {:induction false} HonestPrefix(h: History, w: Setting, steps: seq<Step>, k: nat)
    requires AllHonest(h, w, steps) && k <= |steps|
    ensures AllHonest(h, w, steps[..k])
  {}

  /** With snapshots of the whole book, every sample of every run is the exchange's best `n` levels at its id. */
  lemma {:induction false} FullSnapshotsNeverEmitAWrongLevel(h: History, w: Setting, steps: seq<Step>, i: nat, side: BookSide)
    requires Sound(h) && AllHonest(h, w, steps) && w.depthLimit.None?
    requires i < |RunCapture(w, START, steps).p.samples|
    ensures ShowsExchange(h, w.cfg.depthN, RunCapture(w, START, steps).p.samples[i], side)
  {
    var k := SampleHasItsStep(w, steps, i);
    HonestPrefix(h, w, steps, k);
    VouchedSamplesShowTheExchange(h, w, steps[..k], RunCapture(w, START, steps).p.samples[i], side);
  }
}
