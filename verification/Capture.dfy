/**
  A whole capture: a reader that fills a bounded queue and drops when it is
  full, a consumer that works it off, silent feeds, reconnects, and snapshots
  that arrive at any id and trim the queue. Steps interleave in any order.
 */
module Capture {
  import opened Sides
  import opened Options
  import opened TopLevels
  import opened BookModel
  import opened BookRuns
  import opened OrderbookQuality
  import opened QueuePurge
  import opened ExchangeTruth
  import opened Processor

  datatype Setting = Setting(cfg: Config, symbol: string, queueMax: nat, depthLimit: Option<nat>)

  /** `known` and `stamps` are the proof's: what the book can speak for now, and could at each sample. */
  datatype CaptureState = CaptureState(
    p: ProcessorState,
    queue: seq<Envelope>,
    drops: nat,
    known: Known,
    stamps: seq<Known>)

  datatype Step =
    | Receive(envelope: Envelope)
    | Consume(clockNs: int, lagNs: Option<int>)
    | TimedOut(nowNs: int)
    | RequestSnapshot
    | SnapshotArrives(bids: seq<RawLevel>, asks: seq<RawLevel>, id: int, nowNs: int)
    | Reconnect

  ghost const START := CaptureState(IDLE, [], 0, NOTHING_KNOWN, [])

  ghost function Checked(w: Setting, p: ProcessorState, e: DepthEvent): ProcessorState {
    AfterStaleCheck(Noted(p, e), w.cfg, e.recvNs, true, 0)
  }

  ghost function Consumed(w: Setting, c: CaptureState, e: DepthEvent, clockNs: int, lagNs: Option<int>): CaptureState {
    var p := AfterProcess(c.p, w.cfg, e, clockNs, lagNs);
    var known := KnownAfterDelta(c.known, Checked(w, c.p, e).book, e);
    c.(p := p, queue := c.queue, known := known,
       stamps := if |p.samples| > |c.p.samples| then c.stamps + [known] else c.stamps)
  }

  ghost function Reloaded(w: Setting, c: CaptureState, bids: seq<RawLevel>, asks: seq<RawLevel>, id: int, nowNs: int): CaptureState {
    var loaded := AfterLoad(c.p, bids, asks, id, nowNs, None);
    var p := if BridgeMissing(Events(c.queue, w.symbol), id) then AfterBridgeMissing(loaded) else loaded;
    c.(p := p.(recoveryActive := false),
       queue := Preserved(c.queue, id, w.symbol, false),
       known := KnownAfterSnapshot(c.known, c.p.book, w.depthLimit, bids, asks, id, None))
  }

  ghost function Next(w: Setting, c: CaptureState, step: Step): CaptureState {
    match step
    case Receive(v) => if |c.queue| < w.queueMax then c.(queue := c.queue + [v]) else c.(drops := c.drops + 1)
    case Consume(clockNs, lagNs) =>
      if c.queue == [] then c
      else
        var rest := c.(queue := c.queue[1..]);
        if Relevant(c.queue[0], w.symbol) then Consumed(w, rest, c.queue[0].event, clockNs, lagNs) else rest
    case TimedOut(nowNs) => c.(p := AfterStaleCheck(c.p, w.cfg, nowNs, true, |c.queue|))
    case RequestSnapshot => c.(p := c.p.(recoveryActive := true))
    case SnapshotArrives(bids, asks, id, nowNs) => Reloaded(w, c, bids, asks, id, nowNs)
    case Reconnect => c.(p := AfterReconnect(c.p))
  }

  ghost function RunCapture(w: Setting, c: CaptureState, steps: seq<Step>): CaptureState {
    if steps == [] then c else Next(w, RunCapture(w, c, steps[..|steps| - 1]), steps[|steps| - 1])
  }

  // ---- The book under the capture ----

  lemma StaleCheckKeepsInv(p: ProcessorState, cfg: Config, nowNs: int, feedActive: bool, queueSize: nat)
    requires Inv(p.book)
    ensures Inv(AfterStaleCheck(p, cfg, nowNs, feedActive, queueSize).book)
  {
    InvKept(p.book, Reset(true));
  }

  /** A delta handled by the processor meets the book as it is, or freshly closed by a stale feed. */
  lemma ProcessBook(p: ProcessorState, cfg: Config, e: DepthEvent, clockNs: int, lagNs: Option<int>)
    ensures AfterProcess(p, cfg, e, clockNs, lagNs).book == AfterDelta(AfterStaleCheck(Noted(p, e), cfg, e.recvNs, true, 0).book, e)
  {}

  lemma InvNext(w: Setting, c: CaptureState, step: Step)
    requires Inv(c.p.book)
    ensures Inv(Next(w, c, step).p.book)
  {
    match step
    case Consume(clockNs, lagNs) =>
      if c.queue != [] && Relevant(c.queue[0], w.symbol) {
        var e := c.queue[0].event;
        StaleCheckKeepsInv(Noted(c.p, e), w.cfg, e.recvNs, true, 0);
        ProcessBook(c.p, w.cfg, e, clockNs, lagNs);
        InvKept(Checked(w, c.p, e).book, Delta(e));
      }
    case TimedOut(nowNs) =>
      StaleCheckKeepsInv(c.p, w.cfg, nowNs, true, |c.queue|);
    case SnapshotArrives(bids, asks, id, nowNs) =>
      InvKept(c.p.book, Snapshot(bids, asks, id, nowNs, None));
      InvKept(AfterLoad(c.p, bids, asks, id, nowNs, None).book, Reset(true));
    case Reconnect =>
      InvKept(c.p.book, Reset(true));
    case _ =>
  }

  // ---- Honest inputs ----

  ghost predicate HonestStep(h: History, w: Setting, step: Step) {
    match step
    case Receive(v) => Relevant(v, w.symbol) ==> HonestEvent(h, v.event)
    case SnapshotArrives(bids, asks, id, nowNs) => HonestSnapshot(h, w.depthLimit, bids, asks, id)
    case _ => true
  }

  ghost predicate HonestQueue(h: History, symbol: string, q: seq<Envelope>) {
    forall v :: v in q && Relevant(v, symbol) ==> HonestEvent(h, v.event)
  }

  lemma {:induction false} PreservedIsPart(q: seq<Envelope>, id: int, symbol: string, found: bool, v: Envelope)
    ensures v in Preserved(q, id, symbol, found) ==> v in q
    ensures |Preserved(q, id, symbol, found)| <= |q|
  {
    if q != [] {
      PreservedIsPart(q[1..], id, symbol, found, v);
      PreservedIsPart(q[1..], id, symbol, true, v);
    }
  }

  /** The sample's levels are the best `n` of what the capture could know of the exchange's book at the sample's id. */
  ghost predicate SampleTrue(h: History, n: int, sample: CleanSample, known: Known) {
    && sample.lastUpdateId.Some?
    && IsBestN(Bid, Restrict(h(sample.lastUpdateId.value).bids, known.bids), n, sample.bids)
    && IsBestN(Ask, Restrict(h(sample.lastUpdateId.value).asks, known.asks), n, sample.asks)
  }

  ghost predicate SamplesTrue(h: History, n: int, samples: seq<CleanSample>, stamps: seq<Known>) {
    |stamps| == |samples| && forall i :: 0 <= i < |samples| ==> SampleTrue(h, n, samples[i], stamps[i])
  }

  ghost predicate Faithful(h: History, w: Setting, c: CaptureState) {
    && Inv(c.p.book)
    && BookTrue(h, c.p.book, c.known)
    && HonestQueue(h, w.symbol, c.queue)
    && SamplesTrue(h, w.cfg.depthN, c.p.samples, c.stamps)
  }

  lemma VerdictSamples(p: ProcessorState, cfg: Config, e: DepthEvent, clockNs: int, lagNs: Option<int>)
    ensures var q := AfterVerdict(p, cfg, e, clockNs, lagNs);
      || q.samples == p.samples
      || (q.samples == p.samples + [SampleOf(cfg, p.book, e, clockNs)] && p.book.readyToEmit && p.book.snapshotReady)
  {
    if VerdictOn(cfg, p.book, e, clockNs, lagNs) == Emit {
      assert !Flawed(cfg, p.book, e, clockNs, lagNs, SampleBeforeBookReady);
    }
  }

  lemma ProcessSamples(p: ProcessorState, cfg: Config, e: DepthEvent, clockNs: int, lagNs: Option<int>)
    ensures var q := AfterProcess(p, cfg, e, clockNs, lagNs);
      || q.samples == p.samples
      || (q.samples == p.samples + [SampleOf(cfg, q.book, e, clockNs)] && q.book.readyToEmit && q.book.snapshotReady
          && DeltaStatus(AfterStaleCheck(Noted(p, e), cfg, e.recvNs, true, 0).book, e) == DeltaApplied)
  {
    var mid := AfterStaleCheck(Noted(p, e), cfg, e.recvNs, true, 0);
    assert mid.samples == p.samples;
    if DeltaStatus(mid.book, e) == DeltaApplied {
      VerdictSamples(WithAcceptance(mid.(book := AfterDelta(mid.book, e))), cfg, e, clockNs, lagNs);
    }
  }

  lemma ConsumeFaithful(h: History, w: Setting, c: CaptureState, e: DepthEvent, clockNs: int, lagNs: Option<int>)
    requires Sound(h) && Faithful(h, w, c) && HonestEvent(h, e)
    ensures Faithful(h, w, Consumed(w, c, e, clockNs, lagNs))
  {
    var mid := Checked(w, c.p, e);
    StaleCheckKeepsInv(Noted(c.p, e), w.cfg, e.recvNs, true, 0);
    assert BookTrue(h, mid.book, c.known);
    ProcessBook(c.p, w.cfg, e, clockNs, lagNs);
    InvKept(mid.book, Delta(e));
    TrueAfterDelta(h, mid.book, c.known, e);
    ProcessSamples(c.p, w.cfg, e, clockNs, lagNs);
    var d := Consumed(w, c, e, clockNs, lagNs);
    if d.p.samples != c.p.samples {
      var snap := SnapshotOf(d.p.book, w.cfg.depthN);
      ReadyBookShowsTruth(h, d.p.book, d.known, w.cfg.depthN, snap.bidsTopN, snap.asksTopN);
      assert SampleTrue(h, w.cfg.depthN, SampleOf(w.cfg, d.p.book, e, clockNs), d.known);
    }
  }

  lemma ReloadFaithful(h: History, w: Setting, c: CaptureState, bids: seq<RawLevel>, asks: seq<RawLevel>, id: int, nowNs: int)
    requires Faithful(h, w, c) && HonestSnapshot(h, w.depthLimit, bids, asks, id)
    ensures Faithful(h, w, Reloaded(w, c, bids, asks, id, nowNs))
  {
    InvNext(w, c, SnapshotArrives(bids, asks, id, nowNs));
    TrueAfterSnapshot(h, c.p.book, c.known, w.depthLimit, bids, asks, id, nowNs, None);
    forall v | v in Preserved(c.queue, id, w.symbol, false) && Relevant(v, w.symbol) ensures HonestEvent(h, v.event) {
      PreservedIsPart(c.queue, id, w.symbol, false, v);
    }
  }

  lemma FaithfulNext(h: History, w: Setting, c: CaptureState, step: Step)
    requires Sound(h) && Faithful(h, w, c) && HonestStep(h, w, step)
    ensures Faithful(h, w, Next(w, c, step))
  {
    InvNext(w, c, step);
    match step
    case Consume(clockNs, lagNs) =>
      if c.queue != [] {
        var rest := c.(queue := c.queue[1..]);
        assert Faithful(h, w, rest);
        if Relevant(c.queue[0], w.symbol) {
          assert c.queue[0] in c.queue;
          ConsumeFaithful(h, w, rest, c.queue[0].event, clockNs, lagNs);
        }
      }
    case SnapshotArrives(bids, asks, id, nowNs) =>
      ReloadFaithful(h, w, c, bids, asks, id, nowNs);
    case _ =>
  }

  ghost predicate AllHonest(h: History, w: Setting, steps: seq<Step>) {
    forall i :: 0 <= i < |steps| ==> HonestStep(h, w, steps[i])
  }

  lemma {:induction false} FaithfulAlways(h: History, w: Setting, steps: seq<Step>)
    requires Sound(h) && AllHonest(h, w, steps)
    ensures Faithful(h, w, RunCapture(w, START, steps))
  {
    if steps != [] {
      FaithfulAlways(h, w, steps[..|steps| - 1]);
      FaithfulNext(h, w, RunCapture(w, START, steps[..|steps| - 1]), steps[|steps| - 1]);
    }
  }

  lemma ProcessKeepsReadiness(p: ProcessorState, cfg: Config, e: DepthEvent, clockNs: int, lagNs: Option<int>)
    requires Inv(p.book)
    ensures var q := AfterProcess(p, cfg, e, clockNs, lagNs);
      (q.book.snapshotReady ==> p.book.snapshotReady) && (|q.samples| > |p.samples| ==> q.book.snapshotReady)
  {
    ProcessSamples(p, cfg, e, clockNs, lagNs);
    ProcessBook(p, cfg, e, clockNs, lagNs);
  }

  // ---- What a closed book waits for ----

  ghost predicate LoadsSnapshot(c: CaptureState, step: Step) {
    step.SnapshotArrives? && SnapshotStatus(c.p.book, step.bids, step.asks, step.id, None) == SnapshotLoaded
  }

  lemma ClosedProcess(p: ProcessorState, cfg: Config, e: DepthEvent, clockNs: int, lagNs: Option<int>)
    requires !p.book.snapshotReady
    ensures var q := AfterProcess(p, cfg, e, clockNs, lagNs);
      !q.book.snapshotReady && q.samples == p.samples && q.book.lastUpdateId == p.book.lastUpdateId
      && q.book.gapBoundary == p.book.gapBoundary
  {
    var mid := AfterStaleCheck(Noted(p, e), cfg, e.recvNs, true, 0);
    assert DeltaStatus(mid.book, e) == DeltaBeforeSnapshot;
  }

  lemma ClosedNext(w: Setting, c: CaptureState, step: Step)
    requires Inv(c.p.book) && !c.p.book.snapshotReady && !LoadsSnapshot(c, step)
    ensures var d := Next(w, c, step);
      !d.p.book.snapshotReady && d.p.samples == c.p.samples && d.p.book.lastUpdateId == c.p.book.lastUpdateId
      && d.p.book.gapBoundary == c.p.book.gapBoundary
  {
    match step
    case Consume(clockNs, lagNs) =>
      if c.queue != [] && Relevant(c.queue[0], w.symbol) {
        ClosedProcess(c.p, w.cfg, c.queue[0].event, clockNs, lagNs);
      }
    case _ =>
  }

  /** Once closed, nothing is emitted before a snapshot is taken. */
  lemma {:induction false} NoSampleWhileClosed(w: Setting, c: CaptureState, steps: seq<Step>)
    requires Inv(c.p.book) && !c.p.book.snapshotReady
    requires forall i :: 0 <= i < |steps| ==> !LoadsSnapshot(RunCapture(w, c, steps[..i]), steps[i])
    ensures var d := RunCapture(w, c, steps);
      Inv(d.p.book) && !d.p.book.snapshotReady && d.p.samples == c.p.samples
  {
    if steps != [] {
      var front := steps[..|steps| - 1];
      forall i | 0 <= i < |front| ensures !LoadsSnapshot(RunCapture(w, c, front[..i]), front[i]) {
        assert steps[..i] == front[..i];
      }
      NoSampleWhileClosed(w, c, front);
      assert steps[..|front|] == front;
      ClosedNext(w, RunCapture(w, c, front), steps[|front|]);
      InvNext(w, RunCapture(w, c, front), steps[|front|]);
    }
  }

  /** After a gap with boundary `b`, nothing is emitted before a snapshot above `b` arrives. */
  lemma {:induction false} GapBlocksSamples(w: Setting, c: CaptureState, steps: seq<Step>, b: int)
    requires Inv(c.p.book) && c.p.book.gapBoundary == Some(b)
    requires forall i :: 0 <= i < |steps| && steps[i].SnapshotArrives? ==> steps[i].id <= b
    ensures var d := RunCapture(w, c, steps);
      && Inv(d.p.book) && !d.p.book.snapshotReady && d.p.book.gapBoundary == Some(b)
      && d.p.samples == c.p.samples && d.p.book.lastUpdateId == c.p.book.lastUpdateId
  {
    if steps != [] {
      var front := steps[..|steps| - 1];
      GapBlocksSamples(w, c, front, b);
      ClosedNext(w, RunCapture(w, c, front), steps[|front|]);
      InvNext(w, RunCapture(w, c, front), steps[|front|]);
    }
  }

  lemma EmittingProcess(p: ProcessorState, cfg: Config, e: DepthEvent, clockNs: int, lagNs: Option<int>)
    requires Inv(p.book) && AfterProcess(p, cfg, e, clockNs, lagNs).samples != p.samples
    ensures p.book.snapshotReady && p.book.lastUpdateId.Some?
    ensures e.first <= p.book.lastUpdateId.value + 1 <= e.final
    ensures p.book.sequenceContinuous ==> e.first == p.book.lastUpdateId.value + 1
    ensures AfterProcess(p, cfg, e, clockNs, lagNs).book.lastUpdateId == Some(e.final)
  {
    ProcessSamples(p, cfg, e, clockNs, lagNs);
    var mid := AfterStaleCheck(Noted(p, e), cfg, e.recvNs, true, 0);
    assert mid.book == p.book || !mid.book.snapshotReady;
    DeltaAcceptedIff(p.book, e);
    ProcessBook(p, cfg, e, clockNs, lagNs);
  }

  /**
    A step emits at most one sample, and only by taking a delta that reaches
    the next id; on a book still waiting after a snapshot, the bridging delta.
   */
  lemma SampleNeedsDelta(w: Setting, c: CaptureState, step: Step)
    requires Inv(c.p.book) && Next(w, c, step).p.samples != c.p.samples
    ensures step.Consume? && c.queue != [] && Relevant(c.queue[0], w.symbol)
    ensures var e, s := c.queue[0].event, c.p.book;
      && s.snapshotReady && s.lastUpdateId.Some? && e.first <= s.lastUpdateId.value + 1 <= e.final
      && (s.sequenceContinuous ==> e.first == s.lastUpdateId.value + 1)
    ensures var samples := Next(w, c, step).p.samples;
      |samples| == |c.p.samples| + 1 && samples[|c.p.samples|].lastUpdateId == Some(c.queue[0].event.final)
  {
    ProcessSamples(c.p, w.cfg, c.queue[0].event, step.clockNs, step.lagNs);
    EmittingProcess(c.p, w.cfg, c.queue[0].event, step.clockNs, step.lagNs);
  }

  // ---- Stale feeds ----

  /** An open stale period and an open gate exclude each other. */
  ghost predicate StaleClosesGate(p: ProcessorState) {
    p.openStale.Some? ==> !p.book.snapshotReady && !p.book.readyToEmit
  }

  lemma StaleNext(w: Setting, c: CaptureState, step: Step)
    requires Inv(c.p.book) && StaleClosesGate(c.p)
    ensures StaleClosesGate(Next(w, c, step).p)
  {
    InvNext(w, c, step);
    match step
    case Consume(clockNs, lagNs) =>
      if c.queue != [] && Relevant(c.queue[0], w.symbol) {
        ProcessStale(c.p, w.cfg, c.queue[0].event, clockNs, lagNs);
      }
    case _ =>
  }

  /** A message closes an open period before its delta is applied, unless a recovery is running. */
  lemma ProcessStale(p: ProcessorState, cfg: Config, e: DepthEvent, clockNs: int, lagNs: Option<int>)
    requires Inv(p.book) && StaleClosesGate(p)
    ensures StaleClosesGate(AfterProcess(p, cfg, e, clockNs, lagNs))
  {
    var mid := AfterStaleCheck(Noted(p, e), cfg, e.recvNs, true, 0);
    assert StaleClosesGate(mid);
  }

  lemma {:induction false} StaleAlwaysClosesGate(w: Setting, steps: seq<Step>)
    ensures Inv(RunCapture(w, START, steps).p.book) && StaleClosesGate(RunCapture(w, START, steps).p)
  {
    if steps != [] {
      var c := RunCapture(w, START, steps[..|steps| - 1]);
      StaleAlwaysClosesGate(w, steps[..|steps| - 1]);
      StaleNext(w, c, steps[|steps| - 1]);
      InvNext(w, c, steps[|steps| - 1]);
    }
  }

  /** So while a stale feed is open, and after it, nothing is emitted until a snapshot is taken. */
  lemma {:induction false} StaleFeedBlocksSamples(w: Setting, before: seq<Step>, steps: seq<Step>)
    requires RunCapture(w, START, before).p.openStale.Some?
    requires forall i :: 0 <= i < |steps| ==> !LoadsSnapshot(RunCapture(w, RunCapture(w, START, before), steps[..i]), steps[i])
    ensures RunCapture(w, RunCapture(w, START, before), steps).p.samples == RunCapture(w, START, before).p.samples
  {
    StaleAlwaysClosesGate(w, before);
    NoSampleWhileClosed(w, RunCapture(w, START, before), steps);
  }

  // ---- From a closed book to the next sample ----

  /** The step applies the delta that bridges the snapshot the book stands at. */
  ghost predicate TakesBridge(w: Setting, c: CaptureState, step: Step) {
    && step.Consume? && c.queue != [] && Relevant(c.queue[0], w.symbol)
    && Checked(w, c.p, c.queue[0].event).book.awaitingBridge
    && DeltaStatus(Checked(w, c.p, c.queue[0].event).book, c.queue[0].event) == DeltaApplied
  }

  ghost predicate LoadedAt(w: Setting, c: CaptureState, steps: seq<Step>, i: int) {
    0 <= i < |steps| && LoadsSnapshot(RunCapture(w, c, steps[..i]), steps[i])
  }

  ghost predicate BridgedAt(w: Setting, c: CaptureState, steps: seq<Step>, j: int) {
    0 <= j < |steps| && TakesBridge(w, RunCapture(w, c, steps[..j]), steps[j])
  }

  ghost predicate LoadedThenBridged(w: Setting, c: CaptureState, steps: seq<Step>) {
    exists i, j :: i < j && LoadedAt(w, c, steps, i) && BridgedAt(w, c, steps, j)
  }

  lemma SameBefore(w: Setting, c: CaptureState, steps: seq<Step>, k: nat)
    requires k < |steps| - 1
    ensures LoadedAt(w, c, steps, k) <==> LoadedAt(w, c, steps[..|steps| - 1], k)
    ensures BridgedAt(w, c, steps, k) <==> BridgedAt(w, c, steps[..|steps| - 1], k)
  {
    assert steps[..k] == steps[..|steps| - 1][..k];
  }

  /** A book turns continuous only by the delta that bridges its snapshot. */
  lemma ContinuousNext(w: Setting, c: CaptureState, step: Step)
    requires Inv(c.p.book) && Next(w, c, step).p.book.sequenceContinuous && !c.p.book.sequenceContinuous
    ensures TakesBridge(w, c, step) && c.p.book.snapshotReady
  {
    match step
    case Consume(clockNs, lagNs) =>
      if c.queue != [] && Relevant(c.queue[0], w.symbol) {
        ContinuousProcess(c.p, w.cfg, c.queue[0].event, clockNs, lagNs);
      }
    case _ =>
  }

  lemma ContinuousProcess(p: ProcessorState, cfg: Config, e: DepthEvent, clockNs: int, lagNs: Option<int>)
    requires Inv(p.book) && AfterProcess(p, cfg, e, clockNs, lagNs).book.sequenceContinuous && !p.book.sequenceContinuous
    ensures var mid := AfterStaleCheck(Noted(p, e), cfg, e.recvNs, true, 0);
      mid.book.awaitingBridge && DeltaStatus(mid.book, e) == DeltaApplied && p.book.snapshotReady
  {
    ProcessBook(p, cfg, e, clockNs, lagNs);
    var mid := AfterStaleCheck(Noted(p, e), cfg, e.recvNs, true, 0);
    assert mid.book == p.book || !mid.book.snapshotReady;
  }

  lemma {:induction false} OpeningNeedsBoth(w: Setting, c: CaptureState, steps: seq<Step>)
    requires Inv(c.p.book) && !c.p.book.snapshotReady
    ensures var d := RunCapture(w, c, steps);
      && Inv(d.p.book)
      && (d.p.book.snapshotReady ==> exists i :: LoadedAt(w, c, steps, i))
      && (d.p.book.sequenceContinuous ==> LoadedThenBridged(w, c, steps))
  {
    if steps != [] {
      var front := steps[..|steps| - 1];
      OpeningNeedsBoth(w, c, front);
      OpeningNext(w, c, steps);
    }
  }

  lemma OpeningNext(w: Setting, c: CaptureState, steps: seq<Step>)
    requires steps != []
    requires var front := steps[..|steps| - 1];
      var b := RunCapture(w, c, front).p.book;
      && Inv(b)
      && (b.snapshotReady ==> exists i :: LoadedAt(w, c, front, i))
      && (b.sequenceContinuous ==> LoadedThenBridged(w, c, front))
    ensures var d := RunCapture(w, c, steps);
      && Inv(d.p.book)
      && (d.p.book.snapshotReady ==> exists i :: LoadedAt(w, c, steps, i))
      && (d.p.book.sequenceContinuous ==> LoadedThenBridged(w, c, steps))
  {
    var front, last := steps[..|steps| - 1], |steps| - 1;
    var b, d := RunCapture(w, c, front), RunCapture(w, c, steps);
    InvNext(w, b, steps[last]);
    if d.p.book.snapshotReady {
      if b.p.book.snapshotReady {
        var i :| LoadedAt(w, c, front, i);
        SameBefore(w, c, steps, i);
      } else if !LoadsSnapshot(b, steps[last]) {
        ClosedNext(w, b, steps[last]);
      } else {
        assert LoadedAt(w, c, steps, last);
      }
    }
    if d.p.book.sequenceContinuous {
      if b.p.book.sequenceContinuous {
        var i, j :| i < j && LoadedAt(w, c, front, i) && BridgedAt(w, c, front, j);
        SameBefore(w, c, steps, i);
        SameBefore(w, c, steps, j);
      } else {
        ContinuousNext(w, b, steps[last]);
        var i :| LoadedAt(w, c, front, i);
        SameBefore(w, c, steps, i);
        assert BridgedAt(w, c, steps, last);
      }
    }
  }

  /**
    From an open stale period on, the run up to any later sample holds an
    accepted snapshot and, after it, the applied delta that bridges it.
   */
  lemma {:induction false} StaleFeedRecovers(w: Setting, before: seq<Step>, steps: seq<Step>)
    requires RunCapture(w, START, before).p.openStale.Some? && steps != []
    requires var c := RunCapture(w, START, before);
      RunCapture(w, c, steps).p.samples != RunCapture(w, c, steps[..|steps| - 1]).p.samples
    ensures LoadedThenBridged(w, RunCapture(w, START, before), steps)
  {
    var c := RunCapture(w, START, before);
    StaleAlwaysClosesGate(w, before);
    OpeningNeedsBoth(w, c, steps[..|steps| - 1]);
    OpeningNeedsBoth(w, c, steps);
    SampleShowsContinuity(w, RunCapture(w, c, steps[..|steps| - 1]), steps[|steps| - 1]);
  }

  lemma SampleShowsContinuity(w: Setting, c: CaptureState, step: Step)
    requires Inv(c.p.book) && Next(w, c, step).p.samples != c.p.samples
    ensures Next(w, c, step).p.book.sequenceContinuous
  {
    InvNext(w, c, step);
    ProcessSamples(c.p, w.cfg, c.queue[0].event, step.clockNs, step.lagNs);
  }

  // ---- The reader's queue ----

  lemma {:induction false} QueueStaysBounded(w: Setting, steps: seq<Step>)
    ensures |RunCapture(w, START, steps).queue| <= w.queueMax
  {
    if steps != [] {
      var c := RunCapture(w, START, steps[..|steps| - 1]);
      QueueStaysBounded(w, steps[..|steps| - 1]);
      var step := steps[|steps| - 1];
      if step.SnapshotArrives? {
        PreservedIsPart(c.queue, step.id, w.symbol, false, Other(0));
      }
    }
  }
}
