/**
  What the processor does at a check, a snapshot and a message, said on its
  fields: when silence closes the book, when a sample is emitted and what it
  holds, and which counter a message moves.
 */
module CaptureMeaning {
  import opened Sides
  import opened Options
  import opened PriceIndex
  import opened TopLevels
  import opened BookModel
  import opened BookRuns
  import opened BookMeaning
  import opened OrderbookState
  import opened OrderbookQuality
  import opened QueuePurge
  import opened Processor
  import opened Capture
  import opened CounterRuns

  // ---- Silence ----

  /** The feed has been silent for longer than the threshold and nothing is queued. */
  predicate Silent(p: ProcessorState, thresholdNs: int, nowNs: int, queueSize: nat) {
    p.lastWsRecvNs.Some? && nowNs - p.lastWsRecvNs.value > thresholdNs && queueSize == 0
  }

  /**
    A check of an active feed with no recovery running leaves a stale period
    open exactly when the feed is silent. Then both gates are closed; a new
    period is a new generation, counted once, and starts where the threshold was
    passed.
   */
  lemma StaleCheckMeans(p: ProcessorState, cfg: Config, nowNs: int, queueSize: nat)
    requires Inv(p.book) && StaleClosesGate(p) && !p.recoveryActive
    ensures var q, silent := AfterStaleCheck(p, cfg, nowNs, true, queueSize), Silent(p, cfg.feedStaleNs, nowNs, queueSize);
      && (q.openStale.Some? <==> silent)
      && (silent ==> !q.book.snapshotReady && !q.book.readyToEmit)
      && q.book.generation == p.book.generation + (if silent && p.openStale.None? then 1 else 0)
      && q.counters.staleResets == p.counters.staleResets + (if silent && p.openStale.None? then 1 else 0)
      && (!silent || p.openStale.Some? ==> q.book == p.book)
      && q.book.bids == p.book.bids && q.book.asks == p.book.asks && q.book.lastUpdateId == p.book.lastUpdateId
      && q.samples == p.samples
    ensures var q := AfterStaleCheck(p, cfg, nowNs, true, queueSize);
      Silent(p, cfg.feedStaleNs, nowNs, queueSize) ==>
        if p.openStale.None? then q.openStale.value.startedNs == p.lastWsRecvNs.value + cfg.feedStaleNs
                                  && q.openStale.value.maxAgeNs == nowNs - p.lastWsRecvNs.value
        else (q.openStale.value.startedNs == p.openStale.value.startedNs
              && q.openStale.value.maxAgeNs >= p.openStale.value.maxAgeNs
              && q.openStale.value.maxAgeNs >= nowNs - p.lastWsRecvNs.value)
  {}

  /** While a recovery runs, or with the feed inactive, a check changes nothing. */
  lemma NoCheckDuringRecovery(p: ProcessorState, cfg: Config, nowNs: int, feedActive: bool, queueSize: nat)
    requires p.recoveryActive || !feedActive
    ensures AfterStaleCheck(p, cfg, nowNs, feedActive, queueSize) == p
  {}

  /**
    A capture that times out on an empty queue, past the threshold since the
    last message, closes the book, and then emits nothing until it accepts a
    snapshot.
   */
  lemma {:induction false} SilenceClosesTheBook(w: Setting, before: seq<Step>, nowNs: int, steps: seq<Step>)
    requires var c := RunCapture(w, START, before);
      !c.p.recoveryActive && c.queue == [] && c.p.lastWsRecvNs.Some? && nowNs - c.p.lastWsRecvNs.value > w.cfg.feedStaleNs
    requires var d := Next(w, RunCapture(w, START, before), TimedOut(nowNs));
      forall i :: 0 <= i < |steps| ==> !LoadsSnapshot(RunCapture(w, d, steps[..i]), steps[i])
    ensures var c := RunCapture(w, START, before);
      var d := Next(w, c, TimedOut(nowNs));
      && d.p.openStale.Some? && !d.p.book.snapshotReady && !d.p.book.readyToEmit
      && RunCapture(w, d, steps).p.samples == c.p.samples && !RunCapture(w, d, steps).p.book.snapshotReady
  {
    var c := RunCapture(w, START, before);
    StaleAlwaysClosesGate(w, before);
    StaleCheckMeans(c.p, w.cfg, nowNs, 0);
    InvNext(w, c, TimedOut(nowNs));
    NoSampleWhileClosed(w, Next(w, c, TimedOut(nowNs)), steps);
  }

  lemma ApplyHearsNothing(p: ProcessorState, cfg: Config, e: DepthEvent, clockNs: int, lagNs: Option<int>)
    ensures var q := AfterApply(p, cfg, e, clockNs, lagNs);
      q.lastWsRecvNs == p.lastWsRecvNs && q.counters.received == p.counters.received
  {}

  lemma CheckHearsNothing(p: ProcessorState, cfg: Config, nowNs: int, feedActive: bool, queueSize: nat)
    ensures var q := AfterStaleCheck(p, cfg, nowNs, feedActive, queueSize);
      q.lastWsRecvNs == p.lastWsRecvNs && q.counters.received == p.counters.received
  {}

  lemma ProcessHears(p: ProcessorState, cfg: Config, e: DepthEvent, clockNs: int, lagNs: Option<int>)
    ensures AfterProcess(p, cfg, e, clockNs, lagNs).lastWsRecvNs == Some(e.recvNs)
    ensures AfterProcess(p, cfg, e, clockNs, lagNs).counters.received == p.counters.received + 1
  {
    CheckHearsNothing(Noted(p, e), cfg, e.recvNs, true, 0);
    ApplyHearsNothing(AfterStaleCheck(Noted(p, e), cfg, e.recvNs, true, 0), cfg, e, clockNs, lagNs);
  }

  /** The time of silence is counted from the last message taken off the queue. */
  lemma MessageIsHeard(w: Setting, c: CaptureState, clockNs: int, lagNs: Option<int>)
    requires c.queue != [] && c.queue[0].Depth? && c.queue[0].symbol == w.symbol
    ensures Next(w, c, Consume(clockNs, lagNs)).p.lastWsRecvNs == Some(c.queue[0].event.recvNs)
    ensures Next(w, c, Consume(clockNs, lagNs)).p.counters.received == c.p.counters.received + 1
  {
    ProcessHears(c.p, w.cfg, c.queue[0].event, clockNs, lagNs);
  }

  /** A reconnect closes the book and starts a generation, keeping levels and id. */
  lemma ReconnectMeans(w: Setting, c: CaptureState)
    ensures var s, t := c.p.book, Next(w, c, Reconnect).p.book;
      && !t.snapshotReady && !t.readyToEmit && t.generation == s.generation + 1
      && t.bids == s.bids && t.asks == s.asks && t.lastUpdateId == s.lastUpdateId && t.gapBoundary == s.gapBoundary
  {}

  /** A received envelope is queued last if there is room, and else only counted; the book does not see it yet. */
  lemma ReceiveMeans(w: Setting, c: CaptureState, v: Envelope)
    ensures var d := Next(w, c, Receive(v));
      && d.p == c.p
      && (if |c.queue| < w.queueMax then d.queue == c.queue + [v] && d.drops == c.drops
          else d.queue == c.queue && d.drops == c.drops + 1)
  {}

  /** Consuming takes the oldest envelope, a snapshot trims the queue, and no other step touches what is queued. */
  lemma QueueMeans(w: Setting, c: CaptureState, step: Step)
    requires !step.Receive?
    ensures var q := Next(w, c, step).queue;
      && Next(w, c, step).drops == c.drops
      && q == (if step.Consume? then (if c.queue == [] then [] else c.queue[1..])
               else if step.SnapshotArrives? then Preserved(c.queue, step.id, w.symbol, false)
               else c.queue)
  {}

  /** A recovery runs from the request for a snapshot until one arrives; the request changes nothing else. */
  lemma RecoveryMeans(w: Setting, c: CaptureState, step: Step)
    requires step.RequestSnapshot? || step.SnapshotArrives?
    ensures Next(w, c, step).p.recoveryActive <==> step.RequestSnapshot?
    ensures step.RequestSnapshot? ==> Next(w, c, step).p == c.p.(recoveryActive := true)
  {}

  /** A snapshot that leaves events past it without a bridge among them closes the book again. */
  lemma {:induction false} BridgeMissingMeans(w: Setting, c: CaptureState, step: Step, i: nat)
    requires Inv(c.p.book) && step.SnapshotArrives?
    requires i < |Events(c.queue, w.symbol)| && Events(c.queue, w.symbol)[i].final > step.id
    requires forall j :: 0 <= j < |Events(c.queue, w.symbol)| ==>
      !(Events(c.queue, w.symbol)[j].first <= step.id + 1 <= Events(c.queue, w.symbol)[j].final)
    ensures var p := Next(w, c, step).p;
      !p.book.snapshotReady && p.counters.bridgesMissing == c.p.counters.bridgesMissing + 1
  {
    NoneBridges(Events(c.queue, w.symbol), step.id, i);
  }

  lemma {:induction false} NoneBridges(es: seq<DepthEvent>, id: int, i: nat)
    requires i < |es| && es[i].final > id
    requires forall j :: 0 <= j < |es| ==> !(es[j].first <= id + 1 <= es[j].final)
    ensures BridgeMissing(es, id)
    decreases |es|
  {
    NoBridge(es, id);
    if es[0].final <= id {
      NoneBridges(es[1..], id, i - 1);
    }
  }

  lemma {:induction false} NoBridge(es: seq<DepthEvent>, id: int)
    requires forall j :: 0 <= j < |es| ==> !(es[j].first <= id + 1 <= es[j].final)
    ensures FirstBridge(es, id).None?
    decreases |es|
  {
    if es != [] {
      NoBridge(es[1..], id);
    }
  }

  // ---- Snapshots ----

  /** A snapshot is counted as loaded or failed by whether it was takable, and only a taken one ends a stale period. */
  lemma LoadMeans(p: ProcessorState, bids: seq<RawLevel>, asks: seq<RawLevel>, id: int, nowNs: int, generation: Option<int>)
    requires Inv(p.book)
    ensures var q := AfterLoad(p, bids, asks, id, nowNs, generation);
      if Takable(p.book, bids, asks, id, generation)
      then (q.counters == p.counters.(snapshotsLoaded := p.counters.snapshotsLoaded + 1) && q.openStale.None?)
      else (q.counters == p.counters.(snapshotsFailed := p.counters.snapshotsFailed + 1) && q.openStale == p.openStale)
  {
    SnapshotTakenIff(p.book, bids, asks, id, nowNs, generation);
  }

  // ---- Counters ----

  /** The counters that a refused delta moves, on the ids: each by one, and no other. */
  lemma RefusedDeltaCounts(p: ProcessorState, cfg: Config, e: DepthEvent, clockNs: int, lagNs: Option<int>)
    requires Inv(p.book) && !DeltaResult(p.book, e).accepted
    ensures var q, c, s := AfterApply(p, cfg, e, clockNs, lagNs).counters, p.counters, p.book;
      && q.rejected == c.rejected + 1 && q.accepted == c.accepted
      && q.beforeSnapshot == c.beforeSnapshot + (if !s.snapshotReady then 1 else 0)
      && q.duplicates == c.duplicates + (if s.snapshotReady && e.final <= s.lastUpdateId.value then 1 else 0)
      && q.previousIdMismatches == c.previousIdMismatches
           + (if s.snapshotReady && e.final > s.lastUpdateId.value && !PreviousFits(s, e) then 1 else 0)
      && q.sequenceGaps == c.sequenceGaps + (if GapsAt(s, e) then 1 else 0)
      && q.bridgeFailures == c.bridgeFailures + (if GapsAt(s, e) && s.awaitingBridge then 1 else 0)
      && q.invalidDeltas == c.invalidDeltas + (if FitsBadly(s, e) then 1 else 0)
      && AfterApply(p, cfg, e, clockNs, lagNs).openStale == p.openStale
  {
    DeltaStatusMeans(p.book, e);
  }

  /** A newer range that does not reach the book's next id. */
  predicate GapsAt(s: BookState, e: DepthEvent) {
    s.snapshotReady && s.lastUpdateId.Some? && e.final > s.lastUpdateId.value && PreviousFits(s, e) && !RangeFits(s, e)
  }

  /** A range that fits, with levels that do not parse. */
  ghost predicate FitsBadly(s: BookState, e: DepthEvent) {
    && s.snapshotReady && s.lastUpdateId.Some? && e.final > s.lastUpdateId.value && PreviousFits(s, e) && RangeFits(s, e)
    && !CleanEvent(e)
  }

  // ---- When a sample is emitted ----

  /** Each side holds something, and every bid is below every ask. */
  ghost predicate Uncrossed(s: BookState) {
    && (exists p :: p in s.bids) && (exists q :: q in s.asks)
    && forall p, q :: p in s.bids && q in s.asks ==> p < q
  }

  lemma NoErrorsIffUncrossed(s: BookState)
    requires Positive(s.bids) && Positive(s.asks)
    ensures BookErrors(s.bids, s.asks) == {} <==> Uncrossed(s)
  {
    SomeKey(s.bids);
    SomeKey(s.asks);
    if BookErrors(s.bids, s.asks) == {} {
      assert OneSideMissing !in BookErrors(s.bids, s.asks) && CrossedBook !in BookErrors(s.bids, s.asks);
    }
    if Uncrossed(s) {
      forall code ensures code !in BookErrors(s.bids, s.asks) {}
    }
  }

  function Later(a: int, b: int): int {
    if a >= b then a else b
  }

  /** The book is not older than allowed when it is judged, and the queue lags no worse than allowed. */
  predicate InTime(cfg: Config, e: DepthEvent, clockNs: int, lagNs: Option<int>) {
    && Later(clockNs, e.recvNs) - e.recvNs <= cfg.limits.staleAfterNs
    && (lagNs.Some? ==> lagNs.value <= cfg.limits.lagSevereNs)
  }

  lemma GoodIffInTime(cfg: Config, s: BookState, e: DepthEvent, clockNs: int, lagNs: Option<int>)
    requires Inv(s) && s.snapshotReady && s.sequenceContinuous && s.lastBookUpdateNs == Some(e.recvNs)
    ensures QualityGood(cfg, s, e, clockNs, lagNs) <==> Uncrossed(s) && InTime(cfg, e, clockNs, lagNs)
  {
    var snap := SnapshotOf(s, cfg.depthN);
    NoErrorsIffUncrossed(s);
    BestLevelsAreSound(Bid, s.bids, cfg.depthN, snap.bidsTopN);
    BestLevelsAreSound(Ask, s.asks, cfg.depthN, snap.asksTopN);
    assert snap.lastBookUpdateNs == Some(e.recvNs) && snap.snapshotVersion == snap.stateVersion;
    if QualityGood(cfg, s, e, clockNs, lagNs) {
      assert !Flawed(cfg, s, e, clockNs, lagNs, StaleBook) && !Flawed(cfg, s, e, clockNs, lagNs, QueueLagExceeded);
      forall code ensures code !in BookErrors(s.bids, s.asks) {
        assert !Flawed(cfg, s, e, clockNs, lagNs, code);
      }
    }
    if Uncrossed(s) && InTime(cfg, e, clockNs, lagNs) {
      forall code ensures !Flawed(cfg, s, e, clockNs, lagNs, code) {
        forall level | level in snap.bidsTopN + snap.asksTopN ensures !LevelError(level, code) {
          assert !LevelViolation(level, BadPrice) && !LevelViolation(level, BadSize) && !LevelViolation(level, ZeroSizeLevel);
        }
      }
    }
  }

  /**
    A delta is emitted exactly when it is applied, leaves both sides filled and
    uncrossed, and is judged in time, with at least one level kept a side. An
    applied one that is not emitted is counted as blocked.
   */
  lemma EmittedIff(p: ProcessorState, cfg: Config, e: DepthEvent, clockNs: int, lagNs: Option<int>)
    requires Inv(p.book)
    ensures var q := AfterApply(p, cfg, e, clockNs, lagNs);
      var emits := DeltaResult(p.book, e).accepted && Uncrossed(q.book) && InTime(cfg, e, clockNs, lagNs) && cfg.depthN >= 1;
      && |q.samples| == |p.samples| + (if emits then 1 else 0)
      && q.counters.emitted == p.counters.emitted + (if emits then 1 else 0)
      && q.counters.blocked == p.counters.blocked + (if DeltaResult(p.book, e).accepted && !emits then 1 else 0)
      && (DeltaResult(p.book, e).accepted ==> q.openStale.None? && q.counters.accepted == p.counters.accepted + 1)
  {
    if DeltaStatus(p.book, e) == DeltaApplied {
      var s := AfterDelta(p.book, e);
      InvKept(p.book, Delta(e));
      AppliedDeltaMeans(p.book, e);
      GoodIffInTime(cfg, s, e, clockNs, lagNs);
      if QualityGood(cfg, s, e, clockNs, lagNs) {
        AcceptedDeltaPassesSchema(cfg, s, e, clockNs, lagNs);
      }
    }
  }

  // ---- What a sample holds ----

  /** The sample is a picture of the book after the delta, judged at `judgedNs`. */
  ghost predicate Pictures(sample: CleanSample, s: BookState, n: int, e: DepthEvent, judgedNs: int) {
    && IsBestN(Bid, s.bids, n, sample.bids) && IsBestN(Ask, s.asks, n, sample.asks)
    && sample.bids != [] && sample.asks != []
    && sample.bestBid == Some(sample.bids[0].0) && sample.bestAsk == Some(sample.asks[0].0)
    && sample.spread == Some(sample.asks[0].0 - sample.bids[0].0)
    && sample.mid == Some((sample.asks[0].0 + sample.bids[0].0) / 2.0)
    && sample.bidCount == |s.bids| && sample.askCount == |s.asks|
    && sample.generation == s.generation && sample.stateVersion == sample.snapshotVersion == s.stateVersion
    && sample.lastUpdateId == Some(e.final) && sample.bookAgeNs == Some(judgedNs - e.recvNs)
    && sample.qualityErrors == {} && sample.snapshotReady && sample.readyToEmit && sample.sequenceContinuous
  }

  lemma SampleOfPictures(cfg: Config, s: BookState, e: DepthEvent, clockNs: int)
    requires Inv(s) && s.readyToEmit && s.lastBookUpdateNs == Some(e.recvNs) && s.lastUpdateId == Some(e.final)
    requires cfg.depthN >= 1
    ensures Pictures(SampleOf(cfg, s, e, clockNs), s, cfg.depthN, e, Later(clockNs, e.recvNs))
  {
    var snap := SnapshotOf(s, cfg.depthN);
    BestOfCopy(Bid, s.bids, cfg.depthN, snap.bidsTopN);
    BestOfCopy(Ask, s.asks, cfg.depthN, snap.asksTopN);
    assert OneSideMissing !in BookErrors(s.bids, s.asks);
  }

  /** Every sample that any capture emits pictures the book after the delta that emitted it. */
  lemma EmittedSamplePictures(w: Setting, c: CaptureState, step: Step)
    requires Inv(c.p.book) && Next(w, c, step).p.samples != c.p.samples
    ensures step.Consume? && c.queue != [] && c.queue[0].Depth? && c.queue[0].symbol == w.symbol
    ensures var d, e := Next(w, c, step), c.queue[0].event;
      && |d.p.samples| == |c.p.samples| + 1
      && Pictures(d.p.samples[|c.p.samples|], d.p.book, w.cfg.depthN, e, Later(step.clockNs, e.recvNs))
      && d.p.book.generation == c.p.book.generation && d.p.book.stateVersion == c.p.book.stateVersion + 1
  {
    SampleNeedsDelta(w, c, step);
    ProcessPictures(c.p, w.cfg, c.queue[0].event, step.clockNs, step.lagNs);
  }

  lemma ProcessPictures(p: ProcessorState, cfg: Config, e: DepthEvent, clockNs: int, lagNs: Option<int>)
    requires Inv(p.book) && AfterProcess(p, cfg, e, clockNs, lagNs).samples != p.samples
    ensures var q := AfterProcess(p, cfg, e, clockNs, lagNs);
      && |q.samples| == |p.samples| + 1
      && Pictures(q.samples[|p.samples|], q.book, cfg.depthN, e, Later(clockNs, e.recvNs))
      && q.book.generation == p.book.generation && q.book.stateVersion == p.book.stateVersion + 1
  {
    var mid := AfterStaleCheck(Noted(p, e), cfg, e.recvNs, true, 0);
    StaleCheckKeepsInv(Noted(p, e), cfg, e.recvNs, true, 0);
    ProcessBook(p, cfg, e, clockNs, lagNs);
    ProcessSamples(p, cfg, e, clockNs, lagNs);
    EmittedIff(mid, cfg, e, clockNs, lagNs);
    InvKept(mid.book, Delta(e));
    AppliedDeltaMeans(mid.book, e);
    SampleOfPictures(cfg, AfterDelta(mid.book, e), e, clockNs);
  }
}
