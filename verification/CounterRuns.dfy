/**
  The report's counters over a whole capture: every message, delta, sample,
  version and generation is accounted for exactly once.
 */
module CounterRuns {
  import opened Options
  import opened BookModel
  import opened BookRuns
  import opened OrderbookState
  import opened OrderbookQuality
  import opened QueuePurge
  import opened Processor
  import opened Capture

  /** `pending` messages are received and not yet judged. */
  ghost predicate MessagesBalance(c: Counters, pending: nat) {
    && c.received == c.accepted + c.rejected + pending
    && c.rejected == c.beforeSnapshot + c.duplicates + c.sequenceGaps
                             + c.previousIdMismatches + c.invalidDeltas
    && c.bridgeFailures <= c.sequenceGaps
  }

  /** `unjudged` accepted deltas have no verdict yet. */
  ghost predicate SamplesBalance(c: Counters, samples: nat, unjudged: nat) {
    && c.accepted == c.emitted + c.blocked + unjudged
    && c.emitted == samples
    && c.schemaViolations <= c.blocked
  }

  /** What the book's own version and generation count. */
  ghost predicate BookBalance(c: Counters, s: BookState) {
    && s.stateVersion == c.snapshotsLoaded + c.accepted
    && s.generation == c.sequenceGaps + c.previousIdMismatches + c.invalidDeltas
                       + c.staleResets + c.bridgesMissing + c.reconnects
  }

  ghost predicate Balanced(p: ProcessorState, pending: nat) {
    MessagesBalance(p.counters, pending) && SamplesBalance(p.counters, |p.samples|, 0) && BookBalance(p.counters, p.book)
  }

  lemma StaleCheckBalances(p: ProcessorState, cfg: Config, nowNs: int, feedActive: bool, queueSize: nat, pending: nat)
    requires Balanced(p, pending)
    ensures Balanced(AfterStaleCheck(p, cfg, nowNs, feedActive, queueSize), pending)
  {}

  lemma VerdictBalances(p: ProcessorState, cfg: Config, e: DepthEvent, clockNs: int, lagNs: Option<int>)
    requires MessagesBalance(p.counters, 0) && SamplesBalance(p.counters, |p.samples|, 1) && BookBalance(p.counters, p.book)
    ensures Balanced(AfterVerdict(p, cfg, e, clockNs, lagNs), 0)
  {}

  lemma RejectionBalances(c: Counters, s: BookState, e: DepthEvent, samples: nat)
    requires MessagesBalance(c, 1) && SamplesBalance(c, samples, 0) && BookBalance(c, s)
    requires DeltaStatus(s, e) != DeltaApplied
    ensures var d := RejectCounters(c.(rejected := c.rejected + 1), DeltaStatus(s, e));
      MessagesBalance(d, 0) && SamplesBalance(d, samples, 0) && BookBalance(d, AfterDelta(s, e))
  {}

  lemma AcceptanceBalances(p: ProcessorState, e: DepthEvent)
    requires Balanced(p, 1) && DeltaStatus(p.book, e) == DeltaApplied
    ensures var q := WithAcceptance(p.(book := AfterDelta(p.book, e)));
      MessagesBalance(q.counters, 0) && SamplesBalance(q.counters, |q.samples|, 1) && BookBalance(q.counters, q.book)
  {}

  lemma ApplyBalances(p: ProcessorState, cfg: Config, e: DepthEvent, clockNs: int, lagNs: Option<int>)
    requires Balanced(p, 1)
    ensures Balanced(AfterApply(p, cfg, e, clockNs, lagNs), 0)
  {
    if DeltaStatus(p.book, e) == DeltaApplied {
      AcceptanceBalances(p, e);
      VerdictBalances(WithAcceptance(p.(book := AfterDelta(p.book, e))), cfg, e, clockNs, lagNs);
    } else {
      RejectionBalances(p.counters, p.book, e, |p.samples|);
    }
  }

  lemma BalancedNext(w: Setting, c: CaptureState, step: Step)
    requires Balanced(c.p, 0)
    ensures Balanced(Next(w, c, step).p, 0)
  {
    match step
    case Consume(clockNs, lagNs) =>
      if c.queue != [] && Relevant(c.queue[0], w.symbol) {
        var e := c.queue[0].event;
        assert Balanced(Noted(c.p, e), 1);
        StaleCheckBalances(Noted(c.p, e), w.cfg, e.recvNs, true, 0, 1);
        ApplyBalances(Checked(w, c.p, e), w.cfg, e, clockNs, lagNs);
      }
    case TimedOut(nowNs) =>
      StaleCheckBalances(c.p, w.cfg, nowNs, true, |c.queue|, 0);
    case SnapshotArrives(bids, asks, id, nowNs) =>
      LoadBalances(c.p, bids, asks, id, nowNs);
    case _ =>
  }

  lemma LoadBalances(p: ProcessorState, bids: seq<RawLevel>, asks: seq<RawLevel>, id: int, nowNs: int)
    requires Balanced(p, 0)
    ensures Balanced(AfterLoad(p, bids, asks, id, nowNs, None), 0)
    ensures Balanced(AfterBridgeMissing(AfterLoad(p, bids, asks, id, nowNs, None)), 0)
  {}

  /** Conservation over every capture, whatever arrives. */
  lemma {:induction false} CountersAlwaysBalance(w: Setting, steps: seq<Step>)
    ensures Balanced(RunCapture(w, START, steps).p, 0)
  {
    if steps != [] {
      CountersAlwaysBalance(w, steps[..|steps| - 1]);
      BalancedNext(w, RunCapture(w, START, steps[..|steps| - 1]), steps[|steps| - 1]);
    }
  }

  // ---- The schema check never refuses ----

  lemma AcceptedDeltaPassesSchema(cfg: Config, s: BookState, e: DepthEvent, clockNs: int, lagNs: Option<int>)
    requires Inv(s) && s.lastBookUpdateNs == Some(e.recvNs)
    requires QualityGood(cfg, s, e, clockNs, lagNs)
    ensures VerdictOn(cfg, s, e, clockNs, lagNs) == if cfg.depthN >= 1 then Emit else BlockSchema
  {
    assert !Flawed(cfg, s, e, clockNs, lagNs, SampleBeforeBookReady);
    assert !Flawed(cfg, s, e, clockNs, lagNs, SequenceGapOrReset);
    forall code ensures code !in BookErrors(s.bids, s.asks) {
      assert !Flawed(cfg, s, e, clockNs, lagNs, code);
    }
    var snap := SnapshotOf(s, cfg.depthN);
    var q := Quality(true, {}, false, BookAge(snap, Some(MaxOf(clockNs, e.recvNs))));
    SchemaAcceptsIff(s, cfg.depthN, snap, q, SampleOf(cfg, s, e, clockNs));
  }

  lemma ApplyPassesSchema(p: ProcessorState, cfg: Config, e: DepthEvent, clockNs: int, lagNs: Option<int>)
    requires cfg.depthN >= 1 && Inv(p.book)
    ensures AfterApply(p, cfg, e, clockNs, lagNs).counters.schemaViolations == p.counters.schemaViolations
  {
    if DeltaStatus(p.book, e) == DeltaApplied {
      InvKept(p.book, Delta(e));
      var s := AfterDelta(p.book, e);
      if QualityGood(cfg, s, e, clockNs, lagNs) {
        AcceptedDeltaPassesSchema(cfg, s, e, clockNs, lagNs);
      }
    }
  }

  lemma NoSchemaViolationNext(w: Setting, c: CaptureState, step: Step)
    requires w.cfg.depthN >= 1 && Inv(c.p.book)
    ensures Next(w, c, step).p.counters.schemaViolations == c.p.counters.schemaViolations
  {
    if step.Consume? && c.queue != [] && Relevant(c.queue[0], w.symbol) {
      var e := c.queue[0].event;
      StaleCheckKeepsInv(Noted(c.p, e), w.cfg, e.recvNs, true, 0);
      ApplyPassesSchema(Checked(w, c.p, e), w.cfg, e, step.clockNs, step.lagNs);
    }
  }

  /** With at least one level a side, the violation branch is dead in every capture. */
  lemma {:induction false} SchemaNeverViolated(w: Setting, steps: seq<Step>)
    requires w.cfg.depthN >= 1
    ensures Inv(RunCapture(w, START, steps).p.book) && RunCapture(w, START, steps).p.counters.schemaViolations == 0
  {
    if steps != [] {
      var c := RunCapture(w, START, steps[..|steps| - 1]);
      SchemaNeverViolated(w, steps[..|steps| - 1]);
      InvNext(w, c, steps[|steps| - 1]);
      NoSchemaViolationNext(w, c, steps[|steps| - 1]);
    }
  }
}
