/**
  The processor around one book: it counts what arrives, closes the book on a
  silent feed, and writes a clean sample for every accepted delta that passes
  the quality gate and the schema.
 */
module Processor {
  import opened Sides
  import opened Options
  import opened TopLevels
  import opened BookModel
  import opened BookRuns
  import opened OrderbookState
  import opened OrderbookQuality
  import opened QueuePurge

  // ---- The processor as a value ----

  /** The processor's counter dictionary and the lifecycle tracker's, one field a key. */
  datatype Counters = Counters(
    received: nat,
    accepted: nat,
    rejected: nat,
    emitted: nat,
    blocked: nat,
    schemaViolations: nat,
    beforeSnapshot: nat,
    duplicates: nat,
    sequenceGaps: nat,
    bridgeFailures: nat,
    previousIdMismatches: nat,
    invalidDeltas: nat,
    staleResets: nat,
    bridgesMissing: nat,
    snapshotsLoaded: nat,
    snapshotsFailed: nat,
    reconnects: nat)

  const ZEROS := Counters(0, 0, 0, 0, 0, 0, 0, 0, 0, 0, 0, 0, 0, 0, 0, 0, 0)

  datatype Config = Config(depthN: int, feedStaleNs: int, limits: QualityLimits)

  datatype StalePeriod = StalePeriod(startedNs: int, maxAgeNs: int)

  datatype ProcessorState = ProcessorState(
    book: BookState,
    counters: Counters,
    openStale: Option<StalePeriod>,
    lastWsRecvNs: Option<int>,
    recoveryActive: bool,
    samples: seq<CleanSample>)

  const IDLE := ProcessorState(FRESH, ZEROS, None, None, false, [])

  predicate FeedStale(p: ProcessorState, cfg: Config, nowNs: int, queueSize: nat) {
    p.lastWsRecvNs.Some? && nowNs - p.lastWsRecvNs.value > cfg.feedStaleNs && queueSize == 0
  }

  function MaxOf(a: int, b: int): int {
    if a > b then a else b
  }

  /** A stale feed opens at most one period and closes the book when it opens it. */
  function AfterFeedStale(p: ProcessorState, cfg: Config, nowNs: int): ProcessorState
    requires p.lastWsRecvNs.Some?
  {
    var age := nowNs - p.lastWsRecvNs.value;
    if p.openStale.Some? then
      p.(openStale := Some(p.openStale.value.(maxAgeNs := MaxOf(p.openStale.value.maxAgeNs, age))))
    else
      p.(openStale := Some(StalePeriod(p.lastWsRecvNs.value + cfg.feedStaleNs, age)),
         counters := p.counters.(staleResets := p.counters.staleResets + 1),
         book := WithNotReady(p.book, true, None))
  }

  function AfterStaleCheck(p: ProcessorState, cfg: Config, nowNs: int, feedActive: bool, queueSize: nat): ProcessorState {
    if !feedActive || p.recoveryActive then p
    else if FeedStale(p, cfg, nowNs, queueSize) then AfterFeedStale(p, cfg, nowNs)
    else p.(openStale := None)
  }

  ghost function AfterLoad(p: ProcessorState, bids: seq<RawLevel>, asks: seq<RawLevel>, id: int, nowNs: int,
                           generation: Option<int>): ProcessorState {
    var loaded := SnapshotStatus(p.book, bids, asks, id, generation) == SnapshotLoaded;
    p.(book := AfterSnapshot(p.book, bids, asks, id, nowNs, generation),
       counters := if loaded then p.counters.(snapshotsLoaded := p.counters.snapshotsLoaded + 1)
                   else p.counters.(snapshotsFailed := p.counters.snapshotsFailed + 1),
       openStale := if loaded then None else p.openStale)
  }

  function AfterBridgeMissing(p: ProcessorState): ProcessorState {
    p.(book := WithNotReady(p.book, true, None), counters := p.counters.(bridgesMissing := p.counters.bridgesMissing + 1))
  }

  function AfterReconnect(p: ProcessorState): ProcessorState {
    p.(book := WithNotReady(p.book, true, None), counters := p.counters.(reconnects := p.counters.reconnects + 1))
  }

  ghost function SnapshotOf(s: BookState, n: int): (snap: BookSnapshot)
    ensures Copies(s, n, snap)
  {
    var bids, asks := BestLevels(Bid, s.bids, n), BestLevels(Ask, s.asks, n);
    var bid, ask := FirstPrice(bids), FirstPrice(asks);
    var both := bid.Some? && ask.Some?;
    BookSnapshot(s.stateVersion, s.stateVersion, s.generation, bids, asks, |s.bids|, |s.asks|, bid, ask,
                 if both then Some(ask.value - bid.value) else None,
                 if both then Some((bid.value + ask.value) / 2.0) else None,
                 s.lastUpdateId, s.lastBookUpdateNs)
  }

  lemma CopyIsUnique(s: BookState, n: int, snap: BookSnapshot)
    requires Copies(s, n, snap)
    ensures snap == SnapshotOf(s, n)
  {
    BestNUnique(Bid, s.bids, n, snap.bidsTopN, SnapshotOf(s, n).bidsTopN);
    BestNUnique(Ask, s.asks, n, snap.asksTopN, SnapshotOf(s, n).asksTopN);
  }

  datatype Verdict = Emit | BlockQuality | BlockSchema

  ghost predicate Flawed(cfg: Config, s: BookState, e: DepthEvent, clockNs: int, lagNs: Option<int>, code: ErrorCode) {
    QualityFlaw(cfg.limits, s, SnapshotOf(s, cfg.depthN), Some(MaxOf(clockNs, e.recvNs)), lagNs, None, None, code)
  }

  ghost predicate QualityGood(cfg: Config, s: BookState, e: DepthEvent, clockNs: int, lagNs: Option<int>) {
    forall code :: !Flawed(cfg, s, e, clockNs, lagNs, code)
  }

  /** The sample of a book without quality errors. */
  ghost function SampleOf(cfg: Config, s: BookState, e: DepthEvent, clockNs: int): CleanSample {
    var snap := SnapshotOf(s, cfg.depthN);
    SampleFrom(snap, Quality(true, {}, false, BookAge(snap, Some(MaxOf(clockNs, e.recvNs)))),
               s.snapshotReady, s.readyToEmit, s.sequenceContinuous)
  }

  ghost function VerdictOn(cfg: Config, s: BookState, e: DepthEvent, clockNs: int, lagNs: Option<int>): Verdict {
    if !QualityGood(cfg, s, e, clockNs, lagNs) then BlockQuality
    else if exists v :: Violates(SampleOf(cfg, s, e, clockNs), v) then BlockSchema
    else Emit
  }

  function VerdictCounters(c: Counters, v: Verdict): Counters {
    match v
    case Emit => c.(emitted := c.emitted + 1)
    case BlockQuality => c.(blocked := c.blocked + 1)
    case BlockSchema => c.(blocked := c.blocked + 1, schemaViolations := c.schemaViolations + 1)
  }

  function RejectCounters(c: Counters, status: ApplyStatus): Counters {
    match status
    case DeltaBeforeSnapshot => c.(beforeSnapshot := c.beforeSnapshot + 1)
    case DuplicateDelta => c.(duplicates := c.duplicates + 1)
    case SequenceGap => c.(sequenceGaps := c.sequenceGaps + 1)
    case BridgeFailed => c.(bridgeFailures := c.bridgeFailures + 1, sequenceGaps := c.sequenceGaps + 1)
    case PreviousIdMismatch => c.(previousIdMismatches := c.previousIdMismatches + 1)
    case InvalidDeltaLevels => c.(invalidDeltas := c.invalidDeltas + 1)
    case _ => c
  }

  ghost function AfterVerdict(p: ProcessorState, cfg: Config, e: DepthEvent, clockNs: int, lagNs: Option<int>): ProcessorState {
    var v := VerdictOn(cfg, p.book, e, clockNs, lagNs);
    p.(counters := VerdictCounters(p.counters, v),
       samples := if v == Emit then p.samples + [SampleOf(cfg, p.book, e, clockNs)] else p.samples)
  }

  function WithAcceptance(p: ProcessorState): ProcessorState {
    p.(counters := p.counters.(accepted := p.counters.accepted + 1), openStale := None)
  }

  function WithRejection(p: ProcessorState, status: ApplyStatus): ProcessorState {
    p.(counters := RejectCounters(p.counters.(rejected := p.counters.rejected + 1), status))
  }

  /** The delta applied, counted, and turned into a sample if it may be. */
  ghost function AfterApply(p: ProcessorState, cfg: Config, e: DepthEvent, clockNs: int, lagNs: Option<int>): ProcessorState {
    var status := DeltaStatus(p.book, e);
    var q := p.(book := AfterDelta(p.book, e));
    if status == DeltaApplied then AfterVerdict(WithAcceptance(q), cfg, e, clockNs, lagNs) else WithRejection(q, status)
  }

  function Noted(p: ProcessorState, e: DepthEvent): ProcessorState {
    p.(counters := p.counters.(received := p.counters.received + 1), lastWsRecvNs := Some(e.recvNs))
  }

  ghost function AfterProcess(p: ProcessorState, cfg: Config, e: DepthEvent, clockNs: int, lagNs: Option<int>): ProcessorState {
    AfterApply(AfterStaleCheck(Noted(p, e), cfg, e.recvNs, true, 0), cfg, e, clockNs, lagNs)
  }

  lemma GoodIffNoErrors(cfg: Config, s: BookState, e: DepthEvent, clockNs: int, lagNs: Option<int>, errors: set<ErrorCode>)
    requires forall code :: code in errors <==> Flawed(cfg, s, e, clockNs, lagNs, code)
    ensures errors == {} <==> QualityGood(cfg, s, e, clockNs, lagNs)
  {}

  // ---- The processor as an object ----

  class OrderbookPhase41Processor {
    const cfg: Config
    const book: OrderbookState
    var counters: Counters
    var openStalePeriod: Option<StalePeriod>
    var lastWsMessageRecvNs: Option<int>
    var snapshotRecoveryActive: bool
    var cleanSamples: seq<CleanSample>

    ghost predicate Valid()
      reads book
    {
      book.Valid()
    }

    ghost function View(): ProcessorState
      reads this, book
    {
      ProcessorState(book.View(), counters, openStalePeriod, lastWsMessageRecvNs, snapshotRecoveryActive, cleanSamples)
    }

    constructor (cfg: Config)
      ensures Valid() && fresh(book) && View() == IDLE && this.cfg == cfg
    {
      this.cfg := cfg;
      book := new OrderbookState();
      counters := ZEROS;
      openStalePeriod, lastWsMessageRecvNs := None, None;
      snapshotRecoveryActive := false;
      cleanSamples := [];
    }

    method RecordFeedReceiveStale(nowNs: int, feedAgeNs: int)
      requires Valid() && lastWsMessageRecvNs.Some? && feedAgeNs == nowNs - lastWsMessageRecvNs.value
      modifies `openStalePeriod, `counters, book
      ensures Valid() && View() == AfterFeedStale(old(View()), cfg, nowNs)
    {
      if openStalePeriod.None? {
        openStalePeriod := Some(StalePeriod(lastWsMessageRecvNs.value + cfg.feedStaleNs, feedAgeNs));
        counters := counters.(staleResets := counters.staleResets + 1);
        book.MarkNotReady(true, None);
      } else {
        var period := openStalePeriod.value;
        openStalePeriod := Some(period.(maxAgeNs := if period.maxAgeNs > feedAgeNs then period.maxAgeNs else feedAgeNs));
      }
    }

    method CheckStalePeriods(nowNs: int, feedActive: bool, queueSize: nat)
      requires Valid()
      modifies `openStalePeriod, `counters, book
      ensures Valid() && View() == AfterStaleCheck(old(View()), cfg, nowNs, feedActive, queueSize)
    {
      if !feedActive || snapshotRecoveryActive {
        return;
      }
      if lastWsMessageRecvNs.Some? && nowNs - lastWsMessageRecvNs.value > cfg.feedStaleNs && queueSize == 0 {
        RecordFeedReceiveStale(nowNs, nowNs - lastWsMessageRecvNs.value);
      } else {
        openStalePeriod := None;
      }
    }

    method LoadSnapshot(bids: seq<RawLevel>, asks: seq<RawLevel>, id: int, nowNs: int, generation: Option<int>)
      returns (result: ApplyResult)
      requires Valid()
      modifies `openStalePeriod, `counters, book
      ensures Valid() && View() == AfterLoad(old(View()), bids, asks, id, nowNs, generation)
      ensures result == SnapshotResult(old(View()).book, bids, asks, id, generation)
    {
      result := book.ApplySnapshot(bids, asks, id, nowNs, generation);
      if result.accepted {
        counters := counters.(snapshotsLoaded := counters.snapshotsLoaded + 1);
        openStalePeriod := None;
      } else {
        counters := counters.(snapshotsFailed := counters.snapshotsFailed + 1);
      }
    }

    method CountRejection(status: ApplyStatus)
      modifies `counters
      ensures View() == WithRejection(old(View()), status)
    {
      counters := counters.(rejected := counters.rejected + 1);
      match status
      case DeltaBeforeSnapshot => counters := counters.(beforeSnapshot := counters.beforeSnapshot + 1);
      case DuplicateDelta => counters := counters.(duplicates := counters.duplicates + 1);
      case SequenceGap => counters := counters.(sequenceGaps := counters.sequenceGaps + 1);
      case BridgeFailed =>
        counters := counters.(bridgeFailures := counters.bridgeFailures + 1);
        counters := counters.(sequenceGaps := counters.sequenceGaps + 1);
      case PreviousIdMismatch => counters := counters.(previousIdMismatches := counters.previousIdMismatches + 1);
      case InvalidDeltaLevels => counters := counters.(invalidDeltas := counters.invalidDeltas + 1);
      case _ =>
    }

    /** Copies the book and validates the copy; a good one gives a sample. */
    method Inspect(e: DepthEvent, clockNs: int, lagNs: Option<int>) returns (built: Option<CleanSample>)
      requires Valid()
      modifies book`bidPricesAsc, book`askPricesAsc
      ensures Valid()
      ensures built == if QualityGood(cfg, old(View()).book, e, clockNs, lagNs)
                       then Some(SampleOf(cfg, old(View()).book, e, clockNs)) else None
    {
      ghost var s := book.View();
      var snap := book.CopySnapshot(cfg.depthN);
      CopyIsUnique(s, cfg.depthN, snap);
      var nowNs := if clockNs > e.recvNs then clockNs else e.recvNs;
      var quality := ValidateWithState(cfg.limits, snap, book, Some(nowNs), lagNs, None, None);
      GoodIffNoErrors(cfg, s, e, clockNs, lagNs, quality.errors);
      if !quality.isValid {
        return None;
      }
      return Some(SampleFrom(snap, quality, book.snapshotReady, book.readyToEmit, book.sequenceContinuous));
    }

    method Judge(e: DepthEvent, clockNs: int, lagNs: Option<int>) returns (verdict: Verdict, sample: Option<CleanSample>)
      requires Valid()
      modifies book`bidPricesAsc, book`askPricesAsc
      ensures Valid()
      ensures verdict == VerdictOn(cfg, old(View()).book, e, clockNs, lagNs)
      ensures verdict == Emit ==> sample == Some(SampleOf(cfg, old(View()).book, e, clockNs))
    {
      sample := Inspect(e, clockNs, lagNs);
      if sample.None? {
        return BlockQuality, None;
      }
      var violations := ValidateCleanSampleSchema(sample.value);
      if violations != {} {
        assert exists v :: v in violations;
        return BlockSchema, None;
      }
      verdict := Emit;
    }

    method MaybeEmitOrBlockSample(e: DepthEvent, clockNs: int, lagNs: Option<int>)
      requires Valid()
      modifies `counters, `cleanSamples, book`bidPricesAsc, book`askPricesAsc
      ensures Valid() && View() == AfterVerdict(old(View()), cfg, e, clockNs, lagNs)
    {
      var verdict, sample := Judge(e, clockNs, lagNs);
      match verdict
      case BlockQuality =>
        counters := counters.(blocked := counters.blocked + 1);
      case BlockSchema =>
        counters := counters.(blocked := counters.blocked + 1);
        counters := counters.(schemaViolations := counters.schemaViolations + 1);
      case Emit =>
        cleanSamples := cleanSamples + [sample.value];
        counters := counters.(emitted := counters.emitted + 1);
    }

    method ProcessDepthUpdate(e: DepthEvent, clockNs: int, lagNs: Option<int>) returns (result: ApplyResult)
      requires Valid()
      modifies this, book
      ensures Valid() && View() == AfterProcess(old(View()), cfg, e, clockNs, lagNs)
      ensures result == DeltaResult(AfterStaleCheck(Noted(old(View()), e), cfg, e.recvNs, true, 0).book, e)
    {
      RecordWsMessageRecv(e);
      CheckStalePeriods(e.recvNs, true, 0);
      result := ApplyAndJudge(e, clockNs, lagNs);
    }

    method RecordWsMessageRecv(e: DepthEvent)
      modifies `counters, `lastWsMessageRecvNs
      ensures View() == Noted(old(View()), e)
    {
      counters := counters.(received := counters.received + 1);
      lastWsMessageRecvNs := Some(e.recvNs);
    }

    method ApplyAndJudge(e: DepthEvent, clockNs: int, lagNs: Option<int>) returns (result: ApplyResult)
      requires Valid()
      modifies `openStalePeriod, `counters, `cleanSamples, book
      ensures Valid() && View() == AfterApply(old(View()), cfg, e, clockNs, lagNs)
      ensures result == DeltaResult(old(View()).book, e)
    {
      result := ApplyToBook(e);
      if result.accepted {
        CountAcceptance();
        MaybeEmitOrBlockSample(e, clockNs, lagNs);
      } else {
        CountRejection(result.status);
      }
    }

    method ApplyToBook(e: DepthEvent) returns (result: ApplyResult)
      requires Valid()
      modifies book
      ensures Valid() && View() == old(View()).(book := AfterDelta(old(View()).book, e))
      ensures result == DeltaResult(old(View()).book, e)
    {
      result := book.ApplyDelta(e);
    }

    method CountAcceptance()
      modifies `openStalePeriod, `counters
      ensures View() == WithAcceptance(old(View()))
    {
      counters := counters.(accepted := counters.accepted + 1);
      openStalePeriod := None;
    }

    /** Trims the queue; a missing bridge closes the book again. */
    method PurgeQueueAfterSnapshot(queue: BoundedQueue, id: int, symbol: string) returns (result: PurgeResult)
      requires Valid() && |queue.items| <= queue.maxSize
      modifies `counters, book, queue
      ensures Valid()
      ensures queue.items == Preserved(old(queue.items), id, symbol, false)
      ensures result.bridgeMissing == BridgeMissing(Events(old(queue.items), symbol), id)
      ensures View() == if BridgeMissing(Events(old(queue.items), symbol), id) then AfterBridgeMissing(old(View()))
                        else old(View())
    {
      result := DrainAndRefill(queue, id, symbol);
      if result.bridgeMissing {
        counters := counters.(bridgesMissing := counters.bridgesMissing + 1);
        book.MarkNotReady(true, None);
      }
    }
  }
}
