/**
  The two checks between a book and the dataset: the quality gate over a copied
  snapshot, and the schema check over the clean sample built from it.
 */
module OrderbookQuality {
  import opened Sides
  import opened Options
  import opened PriceIndex
  import opened TopLevels
  import opened BookModel
  import opened BookRuns
  import opened OrderbookState

  /** Thresholds in nanoseconds; the program keeps them in milliseconds. */
  datatype QualityLimits = QualityLimits(staleAfterNs: int, lagWarningNs: int, lagSevereNs: int)

  datatype Quality = Quality(isValid: bool, errors: set<ErrorCode>, lagWarning: bool, bookAgeNs: Option<int>)

  method TopLevelErrors(snap: BookSnapshot) returns (errors: set<ErrorCode>)
    ensures forall code :: code in errors <==> exists level :: level in snap.bidsTopN + snap.asksTopN && LevelError(level, code)
  {
    errors := LevelErrorsOf(snap.bidsTopN + snap.asksTopN);
  }

  function BookAge(snap: BookSnapshot, nowNs: Option<int>): Option<int> {
    if nowNs.None? || snap.lastBookUpdateNs.None? then None else Some(nowNs.value - snap.lastBookUpdateNs.value)
  }

  predicate Differs(best: Option<real>, reported: Option<real>) {
    best.Some? && reported.Some? && best.value != reported.value
  }

  /** What the snapshot and its circumstances contribute, whatever the book says. */
  ghost predicate SnapshotError(limits: QualityLimits, snap: BookSnapshot, nowNs: Option<int>, lagNs: Option<int>,
                                reportedBid: Option<real>, reportedAsk: Option<real>, code: ErrorCode) {
    || (code == SnapshotInconsistent && snap.snapshotVersion != snap.stateVersion)
    || (exists level :: level in snap.bidsTopN + snap.asksTopN && LevelError(level, code))
    || (code == StaleBook && BookAge(snap, nowNs).Some? && BookAge(snap, nowNs).value > limits.staleAfterNs)
    || (code == QueueLagExceeded && lagNs.Some? && lagNs.value > limits.lagSevereNs)
    || (code == ReportedBestBidMismatch && Differs(snap.bestBid, reportedBid))
    || (code == ReportedBestAskMismatch && Differs(snap.bestAsk, reportedAsk))
  }

  /** What the book contributes. */
  ghost predicate StateError(s: BookState, code: ErrorCode) {
    || code in BookErrors(s.bids, s.asks)
    || (code == SampleBeforeBookReady && !(s.snapshotReady && s.readyToEmit))
    || (code == SequenceGapOrReset && !s.sequenceContinuous)
  }

  ghost predicate QualityFlaw(limits: QualityLimits, s: BookState, snap: BookSnapshot, nowNs: Option<int>, lagNs: Option<int>,
                              reportedBid: Option<real>, reportedAsk: Option<real>, code: ErrorCode) {
    StateError(s, code) || SnapshotError(limits, snap, nowNs, lagNs, reportedBid, reportedAsk, code)
  }

  method CircumstanceErrors(limits: QualityLimits, snap: BookSnapshot, nowNs: Option<int>, lagNs: Option<int>,
                            reportedBid: Option<real>, reportedAsk: Option<real>)
    returns (errors: set<ErrorCode>)
    ensures forall code :: code in errors <==> SnapshotError(limits, snap, nowNs, lagNs, reportedBid, reportedAsk, code)
  {
    errors := TopLevelErrors(snap);
    if snap.snapshotVersion != snap.stateVersion {
      errors := errors + {SnapshotInconsistent};
    }
    var age := BookAge(snap, nowNs);
    if age.Some? && age.value > limits.staleAfterNs {
      errors := errors + {StaleBook};
    }
    if lagNs.Some? && lagNs.value > limits.lagSevereNs {
      errors := errors + {QueueLagExceeded};
    }
    if Differs(snap.bestBid, reportedBid) {
      errors := errors + {ReportedBestBidMismatch};
    }
    if Differs(snap.bestAsk, reportedAsk) {
      errors := errors + {ReportedBestAskMismatch};
    }
  }

  method StateErrors(book: OrderbookState) returns (errors: set<ErrorCode>)
    requires book.Valid()
    modifies book`bidPricesAsc, book`askPricesAsc
    ensures book.Valid()
    ensures forall code :: code in errors <==> StateError(old(book.View()), code)
  {
    errors := book.Validate();
    if !book.snapshotReady || !book.readyToEmit {
      errors := errors + {SampleBeforeBookReady};
    }
    if !book.sequenceContinuous {
      errors := errors + {SequenceGapOrReset};
    }
  }

  /** `validate` with the state at hand. */
  method ValidateWithState(limits: QualityLimits, snap: BookSnapshot, book: OrderbookState, nowNs: Option<int>,
                           lagNs: Option<int>, reportedBid: Option<real>, reportedAsk: Option<real>)
    returns (q: Quality)
    requires book.Valid()
    modifies book`bidPricesAsc, book`askPricesAsc
    ensures book.Valid()
    ensures forall code :: code in q.errors <==>
      QualityFlaw(limits, old(book.View()), snap, nowNs, lagNs, reportedBid, reportedAsk, code)
    ensures q.isValid == (q.errors == {}) && q.bookAgeNs == BookAge(snap, nowNs)
    ensures q.lagWarning <==> lagNs.Some? && limits.lagWarningNs < lagNs.value <= limits.lagSevereNs
  {
    var errors := StateErrors(book);
    var rest := CircumstanceErrors(limits, snap, nowNs, lagNs, reportedBid, reportedAsk);
    errors := errors + rest;
    q := Quality(errors == {}, errors, LagWarning(limits, lagNs), BookAge(snap, nowNs));
  }

  /** `validate` without a state: only the snapshot's own structure is checked. */
  method ValidateAlone(limits: QualityLimits, snap: BookSnapshot, nowNs: Option<int>,
                       lagNs: Option<int>, reportedBid: Option<real>, reportedAsk: Option<real>)
    returns (q: Quality)
    ensures forall code :: code in q.errors <==>
      || StructureError(snap.bidCount, snap.askCount, snap.bestBid, snap.bestAsk, code)
      || SnapshotError(limits, snap, nowNs, lagNs, reportedBid, reportedAsk, code)
    ensures q.isValid == (q.errors == {}) && q.bookAgeNs == BookAge(snap, nowNs)
    ensures q.lagWarning <==> lagNs.Some? && limits.lagWarningNs < lagNs.value <= limits.lagSevereNs
  {
    var errors := StructureErrors(snap.bidCount, snap.askCount, snap.bestBid, snap.bestAsk);
    var rest := CircumstanceErrors(limits, snap, nowNs, lagNs, reportedBid, reportedAsk);
    errors := errors + rest;
    q := Quality(errors == {}, errors, LagWarning(limits, lagNs), BookAge(snap, nowNs));
  }

  function LagWarning(limits: QualityLimits, lagNs: Option<int>): bool {
    lagNs.Some? && limits.lagWarningNs < lagNs.value <= limits.lagSevereNs
  }

  // ---- Snapshot errors against book errors ----

  lemma BestOfCopy(side: BookSide, m: Sizes, n: int, levels: Levels)
    requires IsBestN(side, m, n, levels) && n >= 1
    ensures levels == [] <==> |m| == 0
    ensures levels != [] ==> levels[0].0 in m && forall p :: p in m ==> p == levels[0].0 || Beats(side, levels[0].0, p)
  {
    if levels != [] {
      forall p | p in m ensures p == levels[0].0 || Beats(side, levels[0].0, p) {
        if ListsPrice(levels, p) {
          var k :| 0 <= k < |levels| && levels[k].0 == p;
        }
      }
    }
  }

  /** A copy that keeps at least one level a side shows the structural errors of the whole book, and no others. */
  lemma SnapshotSeesBookErrors(s: BookState, n: int, snap: BookSnapshot, code: ErrorCode)
    requires Positive(s.bids) && Positive(s.asks) && Copies(s, n, snap) && n >= 1
    ensures StructureError(snap.bidCount, snap.askCount, snap.bestBid, snap.bestAsk, code) <==> code in BookErrors(s.bids, s.asks)
  {
    BestOfCopy(Bid, s.bids, n, snap.bidsTopN);
    BestOfCopy(Ask, s.asks, n, snap.asksTopN);
    assert Crossed(s.bids, s.asks) <==> snap.bestBid.Some? && snap.bestAsk.Some? && snap.bestBid.value >= snap.bestAsk.value;
  }

  /** A copy with no levels reports missing best prices: the two agree on all codes exactly then or for an empty book. */
  lemma EmptyCopyHidesBook(s: BookState, n: int, snap: BookSnapshot)
    requires Positive(s.bids) && Positive(s.asks) && Copies(s, n, snap)
    ensures (forall code :: StructureError(snap.bidCount, snap.askCount, snap.bestBid, snap.bestAsk, code) <==>
                            code in BookErrors(s.bids, s.asks))
            <==> n >= 1 || (|s.bids| == 0 && |s.asks| == 0)
  {
    if n >= 1 {
      forall code ensures StructureError(snap.bidCount, snap.askCount, snap.bestBid, snap.bestAsk, code) <==>
                          code in BookErrors(s.bids, s.asks) {
        SnapshotSeesBookErrors(s, n, snap, code);
      }
    } else {
      assert StructureError(snap.bidCount, snap.askCount, snap.bestBid, snap.bestAsk, BestBidMissing);
      assert StructureError(snap.bidCount, snap.askCount, snap.bestBid, snap.bestAsk, BestAskMissing);
      if |s.bids| == 0 && |s.asks| == 0 {
        assert !Crossed(s.bids, s.asks);
      }
    }
  }

  // ---- The clean sample and its schema ----

  datatype CleanSample = CleanSample(
    generation: nat,
    stateVersion: nat,
    snapshotVersion: nat,
    lastUpdateId: Option<int>,
    bids: Levels,
    asks: Levels,
    bestBid: Option<real>,
    bestAsk: Option<real>,
    spread: Option<real>,
    mid: Option<real>,
    bidCount: nat,
    askCount: nat,
    bookAgeNs: Option<int>,
    qualityErrors: set<ErrorCode>,
    snapshotReady: bool,
    readyToEmit: bool,
    sequenceContinuous: bool)

  function SampleFrom(snap: BookSnapshot, q: Quality, snapshotReady: bool, readyToEmit: bool,
                      sequenceContinuous: bool): CleanSample {
    CleanSample(snap.generation, snap.stateVersion, snap.snapshotVersion, snap.lastUpdateId, snap.bidsTopN, snap.asksTopN,
                snap.bestBid, snap.bestAsk, snap.spread, snap.mid, snap.bidCount, snap.askCount,
                q.bookAgeNs, q.errors, snapshotReady, readyToEmit, sequenceContinuous)
  }

  datatype Violation =
    | LastUpdateIdNull | BestBidNull | BestAskNull | BookAgeNull
    | BidsEmpty | AsksEmpty | BadPrice | BadSize | ZeroSizeLevel | BidsUnsorted | AsksUnsorted
    | CrossedSample | BookAgeNegative | QualityErrorsPresent
    | SnapshotNotReady | NotReadyToEmit | SequenceNotContinuous

  predicate Unsorted(side: BookSide, levels: Levels) {
    exists i, j :: 0 <= i < j < |levels| && Beats(side, levels[j].0, levels[i].0)
  }

  predicate LevelViolation(level: (real, real), v: Violation) {
    match v
    case BadPrice => level.0 <= 0.0
    case BadSize => level.1 < 0.0
    case ZeroSizeLevel => level.1 == 0.0
    case _ => false
  }

  predicate MissingField(sample: CleanSample, v: Violation) {
    match v
    case LastUpdateIdNull => sample.lastUpdateId.None?
    case BestBidNull => sample.bestBid.None?
    case BestAskNull => sample.bestAsk.None?
    case BookAgeNull => sample.bookAgeNs.None?
    case BidsEmpty => sample.bids == []
    case AsksEmpty => sample.asks == []
    case _ => false
  }

  predicate BadField(sample: CleanSample, v: Violation) {
    match v
    case BidsUnsorted => Unsorted(Bid, sample.bids)
    case AsksUnsorted => Unsorted(Ask, sample.asks)
    case CrossedSample => sample.bestBid.Some? && sample.bestAsk.Some? && sample.bestBid.value >= sample.bestAsk.value
    case BookAgeNegative => sample.bookAgeNs.Some? && sample.bookAgeNs.value < 0
    case _ => false
  }

  predicate ClosedGate(sample: CleanSample, v: Violation) {
    match v
    case QualityErrorsPresent => sample.qualityErrors != {}
    case SnapshotNotReady => !sample.snapshotReady
    case NotReadyToEmit => !sample.readyToEmit
    case SequenceNotContinuous => !sample.sequenceContinuous
    case _ => false
  }

  ghost predicate Violates(sample: CleanSample, v: Violation) {
    || MissingField(sample, v)
    || BadField(sample, v)
    || ClosedGate(sample, v)
    || (exists level :: level in sample.bids && LevelViolation(level, v))
    || (exists level :: level in sample.asks && LevelViolation(level, v))
  }

  method ValidateSampleLevels(levels: Levels) returns (violations: set<Violation>)
    ensures forall v :: v in violations <==> exists level :: level in levels && LevelViolation(level, v)
  {
    violations := {};
    for i := 0 to |levels|
      invariant forall v :: v in violations <==> exists k :: 0 <= k < i && LevelViolation(levels[k], v)
    {
      if levels[i].0 <= 0.0 {
        violations := violations + {BadPrice};
      }
      if levels[i].1 < 0.0 {
        violations := violations + {BadSize};
      }
      if levels[i].1 == 0.0 {
        violations := violations + {ZeroSizeLevel};
      }
    }
  }

  method MissingFields(sample: CleanSample) returns (violations: set<Violation>)
    ensures forall v :: v in violations <==> MissingField(sample, v)
  {
    violations := {};
    if sample.lastUpdateId.None? { violations := violations + {LastUpdateIdNull}; }
    if sample.bestBid.None? { violations := violations + {BestBidNull}; }
    if sample.bestAsk.None? { violations := violations + {BestAskNull}; }
    if sample.bookAgeNs.None? { violations := violations + {BookAgeNull}; }
    if sample.bids == [] { violations := violations + {BidsEmpty}; }
    if sample.asks == [] { violations := violations + {AsksEmpty}; }
  }

  method BadFields(sample: CleanSample) returns (violations: set<Violation>)
    ensures forall v :: v in violations <==> BadField(sample, v)
  {
    violations := {};
    if Unsorted(Bid, sample.bids) { violations := violations + {BidsUnsorted}; }
    if Unsorted(Ask, sample.asks) { violations := violations + {AsksUnsorted}; }
    if sample.bestBid.Some? && sample.bestAsk.Some? && sample.bestBid.value >= sample.bestAsk.value {
      violations := violations + {CrossedSample};
    }
    if sample.bookAgeNs.Some? && sample.bookAgeNs.value < 0 { violations := violations + {BookAgeNegative}; }
  }

  method ClosedGates(sample: CleanSample) returns (violations: set<Violation>)
    ensures forall v :: v in violations <==> ClosedGate(sample, v)
  {
    violations := {};
    if sample.qualityErrors != {} { violations := violations + {QualityErrorsPresent}; }
    if !sample.snapshotReady { violations := violations + {SnapshotNotReady}; }
    if !sample.readyToEmit { violations := violations + {NotReadyToEmit}; }
    if !sample.sequenceContinuous { violations := violations + {SequenceNotContinuous}; }
  }

  method ValidateCleanSampleSchema(sample: CleanSample) returns (violations: set<Violation>)
    ensures forall v :: v in violations <==> Violates(sample, v)
  {
    var missing := MissingFields(sample);
    var bad := BadFields(sample);
    var gates := ClosedGates(sample);
    var ofBids := ValidateSampleLevels(sample.bids);
    var ofAsks := ValidateSampleLevels(sample.asks);
    violations := missing + bad + gates + ofBids + ofAsks;
  }

  /** The sample the processor builds from book `s` with `n` levels a side, once its quality is good. */
  ghost predicate BuiltFrom(s: BookState, n: int, snap: BookSnapshot, q: Quality, sample: CleanSample) {
    && Copies(s, n, snap)
    && q.errors == {} && q.bookAgeNs.Some? && q.bookAgeNs.value >= 0
    && BookErrors(s.bids, s.asks) == {}
    && sample == SampleFrom(snap, q, s.snapshotReady, s.readyToEmit, s.sequenceContinuous)
  }

  lemma BestLevelsAreSound(side: BookSide, m: Sizes, n: int, levels: Levels)
    requires Positive(m) && IsBestN(side, m, n, levels)
    ensures !Unsorted(side, levels)
    ensures forall level, v :: level in levels ==> !LevelViolation(level, v)
  {
    forall i, j | 0 <= i < j < |levels| ensures !Beats(side, levels[j].0, levels[i].0) {
      assert Beats(side, levels[i].0, levels[j].0);
    }
    forall level, v | level in levels ensures !LevelViolation(level, v) {
      var i :| 0 <= i < |levels| && levels[i] == level;
      assert levels[i].0 in m && m[levels[i].0] == levels[i].1;
    }
  }

  /**
    Builder and schema check agree exactly when at least one level a side is
    kept: then no sample of a live, sound book is ever refused.
   */
  lemma SchemaAcceptsIff(s: BookState, n: int, snap: BookSnapshot, q: Quality, sample: CleanSample)
    requires Inv(s) && s.snapshotReady && s.readyToEmit && s.sequenceContinuous
    requires BuiltFrom(s, n, snap, q, sample)
    ensures (forall v :: !Violates(sample, v)) <==> n >= 1
  {
    if n >= 1 {
      BestOfCopy(Bid, s.bids, n, snap.bidsTopN);
      BestOfCopy(Ask, s.asks, n, snap.asksTopN);
      BestLevelsAreSound(Bid, s.bids, n, snap.bidsTopN);
      BestLevelsAreSound(Ask, s.asks, n, snap.asksTopN);
      assert OneSideMissing !in BookErrors(s.bids, s.asks) && CrossedBook !in BookErrors(s.bids, s.asks);
      assert !Crossed(s.bids, s.asks);
      forall v ensures !Violates(sample, v) {}
    } else {
      assert Violates(sample, BidsEmpty);
    }
  }
}
