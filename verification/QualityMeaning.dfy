/** What each code of the quality gate and of the sample schema tells, on the books' levels and the sample's fields. */
module QualityMeaning {
  import opened Sides
  import opened Options
  import opened PriceIndex
  import opened TopLevels
  import opened BookModel
  import opened OrderbookState
  import opened OrderbookQuality

  predicate Holds(m: Sizes) {
    m != map[]
  }

  /** The codes of a book with positive levels: which sides hold something, and whether some bid reaches some ask. */
  lemma BookErrorsMean(bids: Sizes, asks: Sizes, code: ErrorCode)
    requires Positive(bids) && Positive(asks)
    ensures code in BookErrors(bids, asks) <==>
      || (code == BookEmpty && !Holds(bids) && !Holds(asks))
      || (code == OneSideMissing && (!Holds(bids) || !Holds(asks)))
      || (code == BestBidMissing && !Holds(bids))
      || (code == BestAskMissing && !Holds(asks))
      || (code == CrossedBook && exists p, q :: p in bids && q in asks && p >= q)
  {}

  /** `best` is the first price of a side, if it has one. */
  ghost predicate BestOfSide(side: BookSide, m: Sizes, best: Option<real>) {
    if best.None? then |m| == 0
    else (best.value in m && forall p :: p in m ==> if side == Bid then p <= best.value else p >= best.value)
  }

  lemma CopiedBestIsBest(side: BookSide, m: Sizes, n: int, levels: Levels)
    requires n >= 1 && IsBestN(side, m, n, levels)
    ensures BestOfSide(side, m, FirstPrice(levels))
  {
    BestOfCopy(side, m, n, levels);
  }

  predicate DiffersFrom(best: Option<real>, reported: Option<real>) {
    best.Some? && reported.Some? && best.value != reported.value
  }

  lemma CircumstanceCodesMean(limits: QualityLimits, s: BookState, n: int, snap: BookSnapshot, nowNs: Option<int>,
                              lagNs: Option<int>, reportedBid: Option<real>, reportedAsk: Option<real>, code: ErrorCode)
    requires Positive(s.bids) && Positive(s.asks) && Copies(s, n, snap)
    ensures SnapshotError(limits, snap, nowNs, lagNs, reportedBid, reportedAsk, code) <==>
      || (code == StaleBook && nowNs.Some? && s.lastBookUpdateNs.Some?
          && nowNs.value - s.lastBookUpdateNs.value > limits.staleAfterNs)
      || (code == QueueLagExceeded && lagNs.Some? && lagNs.value > limits.lagSevereNs)
      || (code == ReportedBestBidMismatch && DiffersFrom(snap.bestBid, reportedBid))
      || (code == ReportedBestAskMismatch && DiffersFrom(snap.bestAsk, reportedAsk))
  {
    CopyHasNoLevelErrors(s, n, snap, code);
  }

  lemma StateCodesMean(s: BookState, code: ErrorCode)
    ensures StateError(s, code) <==>
      || code in BookErrors(s.bids, s.asks)
      || (code == SampleBeforeBookReady && (!s.snapshotReady || !s.readyToEmit))
      || (code == SequenceGapOrReset && !s.sequenceContinuous)
  {}

  /** A copy that keeps a level a side shows each side's best price. */
  lemma CopyShowsBest(s: BookState, n: int, snap: BookSnapshot, bestBid: Option<real>, bestAsk: Option<real>)
    requires n >= 1 && Copies(s, n, snap)
    requires BestOfSide(Bid, s.bids, bestBid) && BestOfSide(Ask, s.asks, bestAsk)
    ensures snap.bestBid == bestBid && snap.bestAsk == bestAsk
  {
    CopiedBestIsBest(Bid, s.bids, n, snap.bidsTopN);
    CopiedBestIsBest(Ask, s.asks, n, snap.asksTopN);
    SameBest(Bid, s.bids, bestBid, snap.bestBid);
    SameBest(Ask, s.asks, bestAsk, snap.bestAsk);
  }

  /**
    The codes of a copy that keeps a level a side, judged at `nowNs`: the book's
    own, the gates that are closed, age and lag past their limits, and reported
    prices that are not the book's best.
   */
  lemma {:induction false} QualityCodesMean(limits: QualityLimits, s: BookState, n: int, snap: BookSnapshot, nowNs: Option<int>,
                                            lagNs: Option<int>, reportedBid: Option<real>, reportedAsk: Option<real>,
                                            bestBid: Option<real>, bestAsk: Option<real>, code: ErrorCode)
    requires Positive(s.bids) && Positive(s.asks) && n >= 1 && Copies(s, n, snap)
    requires BestOfSide(Bid, s.bids, bestBid) && BestOfSide(Ask, s.asks, bestAsk)
    ensures QualityFlaw(limits, s, snap, nowNs, lagNs, reportedBid, reportedAsk, code) <==>
      || code in BookErrors(s.bids, s.asks)
      || (code == SampleBeforeBookReady && (!s.snapshotReady || !s.readyToEmit))
      || (code == SequenceGapOrReset && !s.sequenceContinuous)
      || (code == StaleBook && nowNs.Some? && s.lastBookUpdateNs.Some?
          && nowNs.value - s.lastBookUpdateNs.value > limits.staleAfterNs)
      || (code == QueueLagExceeded && lagNs.Some? && lagNs.value > limits.lagSevereNs)
      || (code == ReportedBestBidMismatch && DiffersFrom(bestBid, reportedBid))
      || (code == ReportedBestAskMismatch && DiffersFrom(bestAsk, reportedAsk))
  {
    CopyShowsBest(s, n, snap, bestBid, bestAsk);
    StateCodesMean(s, code);
    CircumstanceCodesMean(limits, s, n, snap, nowNs, lagNs, reportedBid, reportedAsk, code);
  }

  lemma SameBest(side: BookSide, m: Sizes, a: Option<real>, b: Option<real>)
    requires BestOfSide(side, m, a) && BestOfSide(side, m, b)
    ensures a == b
  {
    if |m| == 0 {
      forall q ensures q !in m {}
    } else {
      var x, y := a.value, b.value;
      assert x in m && y in m;
      assert if side == Bid then y <= x else y >= x;
      assert if side == Bid then x <= y else x >= y;
      assert x == y;
    }
  }

  lemma CopyHasNoLevelErrors(s: BookState, n: int, snap: BookSnapshot, code: ErrorCode)
    requires Positive(s.bids) && Positive(s.asks) && Copies(s, n, snap)
    ensures !exists level :: level in snap.bidsTopN + snap.asksTopN && LevelError(level, code)
  {
    BestLevelsAreSound(Bid, s.bids, n, snap.bidsTopN);
    BestLevelsAreSound(Ask, s.asks, n, snap.asksTopN);
    forall level | level in snap.bidsTopN + snap.asksTopN ensures !LevelError(level, code) {
      assert !LevelViolation(level, BadPrice) && !LevelViolation(level, BadSize) && !LevelViolation(level, ZeroSizeLevel);
    }
  }

  /** Best first, with positive prices and sizes. */
  ghost predicate SoundSide(side: BookSide, levels: Levels) {
    && levels != []
    && (forall i :: 0 <= i < |levels| ==> levels[i].0 > 0.0 && levels[i].1 > 0.0)
    && (forall i, j :: 0 <= i < j < |levels| ==> if side == Bid then levels[i].0 >= levels[j].0 else levels[i].0 <= levels[j].0)
  }

  /** What the schema asks of a sample. */
  ghost predicate SoundSample(sample: CleanSample) {
    && sample.lastUpdateId.Some?
    && SoundSide(Bid, sample.bids) && SoundSide(Ask, sample.asks)
    && sample.bestBid.Some? && sample.bestAsk.Some? && sample.bestBid.value < sample.bestAsk.value
    && sample.bookAgeNs.Some? && sample.bookAgeNs.value >= 0
    && sample.qualityErrors == {}
    && sample.snapshotReady && sample.readyToEmit && sample.sequenceContinuous
  }

  lemma SideIsSoundIff(side: BookSide, levels: Levels)
    ensures SoundSide(side, levels) <==>
      levels != [] && !Unsorted(side, levels) && forall level, v :: level in levels ==> !LevelViolation(level, v)
  {
    if levels != [] && !Unsorted(side, levels) && forall level, v :: level in levels ==> !LevelViolation(level, v) {
      forall i | 0 <= i < |levels| ensures levels[i].0 > 0.0 && levels[i].1 > 0.0 {
        assert !LevelViolation(levels[i], BadPrice) && !LevelViolation(levels[i], BadSize);
        assert !LevelViolation(levels[i], ZeroSizeLevel);
      }
      forall i, j | 0 <= i < j < |levels|
        ensures if side == Bid then levels[i].0 >= levels[j].0 else levels[i].0 <= levels[j].0 {
        assert !Beats(side, levels[j].0, levels[i].0);
      }
    }
    if SoundSide(side, levels) {
      forall level, v | level in levels ensures !LevelViolation(level, v) {
        var i :| 0 <= i < |levels| && levels[i] == level;
      }
    }
  }

  /** A sample passes the schema exactly when it is sound. */
  lemma SchemaPassesIff(sample: CleanSample)
    ensures (forall v :: !Violates(sample, v)) <==> SoundSample(sample)
  {
    SideIsSoundIff(Bid, sample.bids);
    SideIsSoundIff(Ask, sample.asks);
    if forall v :: !Violates(sample, v) {
      assert !Violates(sample, LastUpdateIdNull) && !Violates(sample, BestBidNull) && !Violates(sample, BestAskNull);
      assert !Violates(sample, BookAgeNull) && !Violates(sample, BidsEmpty) && !Violates(sample, AsksEmpty);
      assert !Violates(sample, BidsUnsorted) && !Violates(sample, AsksUnsorted) && !Violates(sample, CrossedSample);
      assert !Violates(sample, BookAgeNegative) && !Violates(sample, QualityErrorsPresent);
      assert !Violates(sample, SnapshotNotReady) && !Violates(sample, NotReadyToEmit) && !Violates(sample, SequenceNotContinuous);
      forall level, v | level in sample.bids || level in sample.asks ensures !LevelViolation(level, v) {
        assert !Violates(sample, v);
      }
    }
  }
}
