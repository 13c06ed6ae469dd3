/**
  The exchange's side of the protocol. It passes through a history of books,
  one per update id; what reaches the program are range events and snapshots
  cut from that history, lost, repeated or reordered on the way. A ready local
  book equals the exchange's book at its id on every price it can know.
 */
module ExchangeTruth {
  import opened Sides
  import opened Options
  import opened PriceIndex
  import opened TopLevels
  import opened BookModel
  import opened BookRuns

  datatype Truth = Truth(bids: Sizes, asks: Sizes)

  /** The exchange's book after each update id. */
  type History = int -> Truth

  function SideOf(t: Truth, side: BookSide): Sizes {
    if side == Bid then t.bids else t.asks
  }

  ghost predicate Sound(h: History) {
    forall k :: Positive(h(k).bids) && Positive(h(k).asks)
  }

  ghost predicate Mentions(levels: seq<Level>, p: real) {
    exists i :: 0 <= i < |levels| && levels[i].price == p
  }

  /**
    The levels of an honest event over `first..final`: each carries the size at
    `final`, and a price it leaves out did not change over the range.
   */
  ghost predicate HonestLevels(h: History, side: BookSide, first: int, final: int, levels: seq<Level>) {
    && (forall i :: 0 <= i < |levels| ==> levels[i].size == SizeAt(SideOf(h(final), side), levels[i].price))
    && (forall p, k :: first - 1 <= k <= final && !Mentions(levels, p) ==>
          SizeAt(SideOf(h(k), side), p) == SizeAt(SideOf(h(final), side), p))
  }

  /** A malformed event may carry anything: it is never applied. */
  ghost predicate HonestEvent(h: History, e: DepthEvent) {
    CleanEvent(e) ==>
      && HonestLevels(h, Bid, e.first, e.final, Parsed(e.bids, true))
      && HonestLevels(h, Ask, e.first, e.final, Parsed(e.asks, true))
  }

  /**
    The prices one side of a snapshot of at most `limit` levels speaks for: all
    of them if it is shorter than the limit, else those no worse than a listed one.
   */
  ghost function Covered(side: BookSide, limit: Option<nat>, m: Sizes): Prices {
    iset p: real | SpeaksFor(side, limit, m, p)
  }

  ghost predicate SpeaksFor(side: BookSide, limit: Option<nat>, m: Sizes, p: real) {
    limit.None? || |m| < limit.value || exists q :: q in m && (p == q || Beats(side, p, q))
  }

  ghost predicate HonestSnapshot(h: History, limit: Option<nat>, bids: seq<RawLevel>, asks: seq<RawLevel>, id: int) {
    Clean(bids, false) && Clean(asks, false) ==>
      && HonestDepth(SideOf(h(id), Bid), Bid, limit, WithLevels(map[], Parsed(bids, false)))
      && HonestDepth(SideOf(h(id), Ask), Ask, limit, WithLevels(map[], Parsed(asks, false)))
  }

  ghost predicate HonestDepth(truth: Sizes, side: BookSide, limit: Option<nat>, m: Sizes) {
    forall p :: p in Covered(side, limit, m) ==> SizeAt(m, p) == SizeAt(truth, p)
  }

  // ---- What a local side knows ----

  /** The local side is the true side on the known prices and empty elsewhere. */
  ghost predicate Knows(m: Sizes, truth: Sizes, known: Prices) {
    && (forall p :: p in known ==> SizeAt(m, p) == SizeAt(truth, p))
    && (forall p :: p in m ==> p in known)
  }

  lemma KnowsMeansRestrict(m: Sizes, truth: Sizes, known: Prices)
    requires Positive(m) && Positive(truth) && Knows(m, truth, known)
    ensures m == Restrict(truth, known)
  {
    forall p ensures p in m <==> p in Restrict(truth, known) {
      if p in known { assert SizeAt(m, p) == SizeAt(truth, p); }
    }
    forall p | p in m ensures m[p] == Restrict(truth, known)[p] {
      assert SizeAt(m, p) == SizeAt(truth, p);
    }
  }

  lemma {:induction false} LevelsCarryTruth(m: Sizes, truth: Sizes, levels: seq<Level>, p: real)
    requires forall i :: 0 <= i < |levels| ==> levels[i].size == SizeAt(truth, levels[i].price)
    ensures SizeAt(WithLevels(m, levels), p) == if Mentions(levels, p) then SizeAt(truth, p) else SizeAt(m, p)
    ensures p in WithLevels(m, levels) ==> p in m || Mentions(levels, p)
  {
    if levels != [] {
      var front, last := levels[..|levels| - 1], levels[|levels| - 1];
      LevelsCarryTruth(m, truth, front, p);
      assert Mentions(levels, p) <==> Mentions(front, p) || last.price == p by {
        if Mentions(front, p) {
          var i :| 0 <= i < |front| && front[i].price == p;
          assert levels[i].price == p;
        }
        if last.price == p { assert levels[|levels| - 1].price == p; }
      }
    }
  }

  ghost function Mentioned(levels: seq<Level>): Prices {
    iset p: real | Mentions(levels, p)
  }

  /**
    A delta whose range reaches the local id, overlapping it or not, brings the
    side to the exchange's side at the delta's last id.
   */
  lemma DeltaBringsTruth(h: History, side: BookSide, m: Sizes, known: Prices, last: int,
                         first: int, final: int, levels: seq<Level>)
    requires Knows(m, SideOf(h(last), side), known)
    requires first - 1 <= last <= final
    requires HonestLevels(h, side, first, final, levels)
    ensures Knows(WithLevels(m, levels), SideOf(h(final), side), known + Mentioned(levels))
  {
    var truth := SideOf(h(final), side);
    forall p ensures p in known + Mentioned(levels) ==> SizeAt(WithLevels(m, levels), p) == SizeAt(truth, p)
             ensures p in WithLevels(m, levels) ==> p in known + Mentioned(levels) {
      LevelsCarryTruth(m, truth, levels, p);
    }
  }

  lemma SnapshotBringsTruth(truth: Sizes, side: BookSide, limit: Option<nat>, m: Sizes)
    requires HonestDepth(truth, side, limit, m)
    ensures Knows(m, truth, Covered(side, limit, m))
  {}

  // ---- The whole book ----

  /** Which prices of each side the local book can speak for. */
  datatype Known = Known(bids: Prices, asks: Prices)

  ghost const NOTHING_KNOWN := Known(iset{}, iset{})

  ghost predicate BookTrue(h: History, s: BookState, known: Known) {
    s.snapshotReady ==>
      && s.lastUpdateId.Some?
      && Knows(s.bids, h(s.lastUpdateId.value).bids, known.bids)
      && Knows(s.asks, h(s.lastUpdateId.value).asks, known.asks)
  }

  ghost function KnownAfterSnapshot(known: Known, s: BookState, limit: Option<nat>, bids: seq<RawLevel>,
                                    asks: seq<RawLevel>, id: int, generation: Option<int>): Known {
    if SnapshotStatus(s, bids, asks, id, generation) == SnapshotLoaded
    then Known(Covered(Bid, limit, WithLevels(map[], Parsed(bids, false))),
               Covered(Ask, limit, WithLevels(map[], Parsed(asks, false))))
    else known
  }

  ghost function KnownAfterDelta(known: Known, s: BookState, e: DepthEvent): Known {
    if DeltaStatus(s, e) == DeltaApplied
    then Known(known.bids + Mentioned(Parsed(e.bids, true)), known.asks + Mentioned(Parsed(e.asks, true)))
    else known
  }

  lemma TrueAfterSnapshot(h: History, s: BookState, known: Known, limit: Option<nat>, bids: seq<RawLevel>,
                          asks: seq<RawLevel>, id: int, nowNs: int, generation: Option<int>)
    requires BookTrue(h, s, known) && HonestSnapshot(h, limit, bids, asks, id)
    ensures BookTrue(h, AfterSnapshot(s, bids, asks, id, nowNs, generation),
                     KnownAfterSnapshot(known, s, limit, bids, asks, id, generation))
  {
    if SnapshotStatus(s, bids, asks, id, generation) == SnapshotLoaded {
      SnapshotBringsTruth(h(id).bids, Bid, limit, WithLevels(map[], Parsed(bids, false)));
      SnapshotBringsTruth(h(id).asks, Ask, limit, WithLevels(map[], Parsed(asks, false)));
    }
  }

  lemma {:induction false} TrueAfterDelta(h: History, s: BookState, known: Known, e: DepthEvent)
    requires Inv(s) && BookTrue(h, s, known) && HonestEvent(h, e)
    ensures BookTrue(h, AfterDelta(s, e), KnownAfterDelta(known, s, e))
  {
    if DeltaStatus(s, e) == DeltaApplied {
      DeltaAcceptedIff(s, e);
      var last := s.lastUpdateId.value;
      DeltaBringsTruth(h, Bid, s.bids, known.bids, last, e.first, e.final, Parsed(e.bids, true));
      DeltaBringsTruth(h, Ask, s.asks, known.asks, last, e.first, e.final, Parsed(e.asks, true));
    }
  }

  /** The best levels read off a ready book are those of the exchange's book, cut to the known prices. */
  lemma ReadyBookShowsTruth(h: History, s: BookState, known: Known, n: int, bids: Levels, asks: Levels)
    requires Sound(h) && Inv(s) && s.snapshotReady && BookTrue(h, s, known)
    requires IsBestN(Bid, s.bids, n, bids) && IsBestN(Ask, s.asks, n, asks)
    ensures IsBestN(Bid, Restrict(h(s.lastUpdateId.value).bids, known.bids), n, bids)
    ensures IsBestN(Ask, Restrict(h(s.lastUpdateId.value).asks, known.asks), n, asks)
  {
    KnowsMeansRestrict(s.bids, h(s.lastUpdateId.value).bids, known.bids);
    KnowsMeansRestrict(s.asks, h(s.lastUpdateId.value).asks, known.asks);
  }

  /**
    A check on the sample alone: if all `n` places are filled and the worst
    level is no worse than some price the snapshot listed, the levels are the
    exchange's best `n`, however short the snapshot was.
   */
  lemma AboveCutoffIsExact(side: BookSide, truth: Sizes, known: Prices, limit: Option<nat>, loaded: Sizes, q: real,
                           n: nat, levels: Levels)
    requires Covered(side, limit, loaded) <= known && q in loaded
    requires IsBestN(side, Restrict(truth, known), n, levels)
    requires |levels| == n > 0 && (levels[n - 1].0 == q || Beats(side, levels[n - 1].0, q))
    ensures IsBestN(side, truth, n, levels)
  {
    forall p, i | p in truth && p !in known && 0 <= i < |levels| ensures Beats(side, levels[i].0, p) {
      assert p !in Covered(side, limit, loaded);
      assert !(p == q || Beats(side, p, q));
    }
    BestOfKnownIsBest(side, truth, known, n, levels);
  }
}
