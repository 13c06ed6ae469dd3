/**
  The test of an emitted side cannot be weakened: where it fails, the same
  messages fit an exchange whose best levels are others.
 */
module CutoffIsTight {
  import opened Sides
  import opened Options
  import opened PriceIndex
  import opened TopLevels
  import opened BookModel
  import OrderbookState
  import opened QueuePurge
  import opened ExchangeTruth
  import opened Processor
  import opened Capture
  import opened OrderbookQuality
  import opened DepthCutoff

  // ---- Another exchange that sends the same messages ----

  /** The exchange `h` with one more order, resting at `p` all the time. */
  function WithPrice(h: History, side: BookSide, p: real): History {
    k => if side == Bid then Truth(h(k).bids[p := 1.0], h(k).asks) else Truth(h(k).bids, h(k).asks[p := 1.0])
  }

  function RowsOf(e: DepthEvent, side: BookSide): seq<RawLevel> {
    if side == Bid then e.bids else e.asks
  }

  function PricesOf(levels: seq<Level>): seq<real> {
    seq(|levels|, i requires 0 <= i < |levels| => levels[i].price)
  }

  /** The prices that the received events mention. */
  function Said(w: Setting, steps: seq<Step>, side: BookSide): seq<real> {
    if steps == [] then []
    else
      var step := steps[|steps| - 1];
      Said(w, steps[..|steps| - 1], side)
      + if step.Receive? && Relevant(step.envelope, w.symbol) then PricesOf(Parsed(RowsOf(step.envelope.event, side), true)) else []
  }

  /** Not a snapshot that reaches deeper than `loaded`. */
  ghost predicate NotDeeper(w: Setting, step: Step, side: BookSide, loaded: Sizes) {
    step.SnapshotArrives? && Clean(step.bids, false) && Clean(step.asks, false) ==>
      Covered(side, w.depthLimit, SideOf(LoadedSides(step), side)) <= Covered(side, w.depthLimit, loaded)
  }

  /** No clean snapshot of the run reached deeper than the last one taken. */
  ghost predicate NoneDeeper(w: Setting, steps: seq<Step>, side: BookSide, loaded: Sizes) {
    forall i :: 0 <= i < |steps| ==> NotDeeper(w, steps[i], side, loaded)
  }

  lemma {:induction false} SaidHas(w: Setting, steps: seq<Step>, side: BookSide, i: nat, p: real)
    requires i < |steps| && steps[i].Receive? && Relevant(steps[i].envelope, w.symbol)
    requires Mentions(Parsed(RowsOf(steps[i].envelope.event, side), true), p)
    ensures p in Said(w, steps, side)
  {
    if i == |steps| - 1 {
      var levels := Parsed(RowsOf(steps[i].envelope.event, side), true);
      var j :| 0 <= j < |levels| && levels[j].price == p;
      assert PricesOf(levels)[j] == p;
    } else {
      SaidHas(w, steps[..|steps| - 1], side, i, p);
    }
  }

  lemma EventStaysHonest(h: History, side: BookSide, p: real, e: DepthEvent)
    requires HonestEvent(h, e) && !Mentions(Parsed(RowsOf(e, side), true), p)
    ensures HonestEvent(WithPrice(h, side, p), e)
  {
    var other := WithPrice(h, side, p);
    if CleanEvent(e) {
      SideStaysHonest(h, side, p, Bid, e.first, e.final, Parsed(e.bids, true));
      SideStaysHonest(h, side, p, Ask, e.first, e.final, Parsed(e.asks, true));
    }
  }

  lemma SideStaysHonest(h: History, side: BookSide, p: real, of: BookSide, first: int, final: int, levels: seq<Level>)
    requires HonestLevels(h, of, first, final, levels) && (of == side ==> !Mentions(levels, p))
    ensures HonestLevels(WithPrice(h, side, p), of, first, final, levels)
  {
    var other := WithPrice(h, side, p);
    forall i | 0 <= i < |levels| ensures levels[i].size == SizeAt(SideOf(other(final), of), levels[i].price) {
      assert Mentions(levels, levels[i].price);
    }
    forall q, k | first - 1 <= k <= final && !Mentions(levels, q)
      ensures SizeAt(SideOf(other(k), of), q) == SizeAt(SideOf(other(final), of), q) {
      assert SizeAt(SideOf(h(k), of), q) == SizeAt(SideOf(h(final), of), q);
    }
  }

  lemma SnapshotStaysHonest(h: History, side: BookSide, p: real, limit: Option<nat>, step: Step)
    requires step.SnapshotArrives? && HonestSnapshot(h, limit, step.bids, step.asks, step.id)
    requires Clean(step.bids, false) && Clean(step.asks, false) ==> p !in Covered(side, limit, SideOf(LoadedSides(step), side))
    ensures HonestSnapshot(WithPrice(h, side, p), limit, step.bids, step.asks, step.id)
  {}

  lemma MessagesStayHonest(h: History, w: Setting, steps: seq<Step>, side: BookSide, loaded: Sizes, p: real)
    requires AllHonest(h, w, steps) && NoneDeeper(w, steps, side, loaded)
    requires p !in Said(w, steps, side) && p !in Covered(side, w.depthLimit, loaded)
    ensures AllHonest(WithPrice(h, side, p), w, steps)
  {
    forall i | 0 <= i < |steps| ensures HonestStep(WithPrice(h, side, p), w, steps[i]) {
      assert HonestStep(h, w, steps[i]) && NotDeeper(w, steps[i], side, loaded);
      if steps[i].Receive? && Relevant(steps[i].envelope, w.symbol) {
        if Mentions(Parsed(RowsOf(steps[i].envelope.event, side), true), p) {
          SaidHas(w, steps, side, i, p);
        }
        EventStaysHonest(h, side, p, steps[i].envelope.event);
      } else if steps[i].SnapshotArrives? {
        SnapshotStaysHonest(h, side, p, w.depthLimit, steps[i]);
      }
    }
  }

  // ---- A hidden price ----

  lemma {:induction false} FreshBetween(lo: real, hi: real, avoid: seq<real>) returns (p: real)
    requires lo < hi
    ensures lo < p < hi && p !in avoid
    decreases |avoid|
  {
    if avoid == [] {
      p := (lo + hi) / 2.0;
    } else if lo < avoid[0] < hi {
      p := FreshBetween(avoid[0], hi, avoid[1..]);
    } else {
      p := FreshBetween(lo, hi, avoid[1..]);
    }
  }

  lemma WorstLevel(side: BookSide, m: Sizes) returns (worst: real)
    requires |m| > 0
    ensures worst in m && forall q :: q in m ==> NoWorse(side, q, worst)
  {
    var prices := AnIndexExists(m);
    IndexLength(prices, m);
    worst := if side == Bid then prices[0] else prices[|prices| - 1];
    assert worst in PriceSet(prices);
    forall q | q in m ensures NoWorse(side, q, worst) {
      assert q in PriceSet(prices);
    }
  }

  /** A price below every snapshot level, and above the last emitted one if all places are filled. */
  lemma HiddenBid(loaded: Sizes, last: real, avoid: seq<real>) returns (p: real)
    requires last >= 0.0 && forall q :: q in loaded ==> last < q
    ensures p > last && p !in avoid && forall q :: q in loaded ==> p < q
  {
    if |loaded| == 0 {
      p := FreshBetween(last, last + 1.0, avoid);
      forall q ensures q !in loaded {}
    } else {
      var worst := WorstLevel(Bid, loaded);
      p := FreshBetween(last, worst, avoid);
    }
  }

  lemma HiddenAsk(loaded: Sizes, last: Option<real>, avoid: seq<real>) returns (p: real)
    requires Positive(loaded) && (last.Some? ==> last.value > 0.0 && forall q :: q in loaded ==> last.value > q)
    ensures p > 0.0 && p !in avoid && (last.Some? ==> p < last.value) && forall q :: q in loaded ==> p > q
  {
    var lo := 0.0;
    if |loaded| == 0 {
      forall q ensures q !in loaded {}
    } else {
      lo := WorstLevel(Ask, loaded);
    }
    p := FreshBetween(lo, if last.Some? then last.value else lo + 1.0, avoid);
  }

  lemma HiddenPrice(limit: Option<nat>, loaded: Sizes, side: BookSide, n: int, levels: Levels, avoid: seq<real>)
    returns (p: real)
    requires !Vouched(limit, loaded, side, n, levels) && Positive(loaded)
    requires PositiveLevels(levels, n)
    ensures p > 0.0 && p !in avoid && p !in Covered(side, limit, loaded)
    ensures |levels| == n ==> Beats(side, p, levels[n - 1].0)
  {
    forall q | q in loaded && |levels| == n ensures Beats(side, q, levels[n - 1].0) {
      assert !NoWorse(side, levels[n - 1].0, q);
    }
    if side == Bid {
      p := HiddenBid(loaded, if |levels| == n then levels[n - 1].0 else 0.0, avoid);
    } else {
      p := HiddenAsk(loaded, if |levels| == n then Some(levels[n - 1].0) else None, avoid);
    }
    assert forall q :: q in loaded ==> !NoWorse(side, p, q);
  }

  lemma ListedIsAll(side: BookSide, m: Sizes, n: int, levels: Levels, p: real)
    requires IsBestN(side, m, n, levels) && |levels| < n && p in m
    ensures ListsPrice(levels, p)
  {
    ListedCount(side, levels);
    assert ListedPrices(levels) <= m.Keys;
    SubsetCount(ListedPrices(levels), m.Keys);
    assert p in ListedPrices(levels);
  }

  lemma UnlistedIsMissed(side: BookSide, m: Sizes, n: int, levels: Levels, p: real)
    requires n > 0 && p in m && !ListsPrice(levels, p)
    requires |levels| < n || (|levels| == n && Beats(side, p, levels[n - 1].0))
    ensures !IsBestN(side, m, n, levels)
  {
    if IsBestN(side, m, n, levels) && |levels| < n {
      ListedIsAll(side, m, n, levels, p);
    }
  }

  // ---- The exact condition ----

  lemma {:induction false} LoadedIsPositive(w: Setting, steps: seq<Step>)
    ensures Positive(LastLoaded(w, steps).bids) && Positive(LastLoaded(w, steps).asks)
  {
    if steps != [] {
      var step := steps[|steps| - 1];
      LoadedIsPositive(w, steps[..|steps| - 1]);
      if LoadsSnapshot(RunCapture(w, START, steps[..|steps| - 1]), step) {
        OrderbookState.LevelsStayPositive(map[], step.bids, false);
        OrderbookState.LevelsStayPositive(map[], step.asks, false);
      }
    }
  }

  function Listed(levels: Levels): seq<real> {
    seq(|levels|, i requires 0 <= i < |levels| => levels[i].0)
  }

  lemma ListedPriceIsListed(levels: Levels, p: real)
    ensures ListsPrice(levels, p) ==> p in Listed(levels)
  {
    if ListsPrice(levels, p) {
      var k :| 0 <= k < |levels| && levels[k].0 == p;
      assert Listed(levels)[k] == p;
    }
  }

  lemma MissedIfAdded(h: History, side: BookSide, p: real, id: int, n: int, levels: Levels)
    requires n > 0 && p !in Listed(levels)
    requires |levels| < n || (|levels| == n && Beats(side, p, levels[n - 1].0))
    ensures !IsBestN(side, SideOf(WithPrice(h, side, p)(id), side), n, levels)
  {
    ListedPriceIsListed(levels, p);
    UnlistedIsMissed(side, SideOf(WithPrice(h, side, p)(id), side), n, levels, p);
  }

  ghost predicate PositiveLevels(levels: Levels, n: int) {
    |levels| <= n && forall i :: 0 <= i < |levels| ==> levels[i].0 > 0.0
  }

  lemma KnownIsPositive(h: History, n: int, sample: CleanSample, side: BookSide, known: Prices)
    requires n > 0 && Sound(h) && ShowsKnown(h, n, sample, side, known)
    ensures PositiveLevels(SideLevels(sample, side), n)
  {
    var levels, id := SideLevels(sample, side), sample.lastUpdateId.value;
    assert Positive(h(id).bids) && Positive(h(id).asks);
    forall i | 0 <= i < |levels| ensures levels[i].0 > 0.0 {
      assert levels[i].0 in SideOf(h(id), side);
    }
  }

  /** Below the vouching test, and at no price that a message told of. */
  ghost predicate Hidden(w: Setting, steps: seq<Step>, sample: CleanSample, side: BookSide, p: real) {
    var levels, n := SideLevels(sample, side), w.cfg.depthN;
    && n > 0 && p > 0.0
    && p !in Covered(side, w.depthLimit, SideOf(LastLoaded(w, steps), side))
    && p !in Said(w, steps, side) && p !in Listed(levels)
    && (|levels| < n || (|levels| == n && Beats(side, p, levels[n - 1].0)))
  }

  lemma HiddenExists(w: Setting, steps: seq<Step>, sample: CleanSample, side: BookSide) returns (p: real)
    requires PositiveLevels(SideLevels(sample, side), w.cfg.depthN)
    requires !Vouched(w.depthLimit, SideOf(LastLoaded(w, steps), side), side, w.cfg.depthN, SideLevels(sample, side))
    ensures Hidden(w, steps, sample, side, p)
  {
    var loaded, levels := SideOf(LastLoaded(w, steps), side), SideLevels(sample, side);
    LoadedIsPositive(w, steps);
    p := HiddenPrice(w.depthLimit, loaded, side, w.cfg.depthN, levels, Said(w, steps, side) + Listed(levels));
  }

  lemma WrongAfterAdding(h: History, n: int, sample: CleanSample, side: BookSide, p: real)
    requires n > 0 && p !in Listed(SideLevels(sample, side))
    requires var levels := SideLevels(sample, side); |levels| < n || (|levels| == n && Beats(side, p, levels[n - 1].0))
    ensures !ShowsExchange(WithPrice(h, side, p), n, sample, side)
  {
    if sample.lastUpdateId.Some? {
      MissedIfAdded(h, side, p, sample.lastUpdateId.value, n, SideLevels(sample, side));
    }
  }

  lemma StaysSound(h: History, side: BookSide, p: real)
    requires Sound(h) && p > 0.0
    ensures Sound(WithPrice(h, side, p))
  {}

  lemma AddingHiddenIsWrong(h: History, w: Setting, steps: seq<Step>, sample: CleanSample, side: BookSide, p: real)
    requires Sound(h) && AllHonest(h, w, steps) && Hidden(w, steps, sample, side, p)
    requires NoneDeeper(w, steps, side, SideOf(LastLoaded(w, steps), side))
    ensures var other := WithPrice(h, side, p);
      Sound(other) && AllHonest(other, w, steps) && !ShowsExchange(other, w.cfg.depthN, sample, side)
  {
    StaysSound(h, side, p);
    MessagesStayHonest(h, w, steps, side, SideOf(LastLoaded(w, steps), side), p);
    WrongAfterAdding(h, w.cfg.depthN, sample, side, p);
  }

  lemma UnvouchedCanBeWrong(h: History, w: Setting, steps: seq<Step>, sample: CleanSample, side: BookSide)
    returns (other: History)
    requires Sound(h) && AllHonest(h, w, steps) && Emits(w, steps, sample)
    requires NoneDeeper(w, steps, side, SideOf(LastLoaded(w, steps), side))
    requires !Vouched(w.depthLimit, SideOf(LastLoaded(w, steps), side), side, w.cfg.depthN, SideLevels(sample, side))
    ensures Sound(other) && AllHonest(other, w, steps) && !ShowsExchange(other, w.cfg.depthN, sample, side)
  {
    var known := EmittedIsKnown(h, w, steps, sample, side);
    KnownIsPositive(h, w.cfg.depthN, sample, side, KnownSide(known, side));
    var p := HiddenExists(w, steps, sample, side);
    AddingHiddenIsWrong(h, w, steps, sample, side, p);
    other := WithPrice(h, side, p);
  }

  /** Right for every exchange that could have sent these messages. */
  ghost predicate AlwaysExact(w: Setting, steps: seq<Step>, sample: CleanSample, side: BookSide) {
    forall h: History :: Sound(h) && AllHonest(h, w, steps) ==> ShowsExchange(h, w.cfg.depthN, sample, side)
  }

  /**
    For a capture that some exchange could have sent, and in which no snapshot
    reached deeper than the last: the emitted side is right whichever exchange
    sent it exactly when the sample and the last snapshot vouch for it.
   */
  lemma {:induction false} SampleIsExactIffVouched(h: History, w: Setting, steps: seq<Step>, sample: CleanSample, side: BookSide)
    requires Sound(h) && AllHonest(h, w, steps) && Emits(w, steps, sample)
    requires NoneDeeper(w, steps, side, SideOf(LastLoaded(w, steps), side))
    ensures AlwaysExact(w, steps, sample, side) <==>
      Vouched(w.depthLimit, SideOf(LastLoaded(w, steps), side), side, w.cfg.depthN, SideLevels(sample, side))
  {
    if Vouched(w.depthLimit, SideOf(LastLoaded(w, steps), side), side, w.cfg.depthN, SideLevels(sample, side)) {
      forall k: History | Sound(k) && AllHonest(k, w, steps) ensures ShowsExchange(k, w.cfg.depthN, sample, side) {
        VouchedSamplesShowTheExchange(k, w, steps, sample, side);
      }
    } else {
      var other := UnvouchedCanBeWrong(h, w, steps, sample, side);
    }
  }
}
