/**
  Which of a market's times is its start and which of its texts orders it, and
  what the two selectors make of that, said on the market's fields.
 */
module StartTimes {
  import opened Options
  import opened StableSort
  import opened MarketSelection
  import opened Reselection
  import opened RuntimeMarkets

  // ---- The start ----

  /** A time that is there and is not 0. */
  predicate Given(time: Option<int>) {
    time.Some? && time.value != 0
  }

  /** The event's start if given, else the listing's, else the slug's, else 0. */
  predicate StartsAt(m: Market, ts: int) {
    || (Given(m.eventStartTs) && ts == m.eventStartTs.value)
    || (!Given(m.eventStartTs) && Given(m.startTs) && ts == m.startTs.value)
    || (!Given(m.eventStartTs) && !Given(m.startTs) && m.slugStartTs == Some(ts))
    || (!Given(m.eventStartTs) && !Given(m.startTs) && m.slugStartTs.None? && ts == 0)
  }

  lemma OneStart(m: Market, ts: int)
    ensures StartsAt(m, ts) <==> ts == StartKey(m)
  {}

  /** A tradable market that starts at `ts`: both selectors take it as current, and it is classified so, exactly once it has started. */
  ghost predicate CurrentFrom(ms: seq<Market>, now: int, lookahead: nat, m: Market, ts: int) {
    && ((m, CurrentSignal) in RuntimeSelection(ms, now, lookahead) <==> m in ms && ts <= now)
    && ((m, CurrentSignal) in UniverseSelection(ms, now, lookahead) <==> m in ms && ts <= now)
    && (Classify(m, now) == CurrentSignal <==> ts <= now)
    && (Classify(m, now) == NextWarmup <==>
          ts > now && m.group.durationMinutes.Some? && ts - now <= m.group.durationMinutes.value * 60)
    && (Classify(m, now) == NextWarmup || Classify(m, now) == FutureTracked <==> ts > now)
  }

  lemma CurrentInGroup(ms: seq<Market>, how: SortedBy, now: int, count: nat, m: Market)
    requires Tradable(m, now)
    ensures (m, CurrentSignal) in GroupRoles(ms, m.group, how, now, count) <==> m in ms && StartKey(m) <= now
  {
    GroupRolesMeaning(ms, m.group, how, now, count, m, CurrentSignal);
    forall i ensures !FutureAt(ms, m.group, how, now, count, m, CurrentSignal, i) {}
  }

  lemma StartsDecide(ms: seq<Market>, now: int, lookahead: nat, m: Market)
    requires Tradable(m, now)
    ensures CurrentFrom(ms, now, lookahead, m, StartKey(m))
  {
    SelectionMeaning(ms, now, lookahead, m, CurrentSignal);
    CurrentInGroup(ms, ByStart, now, AtLeastOne(lookahead), m);
    CurrentInGroup(ms, ByText, now, lookahead, m);
    TradableWindows(m, now);
  }

  /** The event's start decides; without it the listing's start; without both the slug's; and 0 last. */
  lemma EventStartDecides(ms: seq<Market>, now: int, lookahead: nat, m: Market)
    requires Tradable(m, now)
    ensures m.eventStartTs.Some? && m.eventStartTs.value != 0 ==> CurrentFrom(ms, now, lookahead, m, m.eventStartTs.value)
    ensures !Given(m.eventStartTs) && m.startTs.Some? && m.startTs.value != 0 ==>
            CurrentFrom(ms, now, lookahead, m, m.startTs.value)
    ensures !Given(m.eventStartTs) && !Given(m.startTs) && m.slugStartTs.Some? ==>
            CurrentFrom(ms, now, lookahead, m, m.slugStartTs.value)
    ensures !Given(m.eventStartTs) && !Given(m.startTs) && m.slugStartTs.None? ==> CurrentFrom(ms, now, lookahead, m, 0)
  {
    StartsDecide(ms, now, lookahead, m);
  }

  /** What the program asks of a market before it follows it, on the fields. */
  lemma TradableMeans(m: Market, now: int)
    ensures Tradable(m, now) <==>
      && m.active == Some(true) && m.closed == Some(false) && m.acceptingOrders == Some(true) && m.enableOrderBook == Some(true)
      && m.upTokenId != None && m.downTokenId != None && |m.tokenIds| > 1
      && m.endTs.Some? && now < m.endTs.value
    ensures Tradable(m, now) ==> Classify(m, now) in {CurrentSignal, NextWarmup, FutureTracked}
    ensures Classify(m, now) in {CurrentSignal, NextWarmup, FutureTracked} ==> Tradable(m, now)
    ensures Classify(m, now) == Closed <==> m.closed == Some(true)
  {}

  // ---- The text ----

  predicate GivenText(text: Option<string>) {
    text.Some? && text.value != ""
  }

  /** The event's start text if given, else the listing's, else the slug. */
  predicate OrderedBy(m: Market, text: string) {
    || (GivenText(m.eventStartText) && text == m.eventStartText.value)
    || (!GivenText(m.eventStartText) && GivenText(m.startText) && text == m.startText.value)
    || (!GivenText(m.eventStartText) && !GivenText(m.startText) && text == m.slug)
  }

  /** `a` and `b` are the same up to `k`, where `a` has the smaller character. */
  predicate SmallerAt(a: string, b: string, k: int) {
    0 <= k < |a| && k < |b| && (forall i :: 0 <= i < k ==> a[i] == b[i]) && a[k] < b[k]
  }

  /** `a` is a beginning of `b`. */
  predicate Begins(a: string, b: string) {
    |a| <= |b| && forall i :: 0 <= i < |a| ==> a[i] == b[i]
  }

  /** Python's order of strings: at the first difference the smaller character decides, and a beginning comes first. */
  ghost predicate Precedes(a: string, b: string) {
    Begins(a, b) || exists k :: SmallerAt(a, b, k)
  }

  lemma SameHead(a: string, b: string, k: int)
    requires a != "" && b != "" && a[0] == b[0]
    ensures Begins(a, b) <==> Begins(a[1..], b[1..])
    ensures k >= 0 && SmallerAt(a[1..], b[1..], k) ==> SmallerAt(a, b, k + 1)
    ensures k >= 0 && SmallerAt(a, b, k) ==> k >= 1 && SmallerAt(a[1..], b[1..], k - 1)
  {
    if Begins(a[1..], b[1..]) {
      forall i | 0 <= i < |a| ensures a[i] == b[i] {
        if i > 0 { assert a[1..][i - 1] == b[1..][i - 1]; }
      }
    }
    if k >= 0 && SmallerAt(a[1..], b[1..], k) {
      forall i | 0 <= i < k + 1 ensures a[i] == b[i] {
        if i > 0 { assert a[1..][i - 1] == b[1..][i - 1]; }
      }
    }
  }

  lemma PrecedesTail(a: string, b: string)
    requires a != "" && b != "" && a[0] == b[0]
    ensures Precedes(a, b) <==> Precedes(a[1..], b[1..])
  {
    SameHead(a, b, 0);
    if k :| SmallerAt(a[1..], b[1..], k) {
      SameHead(a, b, k);
    }
    if k :| SmallerAt(a, b, k) {
      SameHead(a, b, k);
    }
  }

  lemma {:induction false} StringLeqMeans(a: string, b: string)
    ensures StringLeq(a, b) <==> Precedes(a, b)
  {
    if a != "" && b != "" && a[0] == b[0] {
      StringLeqMeans(a[1..], b[1..]);
      PrecedesTail(a, b);
    } else if a != "" && b != "" && a[0] < b[0] {
      assert SmallerAt(a, b, 0);
    }
  }

  // ---- Which future market is warmed up ----

  /** Rank 0 is the first of the group in the order. */
  lemma FirstInOrder(ms: seq<Market>, g: GroupKey, how: SortedBy, now: int, i: nat, j: nat)
    requires i < |Futures(ms, g, now)| && j < |Futures(ms, g, now)|
    requires Rank(Leq(how), Futures(ms, g, now), i) == 0
    ensures Leq(how)(Futures(ms, g, now)[i], Futures(ms, g, now)[j])
  {
    var f, leq := Futures(ms, g, now), Leq(how);
    LeqIsTotalPreorder(how);
    RankPlaces(leq, f, i);
    RankPlaces(leq, f, j);
    SortedInOrder(leq, f);
    assert leq(Sorted(leq, f)[0], Sorted(leq, f)[Rank(leq, f, j)]);
  }

  lemma PlaceOfFuture(ms: seq<Market>, now: int, m: Market) returns (j: nat)
    requires m in ms && Tradable(m, now) && StartKey(m) > now
    ensures j < |Futures(ms, m.group, now)| && Futures(ms, m.group, now)[j] == m
  {
    WhereMembers(FutureOf(m.group), ms, now, m);
    j :| 0 <= j < |Futures(ms, m.group, now)| && Futures(ms, m.group, now)[j] == m;
  }

  lemma PlaceOfWarmedUp(ms: seq<Market>, how: SortedBy, now: int, count: nat, m: Market) returns (i: nat)
    requires (m, NextWarmup) in GroupRoles(ms, m.group, how, now, count)
    ensures i < |Futures(ms, m.group, now)| && Futures(ms, m.group, now)[i] == m
    ensures Rank(Leq(how), Futures(ms, m.group, now), i) == 0
  {
    GroupRolesMeaning(ms, m.group, how, now, count, m, NextWarmup);
    i :| FutureAt(ms, m.group, how, now, count, m, NextWarmup, i);
  }

  lemma WarmedUpIsFirst(ms: seq<Market>, how: SortedBy, now: int, count: nat, m: Market, other: Market)
    requires (m, NextWarmup) in GroupRoles(ms, m.group, how, now, count)
    requires other in ms && Tradable(other, now) && StartKey(other) > now && other.group == m.group
    ensures Leq(how)(m, other)
  {
    var i := PlaceOfWarmedUp(ms, how, now, count, m);
    var j := PlaceOfFuture(ms, now, other);
    FirstInOrder(ms, m.group, how, now, i, j);
  }

  /** The market that `select_runtime_markets` warms up starts no later than any other future market of its group. */
  lemma EarliestIsWarmedUp(ms: seq<Market>, now: int, lookahead: int, m: Market, ts: int, other: Market, otherTs: int)
    requires (m, NextWarmup) in RuntimeSelection(ms, now, lookahead) && StartsAt(m, ts)
    requires other in ms && Tradable(other, now) && other.group == m.group && StartsAt(other, otherTs) && otherTs > now
    ensures ts <= otherTs
  {
    OneStart(m, ts);
    OneStart(other, otherTs);
    SelectedInGroup(ms, now, lookahead, m, NextWarmup);
    WarmedUpIsFirst(ms, ByStart, now, AtLeastOne(lookahead), m, other);
  }

  /** The one that the universe warms up comes first by its text, and by its id among equal texts. */
  lemma FirstTextIsWarmedUp(ms: seq<Market>, now: int, lookahead: nat, m: Market, text: string, other: Market,
                            otherText: string, otherTs: int)
    requires (m, NextWarmup) in UniverseSelection(ms, now, lookahead) && OrderedBy(m, text)
    requires other in ms && Tradable(other, now) && other.group == m.group && StartsAt(other, otherTs) && otherTs > now
    requires OrderedBy(other, otherText)
    ensures Precedes(text, otherText) && (text == otherText ==> Precedes(m.marketId, other.marketId))
  {
    OneStart(other, otherTs);
    SelectionMeaning(ms, now, lookahead, m, NextWarmup);
    WarmedUpIsFirst(ms, ByText, now, lookahead, m, other);
    StringLeqMeans(text, otherText);
    StringLeqMeans(m.marketId, other.marketId);
  }

  /** Two markets share a key exactly when their ids and their token ids are the same. */
  lemma KeyMeans(a: Market, b: Market)
    ensures KeyOf(a) == KeyOf(b) <==> a.marketId == b.marketId && a.tokenIds == b.tokenIds
  {}

  /** A group gives all its started markets and as many futures as the lookahead allows, one of them to warm up. */
  lemma RolesOfGroup(ms: seq<Market>, g: GroupKey, how: SortedBy, now: int, count: nat)
    ensures var futures, current := |Futures(ms, g, now)|, |Where(CurrentOf(g), ms, now)|;
      var roles := GroupRoles(ms, g, how, now, count);
      && |roles| == current + (if futures < count then futures else count)
      && forall i :: 0 <= i < |roles| ==>
           roles[i].1 == if i < current then CurrentSignal else if i == current then NextWarmup else FutureTracked
    ensures forall lookahead: int :: AtLeastOne(lookahead) == if lookahead < 1 then 1 else lookahead
  {
    LeqIsTotalPreorder(how);
    SortedInOrder(Leq(how), Where(CurrentOf(g), ms, now));
    SortedInOrder(Leq(how), Futures(ms, g, now));
  }

  // ---- Annotations ----

  /**
    Where its look-ups are right, every market returned is marked as selected
    with the role of its place as reason, and its signal is enabled exactly
    when it has started.
   */
  lemma SignalIsCurrent(ms: seq<Market>, now: int, lookahead: int, i: nat, ts: int)
    requires LookUpsRight(ms, RuntimeSelection(ms, now, lookahead)) && i < |ReturnedMarkets(ms, now, lookahead)|
    requires StartsAt(ReturnedMarkets(ms, now, lookahead)[i].market, ts)
    ensures i < |RuntimeSelection(ms, now, lookahead)|
    ensures var a, chosen := ReturnedMarkets(ms, now, lookahead)[i], RuntimeSelection(ms, now, lookahead)[i];
      && a.market == chosen.0 && a.selected && a.reason == chosen.1 && (a.signalEnabled <==> ts <= now)
      && a.classification == Classify(a.market, now)
  {
    var sel := RuntimeSelection(ms, now, lookahead);
    RuntimeMarketsInRoleIff(ms, now, lookahead);
    OneStart(sel[i].0, ts);
    assert sel[i] in sel;
    SelectedInGroup(ms, now, lookahead, sel[i].0, sel[i].1);
    RoleByStart(ms, now, AtLeastOne(lookahead), sel[i].0, sel[i].1);
  }

  lemma RoleByStart(ms: seq<Market>, now: int, count: nat, m: Market, r: Window)
    requires (m, r) in GroupRoles(ms, m.group, ByStart, now, count)
    ensures r == CurrentSignal <==> StartKey(m) <= now
  {
    GroupRolesMeaning(ms, m.group, ByStart, now, count, m, r);
    if i :| FutureAt(ms, m.group, ByStart, now, count, m, r, i) {
      WhereMembers(FutureOf(m.group), ms, now, m);
    }
  }

  /** A market whose key is not selected is marked with its class only. */
  lemma UnselectedIsMarkedSo(ms: seq<Market>, now: int, lookahead: int, i: nat)
    requires i < |ms| && forall j :: 0 <= j < |RuntimeSelection(ms, now, lookahead)| ==>
      KeyOf(RuntimeSelection(ms, now, lookahead)[j].0) != KeyOf(ms[i])
    ensures var a := AnnotatedAll(ms, RuntimeSelection(ms, now, lookahead), now)[i];
      a.market == ms[i] && !a.selected && !a.signalEnabled && a.reason == a.classification == Classify(ms[i], now)
  {
    NoRole(RuntimeSelection(ms, now, lookahead), KeyOf(ms[i]));
  }

  lemma {:induction false} NoRole(sel: Selection, key: MarketKey)
    requires forall j :: 0 <= j < |sel| ==> KeyOf(sel[j].0) != key
    ensures RoleOf(sel, key).None?
  {
    if sel != [] {
      NoRole(sel[..|sel| - 1], key);
    }
  }
}
