/** Selecting again among the markets just selected gives the same selection. */
module Reselection {
  import opened StableSort
  import opened MarketSelection

  function Markets(sel: Selection): seq<Market> {
    if sel == [] then [] else Markets(sel[..|sel| - 1]) + [sel[|sel| - 1].0]
  }

  lemma {:induction false} MarketsConcat(a: Selection, b: Selection)
    ensures Markets(a + b) == Markets(a) + Markets(b)
  {
    if b == [] {
      assert a + b == a;
    } else {
      assert (a + b)[..|a + b| - 1] == a + b[..|b| - 1];
      MarketsConcat(a, b[..|b| - 1]);
    }
  }

  lemma {:induction false} MarketsAt(sel: Selection, i: nat)
    ensures |Markets(sel)| == |sel|
    ensures i < |sel| ==> Markets(sel)[i] == sel[i].0
  {
    if sel != [] {
      MarketsAt(sel[..|sel| - 1], i);
    }
  }

  function SortedCurrent(ms: seq<Market>, g: GroupKey, now: int): seq<Market> {
    Sorted(Leq(ByStart), Where(CurrentOf(g), ms, now))
  }

  function FirstFutures(ms: seq<Market>, g: GroupKey, now: int, count: nat): seq<Market> {
    var sorted := Sorted(Leq(ByStart), Futures(ms, g, now));
    sorted[..if |sorted| < count then |sorted| else count]
  }

  /** The markets selected in one group. */
  function Chosen(ms: seq<Market>, now: int, count: nat): GroupKey -> seq<Market> {
    g => SortedCurrent(ms, g, now) + FirstFutures(ms, g, now, count)
  }

  lemma MarketsOfGroup(ms: seq<Market>, g: GroupKey, now: int, count: nat)
    ensures Markets(GroupRoles(ms, g, ByStart, now, count)) == Chosen(ms, now, count)(g)
  {
    var current := WithRole(SortedCurrent(ms, g, now), CurrentSignal);
    var futures := FutureRoles(Sorted(Leq(ByStart), Futures(ms, g, now)), count);
    MarketsConcat(current, futures);
    MarketsAt(current, 0);
    MarketsAt(futures, 0);
    forall i | 0 <= i < |current| ensures Markets(current)[i] == SortedCurrent(ms, g, now)[i] {
      MarketsAt(current, i);
    }
    forall i | 0 <= i < |futures| ensures Markets(futures)[i] == FirstFutures(ms, g, now, count)[i] {
      MarketsAt(futures, i);
    }
    assert Markets(current) == SortedCurrent(ms, g, now);
    assert Markets(futures) == FirstFutures(ms, g, now, count);
  }

  lemma {:induction false} MarketsOfAll(order: seq<GroupKey>, ms: seq<Market>, now: int, count: nat)
    ensures Markets(AllRoles(order, ms, ByStart, now, count)) == Flatten(order, Chosen(ms, now, count))
  {
    if order != [] {
      var front, last := order[..|order| - 1], order[|order| - 1];
      MarketsOfAll(front, ms, now, count);
      MarketsConcat(AllRoles(front, ms, ByStart, now, count), GroupRoles(ms, last, ByStart, now, count));
      MarketsOfGroup(ms, last, now, count);
    }
  }

  ghost predicate DistinctKeys(keys: seq<GroupKey>) {
    forall i, j :: 0 <= i < j < |keys| ==> keys[i] != keys[j]
  }

  lemma {:induction false} GroupOrderDistinct(ms: seq<Market>)
    ensures DistinctKeys(GroupOrder(ms))
  {
    if ms != [] {
      GroupOrderDistinct(ms[..|ms| - 1]);
    }
  }

  /** Every market of `block(k)` belongs to group `k`. */
  ghost predicate ByGroup(block: GroupKey -> seq<Market>) {
    forall k, i :: 0 <= i < |block(k)| ==> block(k)[i].group == k
  }

  predicate PicksOneGroup(pick: Pick, g: GroupKey) {
    pick == CurrentOf(g) || pick == FutureOf(g)
  }

  lemma OtherGroupGivesNothing(pick: Pick, g: GroupKey, ms: seq<Market>, k: GroupKey, now: int)
    requires PicksOneGroup(pick, g) && k != g && forall i :: 0 <= i < |ms| ==> ms[i].group == k
    ensures Where(pick, ms, now) == []
  {
    WhereNone(pick, ms, now);
  }

  lemma {:induction false} WhereFlatten(pick: Pick, g: GroupKey, keys: seq<GroupKey>, block: GroupKey -> seq<Market>, now: int)
    requires PicksOneGroup(pick, g) && DistinctKeys(keys) && ByGroup(block)
    ensures Where(pick, Flatten(keys, block), now) == if g in keys then Where(pick, block(g), now) else []
  {
    if keys != [] {
      var front, last := keys[..|keys| - 1], keys[|keys| - 1];
      WhereFlatten(pick, g, front, block, now);
      WhereConcat(pick, Flatten(front, block), block(last), now);
      if g != last {
        OtherGroupGivesNothing(pick, g, block(last), last, now);
      }
      assert keys == front + [last];
    }
  }

  lemma SortedPicks(pick: Pick, ms: seq<Market>, now: int, i: nat)
    requires i < |Sorted(Leq(ByStart), Where(pick, ms, now))|
    ensures Picks(pick, Sorted(Leq(ByStart), Where(pick, ms, now))[i], now)
  {
    var m := Sorted(Leq(ByStart), Where(pick, ms, now))[i];
    SortedMembers(Leq(ByStart), Where(pick, ms, now), m);
    WhereMembers(pick, ms, now, m);
  }

  lemma ChosenPicks(ms: seq<Market>, g: GroupKey, now: int, count: nat)
    ensures forall i :: 0 <= i < |SortedCurrent(ms, g, now)| ==> Picks(CurrentOf(g), SortedCurrent(ms, g, now)[i], now)
    ensures forall i :: 0 <= i < |FirstFutures(ms, g, now, count)| ==> Picks(FutureOf(g), FirstFutures(ms, g, now, count)[i], now)
  {
    forall i | 0 <= i < |SortedCurrent(ms, g, now)| ensures Picks(CurrentOf(g), SortedCurrent(ms, g, now)[i], now) {
      SortedPicks(CurrentOf(g), ms, now, i);
    }
    forall i | 0 <= i < |FirstFutures(ms, g, now, count)| ensures Picks(FutureOf(g), FirstFutures(ms, g, now, count)[i], now) {
      SortedPicks(FutureOf(g), ms, now, i);
    }
  }

  lemma ChosenByGroup(ms: seq<Market>, now: int, count: nat)
    ensures ByGroup(Chosen(ms, now, count))
  {
    forall g, i | 0 <= i < |Chosen(ms, now, count)(g)| ensures Chosen(ms, now, count)(g)[i].group == g {
      ChosenPicks(ms, g, now, count);
    }
  }

  /** Filtering a group's chosen markets gives back its two parts. */
  lemma ChosenFilters(ms: seq<Market>, g: GroupKey, now: int, count: nat)
    ensures Where(CurrentOf(g), Chosen(ms, now, count)(g), now) == SortedCurrent(ms, g, now)
    ensures Where(FutureOf(g), Chosen(ms, now, count)(g), now) == FirstFutures(ms, g, now, count)
  {
    var current, futures := SortedCurrent(ms, g, now), FirstFutures(ms, g, now, count);
    ChosenPicks(ms, g, now, count);
    WhereConcat(CurrentOf(g), current, futures, now);
    WhereConcat(FutureOf(g), current, futures, now);
    WhereAll(CurrentOf(g), current, now);
    WhereNone(CurrentOf(g), futures, now);
    WhereNone(FutureOf(g), current, now);
    WhereAll(FutureOf(g), futures, now);
  }

  /** A group reselected among `out` gets the roles it had. */
  lemma GroupReselected(ms: seq<Market>, out: seq<Market>, g: GroupKey, now: int, count: nat)
    requires Where(CurrentOf(g), out, now) == SortedCurrent(ms, g, now)
    requires Where(FutureOf(g), out, now) == FirstFutures(ms, g, now, count)
    ensures GroupRoles(out, g, ByStart, now, count) == GroupRoles(ms, g, ByStart, now, count)
  {
    LeqIsTotalPreorder(ByStart);
    SortedInOrder(Leq(ByStart), Where(CurrentOf(g), ms, now));
    SortedInOrder(Leq(ByStart), Futures(ms, g, now));
    SortedOfOrdered(Leq(ByStart), SortedCurrent(ms, g, now));
    SortedOfOrdered(Leq(ByStart), FirstFutures(ms, g, now, count));
  }

  lemma {:induction false} FlattenSame<K, T>(keys: seq<K>, a: K -> seq<T>, b: K -> seq<T>)
    requires forall i :: 0 <= i < |keys| ==> a(keys[i]) == b(keys[i])
    ensures Flatten(keys, a) == Flatten(keys, b)
  {
    if keys != [] {
      FlattenSame(keys[..|keys| - 1], a, b);
    }
  }

  lemma {:induction false} GroupOrderAppends(before: seq<Market>, ms: seq<Market>, g: GroupKey)
    requires ms != [] && forall i :: 0 <= i < |ms| ==> ms[i].group == g
    ensures GroupOrder(before + ms) == if g in GroupOrder(before) then GroupOrder(before) else GroupOrder(before) + [g]
  {
    var front := ms[..|ms| - 1];
    assert (before + ms)[..|before + ms| - 1] == before + front;
    if front != [] {
      GroupOrderAppends(before, front, g);
    } else {
      assert before + front == before;
    }
  }

  lemma {:induction false} GroupOrderOfFlatten(keys: seq<GroupKey>, block: GroupKey -> seq<Market>)
    requires DistinctKeys(keys) && ByGroup(block)
    requires forall i :: 0 <= i < |keys| ==> block(keys[i]) != []
    ensures GroupOrder(Flatten(keys, block)) == keys
  {
    if keys != [] {
      var front, last := keys[..|keys| - 1], keys[|keys| - 1];
      GroupOrderOfFlatten(front, block);
      GroupOrderAppends(Flatten(front, block), block(last), last);
      assert keys == front + [last];
    }
  }

  lemma SortedHas(pick: Pick, ms: seq<Market>, now: int, m: Market)
    requires m in ms && Picks(pick, m, now)
    ensures Sorted(Leq(ByStart), Where(pick, ms, now)) != []
  {
    WhereMembers(pick, ms, now, m);
    SortedMembers(Leq(ByStart), Where(pick, ms, now), m);
  }

  lemma ChosenIfTradable(ms: seq<Market>, now: int, count: nat, m: Market)
    requires count >= 1 && m in ms && Tradable(m, now)
    ensures Chosen(ms, now, count)(m.group) != []
  {
    if StartKey(m) <= now {
      SortedHas(CurrentOf(m.group), ms, now, m);
    } else {
      SortedHas(FutureOf(m.group), ms, now, m);
    }
  }

  /** A group with a tradable market has a chosen one. */
  lemma GroupHasChosen(ms: seq<Market>, g: GroupKey, now: int, count: nat)
    requires count >= 1 && g in GroupOrder(Where(IsTradable, ms, now))
    ensures Chosen(ms, now, count)(g) != []
  {
    var tradable := Where(IsTradable, ms, now);
    GroupOrderMembers(tradable, g);
    var i :| 0 <= i < |tradable| && tradable[i].group == g;
    WhereMembers(IsTradable, ms, now, tradable[i]);
    ChosenIfTradable(ms, now, count, tradable[i]);
  }

  lemma {:induction false} FlattenTradable(keys: seq<GroupKey>, ms: seq<Market>, now: int, count: nat, i: nat)
    requires i < |Flatten(keys, Chosen(ms, now, count))|
    ensures Picks(IsTradable, Flatten(keys, Chosen(ms, now, count))[i], now)
  {
    var front, last := keys[..|keys| - 1], keys[|keys| - 1];
    if i < |Flatten(front, Chosen(ms, now, count))| {
      FlattenTradable(front, ms, now, count, i);
    } else {
      ChosenPicks(ms, last, now, count);
    }
  }

  /** `select_runtime_markets` applied to its own result returns it unchanged, roles and order included. */
  lemma {:induction false} RuntimeSelectionIdempotent(ms: seq<Market>, now: int, lookahead: int)
    ensures RuntimeSelection(Markets(RuntimeSelection(ms, now, lookahead)), now, lookahead) == RuntimeSelection(ms, now, lookahead)
  {
    var count := AtLeastOne(lookahead);
    var keys := GroupOrder(Where(IsTradable, ms, now));
    var chosen := Chosen(ms, now, count);
    var out := Markets(RuntimeSelection(ms, now, lookahead));
    MarketsOfAll(keys, ms, now, count);
    GroupOrderDistinct(Where(IsTradable, ms, now));
    ChosenByGroup(ms, now, count);
    forall i | 0 <= i < |out| ensures Picks(IsTradable, out[i], now) {
      FlattenTradable(keys, ms, now, count, i);
    }
    WhereAll(IsTradable, out, now);
    forall i | 0 <= i < |keys| ensures chosen(keys[i]) != [] {
      GroupHasChosen(ms, keys[i], now, count);
    }
    GroupOrderOfFlatten(keys, chosen);
    forall i | 0 <= i < |keys| ensures Block(out, ByStart, now, count)(keys[i]) == Block(ms, ByStart, now, count)(keys[i]) {
      WhereFlatten(CurrentOf(keys[i]), keys[i], keys, chosen, now);
      WhereFlatten(FutureOf(keys[i]), keys[i], keys, chosen, now);
      ChosenFilters(ms, keys[i], now, count);
      GroupReselected(ms, out, keys[i], now, count);
    }
    FlattenSame(keys, Block(out, ByStart, now, count), Block(ms, ByStart, now, count));
  }
}
