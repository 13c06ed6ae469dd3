/**
  What stands around the selector by start time: copies of a market are merged
  by key before it, and its roles are looked up by key after it.
 */
module RuntimeMarkets {
  import opened Options
  import opened StableSort
  import opened MarketSelection
  import opened Reselection

  // ---- One copy of each key ----

  /** The keys in the order in which they are first met. */
  function KeyOrder(ms: seq<Market>): seq<MarketKey> {
    if ms == [] then []
    else
      var before, key := KeyOrder(ms[..|ms| - 1]), KeyOf(ms[|ms| - 1]);
      if key in before then before else before + [key]
  }

  ghost predicate DistinctMarketKeys(ms: seq<Market>) {
    forall i, j :: 0 <= i < j < |ms| ==> KeyOf(ms[i]) != KeyOf(ms[j])
  }

  /** The first tradable copy under the key, or the first copy when none is tradable. */
  ghost predicate IsBestCopy(ms: seq<Market>, key: MarketKey, now: int, i: int) {
    && 0 <= i < |ms|
    && KeyOf(ms[i]) == key
    && if Tradable(ms[i], now) then forall j :: 0 <= j < i && KeyOf(ms[j]) == key ==> !Tradable(ms[j], now)
       else (forall j :: 0 <= j < |ms| && KeyOf(ms[j]) == key ==> !Tradable(ms[j], now) && i <= j)
  }

  /** What deduplication must leave: each key once, in first-met order, with its best copy. */
  ghost predicate Deduped(ms: seq<Market>, now: int, kept: seq<Market>) {
    && |kept| == |KeyOrder(ms)|
    && (forall p :: 0 <= p < |kept| ==> KeyOf(kept[p]) == KeyOrder(ms)[p] && HasBestCopy(ms, now, kept[p]))
  }

  ghost predicate HasBestCopy(ms: seq<Market>, now: int, m: Market) {
    exists i :: IsBestCopy(ms, KeyOf(m), now, i) && ms[i] == m
  }

  lemma {:induction false} KeyOrderMembers(ms: seq<Market>, key: MarketKey)
    ensures key in KeyOrder(ms) <==> exists i :: 0 <= i < |ms| && KeyOf(ms[i]) == key
  {
    if ms != [] {
      var front := ms[..|ms| - 1];
      KeyOrderMembers(front, key);
      assert forall i :: 0 <= i < |front| ==> front[i] == ms[i];
    }
  }

  lemma {:induction false} KeyOrderDistinct(ms: seq<Market>)
    ensures forall p, q :: 0 <= p < q < |KeyOrder(ms)| ==> KeyOrder(ms)[p] != KeyOrder(ms)[q]
  {
    if ms != [] {
      KeyOrderDistinct(ms[..|ms| - 1]);
    }
  }

  /** The keys before the one at `p` are those of the markets before its first copy. */
  lemma {:induction false} KeyOrderIsFirstSeen(ms: seq<Market>, p: nat) returns (i: nat)
    requires p < |KeyOrder(ms)|
    ensures i < |ms| && KeyOf(ms[i]) == KeyOrder(ms)[p]
    ensures KeyOrder(ms[..i]) == KeyOrder(ms)[..p]
    ensures forall j :: 0 <= j < i ==> KeyOf(ms[j]) != KeyOrder(ms)[p]
  {
    var front := ms[..|ms| - 1];
    if p < |KeyOrder(front)| {
      i := KeyOrderIsFirstSeen(front, p);
      assert front[..i] == ms[..i];
    } else {
      i := |ms| - 1;
      KeyOrderMembers(front, KeyOf(ms[i]));
      assert forall j :: 0 <= j < |front| ==> front[j] == ms[j];
    }
  }

  /** One more market, of a key not met before, or not better than the copy held. */
  lemma BestCopyStays(ms: seq<Market>, x: Market, now: int, m: Market)
    requires HasBestCopy(ms, now, m)
    requires KeyOf(x) == KeyOf(m) ==> Tradable(m, now) || !Tradable(x, now)
    ensures HasBestCopy(ms + [x], now, m)
  {
    var i :| IsBestCopy(ms, KeyOf(m), now, i) && ms[i] == m;
    assert IsBestCopy(ms + [x], KeyOf(m), now, i);
  }

  lemma BetterCopyWins(ms: seq<Market>, x: Market, now: int, m: Market)
    requires HasBestCopy(ms, now, m) && KeyOf(x) == KeyOf(m) && Tradable(x, now) && !Tradable(m, now)
    ensures HasBestCopy(ms + [x], now, x)
  {
    assert IsBestCopy(ms + [x], KeyOf(x), now, |ms|);
  }

  lemma NewKeyIsBest(ms: seq<Market>, x: Market, now: int)
    requires KeyOf(x) !in KeyOrder(ms)
    ensures HasBestCopy(ms + [x], now, x)
  {
    KeyOrderMembers(ms, KeyOf(x));
    assert forall j :: 0 <= j < |ms| ==> (ms + [x])[j] == ms[j];
    assert IsBestCopy(ms + [x], KeyOf(x), now, |ms|);
  }

  /** The dictionary of the copies held and the list of its keys. */
  ghost predicate Holds(byKey: map<MarketKey, Market>, order: seq<MarketKey>, ms: seq<Market>, now: int) {
    && order == KeyOrder(ms)
    && (forall k :: k in byKey <==> k in order)
    && (forall k :: k in byKey ==> KeyOf(byKey[k]) == k && HasBestCopy(ms, now, byKey[k]))
  }

  method HoldBetter(byKey: map<MarketKey, Market>, order: seq<MarketKey>, ghost before: seq<Market>, market: Market, now: int)
    returns (byKey': map<MarketKey, Market>, order': seq<MarketKey>)
    requires Holds(byKey, order, before, now)
    ensures Holds(byKey', order', before + [market], now)
  {
    var key := KeyOf(market);
    byKey', order' := byKey, order;
    assert (before + [market])[..|before|] == before;
    forall k | k in byKey && k != key ensures HasBestCopy(before + [market], now, byKey[k]) {
      BestCopyStays(before, market, now, byKey[k]);
    }
    if key !in byKey {
      NewKeyIsBest(before, market, now);
      byKey' := byKey[key := market];
      order' := order + [key];
    } else if Tradable(market, now) && !Tradable(byKey[key], now) {
      BetterCopyWins(before, market, now, byKey[key]);
      byKey' := byKey[key := market];
    } else {
      BestCopyStays(before, market, now, byKey[key]);
    }
  }

  /** `_dedupe_prefer_runtime`. */
  method DedupePreferRuntime(markets: seq<Market>, now: int) returns (kept: seq<Market>)
    ensures Deduped(markets, now, kept)
  {
    var byKey: map<MarketKey, Market>, order: seq<MarketKey> := map[], [];
    for i := 0 to |markets|
      invariant Holds(byKey, order, markets[..i], now)
    {
      assert markets[..i + 1] == markets[..i] + [markets[i]];
      byKey, order := HoldBetter(byKey, order, markets[..i], markets[i], now);
    }
    assert markets[..|markets|] == markets;
    kept := seq(|order|, p requires 0 <= p < |order| => assert order[p] in order; byKey[order[p]]);
  }

  /** Deduplication leaves each key once and loses no key and no tradable key. */
  lemma DedupedKeys(ms: seq<Market>, now: int, kept: seq<Market>, key: MarketKey)
    requires Deduped(ms, now, kept)
    ensures DistinctMarketKeys(kept)
    ensures (exists p :: 0 <= p < |kept| && KeyOf(kept[p]) == key) <==> (exists i :: 0 <= i < |ms| && KeyOf(ms[i]) == key)
    ensures (exists p :: 0 <= p < |kept| && KeyOf(kept[p]) == key && Tradable(kept[p], now)) <==>
            (exists i :: 0 <= i < |ms| && KeyOf(ms[i]) == key && Tradable(ms[i], now))
  {
    KeyOrderDistinct(ms);
    KeyOrderMembers(ms, key);
    if key in KeyOrder(ms) {
      var p :| 0 <= p < |kept| && KeyOrder(ms)[p] == key;
      var i :| IsBestCopy(ms, key, now, i) && ms[i] == kept[p];
      assert KeyOf(kept[p]) == key;
    } else {
      assert forall p :: 0 <= p < |kept| ==> KeyOf(kept[p]) == KeyOrder(ms)[p];
    }
  }

  // ---- Roles by key ----

  datatype Annotated = Annotated(market: Market, classification: Window, selected: bool, signalEnabled: bool, reason: Window)

  /** The role that a dictionary written in list order holds. */
  function RoleOf(sel: Selection, key: MarketKey): Option<Window> {
    if sel == [] then None
    else if KeyOf(sel[|sel| - 1].0) == key then Some(sel[|sel| - 1].1)
    else RoleOf(sel[..|sel| - 1], key)
  }

  function Annotate(m: Market, role: Option<Window>, now: int): Annotated {
    Annotated(m, Classify(m, now), role.Some?, role == Some(CurrentSignal), if role.Some? then role.value else Classify(m, now))
  }

  function AnnotatedAll(ms: seq<Market>, sel: Selection, now: int): seq<Annotated> {
    seq(|ms|, i requires 0 <= i < |ms| => Annotate(ms[i], RoleOf(sel, KeyOf(ms[i])), now))
  }

  function LastCopy(marked: seq<Annotated>, key: MarketKey): Option<Annotated> {
    if marked == [] then None
    else if KeyOf(marked[|marked| - 1].market) == key then Some(marked[|marked| - 1])
    else LastCopy(marked[..|marked| - 1], key)
  }

  function LookUpAll(marked: seq<Annotated>, sel: Selection): seq<Annotated> {
    if sel == [] then []
    else
      var found := LastCopy(marked, KeyOf(sel[|sel| - 1].0));
      LookUpAll(marked, sel[..|sel| - 1]) + if found.Some? then [found.value] else []
  }

  function ReturnedMarkets(ms: seq<Market>, now: int, lookahead: int): seq<Annotated> {
    var sel := RuntimeSelection(ms, now, lookahead);
    LookUpAll(AnnotatedAll(ms, sel, now), sel)
  }

  method SelectRuntimeMarketKeyRoles(markets: seq<Market>, now: int, lookahead: int) returns (roles: map<MarketKey, Window>)
    ensures forall k :: RoleOf(RuntimeSelection(markets, now, lookahead), k) == if k in roles then Some(roles[k]) else None
  {
    var sel := SelectRuntimeMarketRoleOrder(markets, now, lookahead);
    roles := map[];
    for i := 0 to |sel|
      invariant forall k :: RoleOf(sel[..i], k) == if k in roles then Some(roles[k]) else None
    {
      assert sel[..i + 1][..i] == sel[..i];
      roles := roles[KeyOf(sel[i].0) := sel[i].1];
    }
    assert sel[..|sel|] == sel;
  }

  method AnnotateRuntimeMarketRoles(markets: seq<Market>, now: int, lookahead: int) returns (marked: seq<Annotated>)
    ensures marked == AnnotatedAll(markets, RuntimeSelection(markets, now, lookahead), now)
  {
    var roles := SelectRuntimeMarketKeyRoles(markets, now, lookahead);
    marked := [];
    for i := 0 to |markets|
      invariant |marked| == i
      invariant forall j :: 0 <= j < i ==>
        marked[j] == Annotate(markets[j], RoleOf(RuntimeSelection(markets, now, lookahead), KeyOf(markets[j])), now)
    {
      var key := KeyOf(markets[i]);
      var role := if key in roles then Some(roles[key]) else None;
      marked := marked + [Annotate(markets[i], role, now)];
    }
  }

  method AnnotatedByKey(marked: seq<Annotated>) returns (byKey: map<MarketKey, Annotated>)
    ensures forall k :: LastCopy(marked, k) == if k in byKey then Some(byKey[k]) else None
  {
    byKey := map[];
    for i := 0 to |marked|
      invariant forall k :: LastCopy(marked[..i], k) == if k in byKey then Some(byKey[k]) else None
    {
      assert marked[..i + 1][..i] == marked[..i];
      byKey := byKey[KeyOf(marked[i].market) := marked[i]];
    }
    assert marked[..|marked|] == marked;
  }

  method LookUpEach(byKey: map<MarketKey, Annotated>, ghost marked: seq<Annotated>, sel: Selection)
    returns (selected: seq<Annotated>)
    requires forall k :: LastCopy(marked, k) == if k in byKey then Some(byKey[k]) else None
    ensures selected == LookUpAll(marked, sel)
  {
    selected := [];
    for i := 0 to |sel|
      invariant selected == LookUpAll(marked, sel[..i])
    {
      assert sel[..i + 1][..i] == sel[..i];
      var key := KeyOf(sel[i].0);
      if key in byKey {
        selected := selected + [byKey[key]];
      }
    }
    assert sel[..|sel|] == sel;
  }

  method SelectRuntimeMarkets(markets: seq<Market>, now: int, lookahead: int) returns (selected: seq<Annotated>)
    ensures selected == ReturnedMarkets(markets, now, lookahead)
  {
    var marked := AnnotateRuntimeMarketRoles(markets, now, lookahead);
    var byKey := AnnotatedByKey(marked);
    var sel := SelectRuntimeMarketRoleOrder(markets, now, lookahead);
    selected := LookUpEach(byKey, marked, sel);
  }

  // ---- Under distinct keys the look-ups change nothing ----

  lemma {:induction false} SortedDistinct(leq: (Market, Market) -> bool, s: seq<Market>)
    requires DistinctMarkets(s)
    ensures DistinctMarkets(Sorted(leq, s))
  {
    if s != [] {
      var front, x := s[..|s| - 1], s[|s| - 1];
      SortedDistinct(leq, front);
      var t := Sorted(leq, front);
      var p := InsertSplits(leq, t, x);
      forall q | 0 <= q < |t| ensures t[q] != x {
        SortedMembers(leq, front, t[q]);
      }
    }
  }

  lemma ChosenDistinct(ms: seq<Market>, g: GroupKey, now: int, count: nat)
    requires DistinctMarkets(ms)
    ensures DistinctMarkets(Chosen(ms, now, count)(g))
  {
    WhereDistinct(CurrentOf(g), ms, now);
    WhereDistinct(FutureOf(g), ms, now);
    SortedDistinct(Leq(ByStart), Where(CurrentOf(g), ms, now));
    SortedDistinct(Leq(ByStart), Where(FutureOf(g), ms, now));
    ChosenPicks(ms, g, now, count);
  }

  lemma {:induction false} FlattenGroupMember(keys: seq<GroupKey>, block: GroupKey -> seq<Market>, i: nat)
    requires ByGroup(block) && i < |Flatten(keys, block)|
    ensures Flatten(keys, block)[i].group in keys
  {
    var front := keys[..|keys| - 1];
    if i < |Flatten(front, block)| {
      FlattenGroupMember(front, block, i);
    }
  }

  lemma {:induction false} FlattenDistinct(keys: seq<GroupKey>, block: GroupKey -> seq<Market>)
    requires DistinctKeys(keys) && ByGroup(block) && forall k :: DistinctMarkets(block(k))
    ensures DistinctMarkets(Flatten(keys, block))
  {
    if keys != [] {
      var front, last := keys[..|keys| - 1], keys[|keys| - 1];
      FlattenDistinct(front, block);
      forall i | 0 <= i < |Flatten(front, block)| ensures Flatten(front, block)[i].group != last {
        FlattenGroupMember(front, block, i);
      }
    }
  }

  lemma {:induction false} ChosenAreListed(keys: seq<GroupKey>, ms: seq<Market>, now: int, count: nat, i: nat)
    requires i < |Flatten(keys, Chosen(ms, now, count))|
    ensures Flatten(keys, Chosen(ms, now, count))[i] in ms
  {
    var front, last := keys[..|keys| - 1], keys[|keys| - 1];
    if i < |Flatten(front, Chosen(ms, now, count))| {
      ChosenAreListed(front, ms, now, count, i);
    } else {
      var m := Flatten(keys, Chosen(ms, now, count))[i];
      SortedMembers(Leq(ByStart), Where(CurrentOf(last), ms, now), m);
      SortedMembers(Leq(ByStart), Where(FutureOf(last), ms, now), m);
      WhereMembers(CurrentOf(last), ms, now, m);
      WhereMembers(FutureOf(last), ms, now, m);
    }
  }

  lemma KeysOfListed(ms: seq<Market>, some: seq<Market>)
    requires DistinctMarketKeys(ms) && DistinctMarkets(some)
    requires forall i :: 0 <= i < |some| ==> some[i] in ms
    ensures DistinctMarketKeys(some)
  {
    forall i, j | 0 <= i < j < |some| ensures KeyOf(some[i]) != KeyOf(some[j]) {
      var p :| 0 <= p < |ms| && ms[p] == some[i];
      var q :| 0 <= q < |ms| && ms[q] == some[j];
    }
  }

  /** No key is selected twice, and only listed markets are selected. */
  lemma {:induction false} SelectionHasDistinctKeys(ms: seq<Market>, now: int, lookahead: int)
    requires DistinctMarketKeys(ms)
    ensures var out := Markets(RuntimeSelection(ms, now, lookahead));
      DistinctMarketKeys(out) && forall i :: 0 <= i < |out| ==> out[i] in ms
  {
    var count := AtLeastOne(lookahead);
    var keys := GroupOrder(Where(IsTradable, ms, now));
    MarketsOfAll(keys, ms, now, count);
    GroupOrderDistinct(Where(IsTradable, ms, now));
    ChosenByGroup(ms, now, count);
    forall g ensures DistinctMarkets(Chosen(ms, now, count)(g)) {
      ChosenDistinct(ms, g, now, count);
    }
    FlattenDistinct(keys, Chosen(ms, now, count));
    forall i | 0 <= i < |Flatten(keys, Chosen(ms, now, count))| ensures Flatten(keys, Chosen(ms, now, count))[i] in ms {
      ChosenAreListed(keys, ms, now, count, i);
    }
    KeysOfListed(ms, Markets(RuntimeSelection(ms, now, lookahead)));
  }

  lemma {:induction false} RoleAt(sel: Selection, i: nat)
    requires i < |sel| && forall j :: i < j < |sel| ==> KeyOf(sel[j].0) != KeyOf(sel[i].0)
    ensures RoleOf(sel, KeyOf(sel[i].0)) == Some(sel[i].1)
  {
    if i < |sel| - 1 {
      RoleAt(sel[..|sel| - 1], i);
    }
  }

  // ---- When the look-ups are right ----

  function LastMarket(ms: seq<Market>, key: MarketKey): Option<Market> {
    if ms == [] then None
    else if KeyOf(ms[|ms| - 1]) == key then Some(ms[|ms| - 1])
    else LastMarket(ms[..|ms| - 1], key)
  }

  /** Every selected market with the role of its place in the list. */
  function InRole(sel: Selection, now: int): seq<Annotated> {
    seq(|sel|, i requires 0 <= i < |sel| => Annotate(sel[i].0, Some(sel[i].1), now))
  }

  /** Under each selected key, the last market listed is the selected one and the last role is its role. */
  predicate LookUpsRight(ms: seq<Market>, sel: Selection) {
    forall i :: 0 <= i < |sel| ==> FoundRight(ms, sel, sel[i].0, sel[i].1)
  }

  predicate FoundRight(ms: seq<Market>, sel: Selection, m: Market, role: Window) {
    LastMarket(ms, KeyOf(m)) == Some(m) && RoleOf(sel, KeyOf(m)) == Some(role)
  }

  function CopyOf(ms: seq<Market>, sel: Selection, now: int, key: MarketKey): Option<Annotated> {
    var m := LastMarket(ms, key);
    if m.None? then None else Some(Annotate(m.value, RoleOf(sel, key), now))
  }

  lemma {:induction false} LastCopyIs(ms: seq<Market>, sel: Selection, now: int, key: MarketKey)
    ensures LastCopy(AnnotatedAll(ms, sel, now), key) == CopyOf(ms, sel, now, key)
  {
    if ms != [] {
      var marked, front := AnnotatedAll(ms, sel, now), ms[..|ms| - 1];
      assert marked[..|marked| - 1] == AnnotatedAll(front, sel, now);
      LastCopyIs(front, sel, now, key);
    }
  }

  lemma {:induction false} LastMarketOf(ms: seq<Market>, m: Market)
    requires m in ms
    ensures LastMarket(ms, KeyOf(m)).Some? && LastMarket(ms, KeyOf(m)).value in ms
    ensures KeyOf(LastMarket(ms, KeyOf(m)).value) == KeyOf(m)
  {
    var front := ms[..|ms| - 1];
    assert ms == front + [ms[|ms| - 1]];
    if KeyOf(ms[|ms| - 1]) != KeyOf(m) {
      LastMarketOf(front, m);
    }
  }

  lemma {:induction false} RoleIsKnown(sel: Selection, i: nat)
    requires i < |sel|
    ensures RoleOf(sel, KeyOf(sel[i].0)).Some?
  {
    if i < |sel| - 1 {
      RoleIsKnown(sel[..|sel| - 1], i);
    }
  }

  lemma {:induction false} LookUpAllAt(marked: seq<Annotated>, sel: Selection)
    requires forall i :: 0 <= i < |sel| ==> LastCopy(marked, KeyOf(sel[i].0)).Some?
    ensures |LookUpAll(marked, sel)| == |sel|
    ensures forall i :: 0 <= i < |sel| ==> LookUpAll(marked, sel)[i] == LastCopy(marked, KeyOf(sel[i].0)).value
  {
    if sel != [] {
      LookUpAllAt(marked, sel[..|sel| - 1]);
    }
  }

  lemma AnnotateTells(a: Market, b: Market, p: Window, q: Window, now: int)
    ensures Annotate(a, Some(p), now) == Annotate(b, Some(q), now) <==> a == b && p == q
  {}

  lemma RightIffSame(ms: seq<Market>, sel: Selection, now: int, i: nat)
    requires i < |sel| && sel[i].0 in ms
    ensures CopyOf(ms, sel, now, KeyOf(sel[i].0)) == Some(InRole(sel, now)[i]) <==> FoundRight(ms, sel, sel[i].0, sel[i].1)
    ensures CopyOf(ms, sel, now, KeyOf(sel[i].0)).Some?
  {
    LastMarketOf(ms, sel[i].0);
    RoleIsKnown(sel, i);
    var key := KeyOf(sel[i].0);
    AnnotateTells(LastMarket(ms, key).value, sel[i].0, RoleOf(sel, key).value, sel[i].1, now);
  }

  lemma {:induction false} LookUpsRightIff(ms: seq<Market>, sel: Selection, now: int)
    requires forall i :: 0 <= i < |sel| ==> sel[i].0 in ms
    ensures LookUpAll(AnnotatedAll(ms, sel, now), sel) == InRole(sel, now) <==> LookUpsRight(ms, sel)
  {
    var marked := AnnotatedAll(ms, sel, now);
    forall i | 0 <= i < |sel|
      ensures LastCopy(marked, KeyOf(sel[i].0)).Some?
      ensures LastCopy(marked, KeyOf(sel[i].0)) == Some(InRole(sel, now)[i]) <==> FoundRight(ms, sel, sel[i].0, sel[i].1) {
      LastCopyIs(ms, sel, now, KeyOf(sel[i].0));
      RightIffSame(ms, sel, now, i);
    }
    LookUpAllAt(marked, sel);
    assert LookUpsRight(ms, sel) ==> LookUpAll(marked, sel) == InRole(sel, now);
    if LookUpAll(marked, sel) == InRole(sel, now) {
      forall i | 0 <= i < |sel| ensures FoundRight(ms, sel, sel[i].0, sel[i].1) {
        assert LookUpAll(marked, sel)[i] == InRole(sel, now)[i];
      }
    }
  }

  lemma SelectedAreListed(ms: seq<Market>, now: int, lookahead: int)
    ensures forall i :: 0 <= i < |RuntimeSelection(ms, now, lookahead)| ==> RuntimeSelection(ms, now, lookahead)[i].0 in ms
  {
    var sel, count := RuntimeSelection(ms, now, lookahead), AtLeastOne(lookahead);
    var keys := GroupOrder(Where(IsTradable, ms, now));
    MarketsOfAll(keys, ms, now, count);
    forall i | 0 <= i < |sel| ensures sel[i].0 in ms {
      MarketsAt(sel, i);
      ChosenAreListed(keys, ms, now, count, i);
    }
  }

  /**
    Duplicate keys included: the markets returned are the ones selected, each
    with its role, exactly when every selected key's last market and last role
    are the selected ones.
   */
  lemma {:induction false} RuntimeMarketsInRoleIff(ms: seq<Market>, now: int, lookahead: int)
    ensures ReturnedMarkets(ms, now, lookahead) == InRole(RuntimeSelection(ms, now, lookahead), now) <==>
            LookUpsRight(ms, RuntimeSelection(ms, now, lookahead))
  {
    SelectedAreListed(ms, now, lookahead);
    LookUpsRightIff(ms, RuntimeSelection(ms, now, lookahead), now);
  }

  // ---- Distinct keys ----

  lemma {:induction false} LastMarketAt(ms: seq<Market>, i: nat)
    requires DistinctMarketKeys(ms) && i < |ms|
    ensures LastMarket(ms, KeyOf(ms[i])) == Some(ms[i])
  {
    if i < |ms| - 1 {
      LastMarketAt(ms[..|ms| - 1], i);
    }
  }

  lemma {:induction false} DistinctKeysAreRight(ms: seq<Market>, sel: Selection)
    requires DistinctMarketKeys(ms) && DistinctMarketKeys(Markets(sel))
    requires forall i :: 0 <= i < |sel| ==> sel[i].0 in ms
    ensures LookUpsRight(ms, sel)
  {
    forall i | 0 <= i < |sel| ensures FoundRight(ms, sel, sel[i].0, sel[i].1) {
      var p :| 0 <= p < |ms| && ms[p] == sel[i].0;
      LastMarketAt(ms, p);
      MarketsAt(sel, i);
      forall j | i < j < |sel| ensures KeyOf(sel[j].0) != KeyOf(sel[i].0) {
        MarketsAt(sel, j);
      }
      RoleAt(sel, i);
    }
  }

  /** Where keys are distinct, the markets returned are the ones selected, each with its role. */
  lemma {:induction false} RuntimeMarketsInRole(ms: seq<Market>, now: int, lookahead: int)
    requires DistinctMarketKeys(ms)
    ensures LookUpsRight(ms, RuntimeSelection(ms, now, lookahead))
    ensures ReturnedMarkets(ms, now, lookahead) == InRole(RuntimeSelection(ms, now, lookahead), now)
  {
    SelectedAreListed(ms, now, lookahead);
    SelectionHasDistinctKeys(ms, now, lookahead);
    DistinctKeysAreRight(ms, RuntimeSelection(ms, now, lookahead));
    RuntimeMarketsInRoleIff(ms, now, lookahead);
  }

  function Plain(marked: seq<Annotated>): seq<Market> {
    seq(|marked|, i requires 0 <= i < |marked| => marked[i].market)
  }

  /** Look-ups that are right stay right among the selected markets: one key stands for one market there. */
  lemma RightAmongSelected(ms: seq<Market>, sel: Selection)
    requires LookUpsRight(ms, sel)
    ensures LookUpsRight(Markets(sel), sel)
  {
    MarketsAt(sel, 0);
    forall i | 0 <= i < |sel| ensures FoundRight(Markets(sel), sel, sel[i].0, sel[i].1) {
      MarketsAt(sel, i);
      assert FoundRight(ms, sel, sel[i].0, sel[i].1);
      assert Markets(sel)[i] in Markets(sel);
      LastMarketOf(Markets(sel), sel[i].0);
      var j :| 0 <= j < |sel| && Markets(sel)[j] == LastMarket(Markets(sel), KeyOf(sel[i].0)).value;
      MarketsAt(sel, j);
      assert FoundRight(ms, sel, sel[j].0, sel[j].1);
    }
  }

  lemma PlainInRole(sel: Selection, now: int)
    ensures Plain(InRole(sel, now)) == Markets(sel)
  {
    MarketsAt(sel, 0);
    forall i | 0 <= i < |sel| ensures Markets(sel)[i] == Plain(InRole(sel, now))[i] {
      MarketsAt(sel, i);
    }
  }

  /**
    Where its look-ups are right, `select_runtime_markets` returns its own
    result unchanged; so it does among distinct keys.
   */
  lemma {:induction false} SelectingAgainChangesNothing(ms: seq<Market>, now: int, lookahead: int)
    requires LookUpsRight(ms, RuntimeSelection(ms, now, lookahead))
    ensures ReturnedMarkets(Plain(ReturnedMarkets(ms, now, lookahead)), now, lookahead) == ReturnedMarkets(ms, now, lookahead)
  {
    var sel := RuntimeSelection(ms, now, lookahead);
    RuntimeMarketsInRoleIff(ms, now, lookahead);
    PlainInRole(sel, now);
    RuntimeSelectionIdempotent(ms, now, lookahead);
    RightAmongSelected(ms, sel);
    RuntimeMarketsInRoleIff(Markets(sel), now, lookahead);
  }

  lemma WhereOfOne(pick: Pick, a: Market, now: int)
    ensures Where(pick, [a], now) == if Picks(pick, a, now) then [a] else []
  {
    if Picks(pick, a, now) { WhereAll(pick, [a], now); } else { WhereNone(pick, [a], now); }
  }

  lemma WhereOfTwo(pick: Pick, a: Market, b: Market, now: int)
    ensures Where(pick, [a, b], now) == (if Picks(pick, a, now) then [a] else []) + if Picks(pick, b, now) then [b] else []
  {
    WhereOfOne(pick, a, now);
    WhereOfOne(pick, b, now);
    WhereConcat(pick, [a], [b], now);
    assert [a, b] == [a] + [b];
  }

  lemma OneGroup(ms: seq<Market>, now: int, lookahead: int, m: Market)
    requires Where(IsTradable, ms, now) == [m]
    ensures RuntimeSelection(ms, now, lookahead) == GroupRoles(ms, m.group, ByStart, now, AtLeastOne(lookahead))
  {
    var block := Block(ms, ByStart, now, AtLeastOne(lookahead));
    assert [m][..0] == [] && [m.group][..0] == [];
    assert GroupOrder([m]) == [m.group];
    assert Flatten([m.group], block) == Flatten([], block) + block(m.group);
  }

  lemma NoneTradable(ms: seq<Market>, now: int, lookahead: int)
    requires Where(IsTradable, ms, now) == []
    ensures RuntimeSelection(ms, now, lookahead) == []
  {}

  lemma OneWarmup(ms: seq<Market>, g: GroupKey, now: int, count: nat, m: Market)
    requires count >= 1 && Where(CurrentOf(g), ms, now) == [] && Where(FutureOf(g), ms, now) == [m]
    ensures GroupRoles(ms, g, ByStart, now, count) == [(m, NextWarmup)]
  {
    assert [m][..0] == [];
    assert Sorted(Leq(ByStart), [m]) == [m];
  }

  lemma OneLookUp(ms: seq<Market>, m: Market, role: Window, now: int)
    requires ms != [] && KeyOf(ms[|ms| - 1]) == KeyOf(m)
    ensures Plain(LookUpAll(AnnotatedAll(ms, [(m, role)], now), [(m, role)])) == [ms[|ms| - 1]]
  {
    var marked := AnnotatedAll(ms, [(m, role)], now);
    assert [(m, role)][..0] == [];
    assert LookUpAll(marked, []) == [];
  }

  lemma OnlyGoodCopySelected(good: Market, bad: Market, now: int, count: nat)
    requires good.group == bad.group && count >= 1
    requires Tradable(good, now) && StartKey(good) > now && !Tradable(bad, now)
    ensures GroupRoles([good, bad], good.group, ByStart, now, count) == [(good, NextWarmup)]
  {
    WhereOfTwo(CurrentOf(good.group), good, bad, now);
    WhereOfTwo(FutureOf(good.group), good, bad, now);
    OneWarmup([good, bad], good.group, now, count, good);
  }

  /**
    Two copies of one key, only the first tradable: the second is returned in
    its place, and selecting again drops it.
   */
  lemma {:induction false} UntradableCopyIsReturned(good: Market, bad: Market, now: int, lookahead: int)
    requires KeyOf(good) == KeyOf(bad) && good.group == bad.group
    requires Tradable(good, now) && StartKey(good) > now && !Tradable(bad, now)
    ensures Plain(ReturnedMarkets([good, bad], now, lookahead)) == [bad]
    ensures ReturnedMarkets([bad], now, lookahead) == []
  {
    WhereOfTwo(IsTradable, good, bad, now);
    WhereOfOne(IsTradable, bad, now);
    OneGroup([good, bad], now, lookahead, good);
    OnlyGoodCopySelected(good, bad, now, AtLeastOne(lookahead));
    NoneTradable([bad], now, lookahead);
    OneLookUp([good, bad], good, NextWarmup, now);
  }
}
