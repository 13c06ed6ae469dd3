/**
  Which prediction markets to follow now and which to warm up next: two
  selectors written apart, one sorting by start time, one by start text.
 */
module MarketSelection {
  import opened Options
  import opened StableSort

  datatype Window =
    | Closed | ActiveButNotAccepting | MissingOrderbook | MissingTokens | Unknown | RuntimeTradable | Expired
    | CurrentSignal | NextWarmup | FutureTracked

  datatype GroupKey = GroupKey(baseAsset: Option<string>, durationMinutes: Option<int>)

  /** Times are given both as text and as the seconds parsed from it. */
  datatype Market = Market(
    marketId: string,
    tokenIds: seq<string>,
    slug: string,
    group: GroupKey,
    active: Option<bool>,
    closed: Option<bool>,
    acceptingOrders: Option<bool>,
    enableOrderBook: Option<bool>,
    upTokenId: Option<string>,
    downTokenId: Option<string>,
    eventStartText: Option<string>,
    startText: Option<string>,
    eventStartTs: Option<int>,
    startTs: Option<int>,
    slugStartTs: Option<int>,
    endTs: Option<int>)

  datatype MarketKey = MarketKey(marketId: string, tokenIds: seq<string>)

  function KeyOf(m: Market): MarketKey {
    MarketKey(m.marketId, m.tokenIds)
  }

  /** The first time that is present and not 0, else 0. */
  function StartKey(m: Market): int {
    if m.eventStartTs.Some? && m.eventStartTs.value != 0 then m.eventStartTs.value
    else if m.startTs.Some? && m.startTs.value != 0 then m.startTs.value
    else if m.slugStartTs.Some? then m.slugStartTs.value
    else 0
  }

  function StartText(m: Market): string {
    if m.eventStartText.Some? && m.eventStartText.value != "" then m.eventStartText.value
    else if m.startText.Some? && m.startText.value != "" then m.startText.value
    else m.slug
  }

  predicate Tradable(m: Market, now: int) {
    && m.active == Some(true)
    && m.closed == Some(false)
    && m.acceptingOrders == Some(true)
    && m.enableOrderBook == Some(true)
    && m.upTokenId.Some? && m.downTokenId.Some?
    && |m.tokenIds| >= 2
    && m.endTs.Some? && m.endTs.value > now
  }

  function Classify(m: Market, now: int): Window {
    if m.closed == Some(true) then Closed
    else if m.active == Some(true) && m.closed == Some(false) && m.acceptingOrders != Some(true) then ActiveButNotAccepting
    else if m.active == Some(true) && m.closed == Some(false) && m.enableOrderBook != Some(true) then MissingOrderbook
    else if m.upTokenId.None? || m.downTokenId.None? || |m.tokenIds| < 2 then MissingTokens
    else if m.active != Some(true) || m.closed != Some(false) then Unknown
    else if m.endTs.None? then RuntimeTradable
    else if m.endTs.value <= now then Expired
    else if StartKey(m) <= now < m.endTs.value then CurrentSignal
    else if StartKey(m) > now then
      if m.group.durationMinutes.Some? && StartKey(m) - now <= m.group.durationMinutes.value * 60 then NextWarmup
      else FutureTracked
    else Expired
  }

  // ---- Orders ----

  /** Python's string order. */
  predicate StringLeq(a: string, b: string) {
    a == "" || (b != "" && if a[0] == b[0] then StringLeq(a[1..], b[1..]) else a[0] < b[0])
  }

  lemma {:induction false} StringLeqTotal(a: string, b: string)
    ensures StringLeq(a, b) || StringLeq(b, a)
    ensures StringLeq(a, b) && StringLeq(b, a) ==> a == b
  {
    if a != "" && b != "" && a[0] == b[0] {
      StringLeqTotal(a[1..], b[1..]);
      assert a == [a[0]] + a[1..] && b == [b[0]] + b[1..];
    }
  }

  lemma {:induction false} StringLeqTransitive(a: string, b: string, c: string)
    requires StringLeq(a, b) && StringLeq(b, c)
    ensures StringLeq(a, c)
  {
    if a != "" && a[0] == b[0] && b[0] == c[0] {
      StringLeqTransitive(a[1..], b[1..], c[1..]);
    }
  }

  datatype SortedBy = ByStart | ByText

  function Leq(how: SortedBy): (Market, Market) -> bool {
    if how == ByStart then (a: Market, b: Market) => StartKey(a) <= StartKey(b)
    else (a: Market, b: Market) => TextLeq(a, b)
  }

  predicate TextLeq(a: Market, b: Market) {
    if StartText(a) == StartText(b) then StringLeq(a.marketId, b.marketId) else StringLeq(StartText(a), StartText(b))
  }

  lemma LeqIsTotalPreorder(how: SortedBy)
    ensures TotalPreorder(Leq(how))
  {
    if how == ByText {
      forall a, b ensures TextLeq(a, b) || TextLeq(b, a) {
        StringLeqTotal(StartText(a), StartText(b));
        StringLeqTotal(a.marketId, b.marketId);
      }
      forall a, b, c | TextLeq(a, b) && TextLeq(b, c) ensures TextLeq(a, c) {
        TextLeqTransitive(a, b, c);
      }
    }
  }

  lemma TextLeqTransitive(a: Market, b: Market, c: Market)
    requires TextLeq(a, b) && TextLeq(b, c)
    ensures TextLeq(a, c)
  {
    var x, y, z := StartText(a), StartText(b), StartText(c);
    if x == y && y == z {
      StringLeqTransitive(a.marketId, b.marketId, c.marketId);
    } else if x != y && y != z {
      StringLeqTransitive(x, y, z);
      if x == z { StringLeqTotal(x, y); }
    }
  }

  // ---- Picking ----

  datatype Pick =
    | IsTradable | OfGroup(g: GroupKey) | InCurrentWindow | StartsLater | UniverseCurrent | UniverseFuture
    | TradableOf(g: GroupKey) | CurrentOf(g: GroupKey) | FutureOf(g: GroupKey)

  predicate Picks(pick: Pick, m: Market, now: int) {
    match pick
    case IsTradable => Tradable(m, now)
    case OfGroup(g) => m.group == g
    case InCurrentWindow => m.endTs.Some? && StartKey(m) <= now < m.endTs.value
    case StartsLater => StartKey(m) > now
    case UniverseCurrent => Tradable(m, now) && Classify(m, now) == CurrentSignal
    case UniverseFuture => Tradable(m, now) && (Classify(m, now) == NextWarmup || Classify(m, now) == FutureTracked)
    case TradableOf(g) => Tradable(m, now) && m.group == g
    case CurrentOf(g) => Tradable(m, now) && m.group == g && StartKey(m) <= now
    case FutureOf(g) => Tradable(m, now) && m.group == g && StartKey(m) > now
  }

  function Where(pick: Pick, ms: seq<Market>, now: int): seq<Market> {
    if ms == [] then []
    else Where(pick, ms[..|ms| - 1], now) + if Picks(pick, ms[|ms| - 1], now) then [ms[|ms| - 1]] else []
  }

  lemma {:induction false} WhereMembers(pick: Pick, ms: seq<Market>, now: int, m: Market)
    ensures m in Where(pick, ms, now) <==> m in ms && Picks(pick, m, now)
  {
    if ms != [] {
      WhereMembers(pick, ms[..|ms| - 1], now, m);
      assert ms == ms[..|ms| - 1] + [ms[|ms| - 1]];
    }
  }

  lemma {:induction false} WhereConcat(pick: Pick, a: seq<Market>, b: seq<Market>, now: int)
    ensures Where(pick, a + b, now) == Where(pick, a, now) + Where(pick, b, now)
  {
    if b == [] {
      assert a + b == a;
    } else {
      assert (a + b)[..|a + b| - 1] == a + b[..|b| - 1];
      WhereConcat(pick, a, b[..|b| - 1], now);
    }
  }

  /** Picking twice is picking once by both conditions. */
  lemma {:induction false} WhereTwice(first: Pick, second: Pick, both: Pick, ms: seq<Market>, now: int)
    requires forall m :: Picks(both, m, now) <==> Picks(first, m, now) && Picks(second, m, now)
    ensures Where(second, Where(first, ms, now), now) == Where(both, ms, now)
  {
    if ms != [] {
      var front, last := ms[..|ms| - 1], ms[|ms| - 1];
      WhereTwice(first, second, both, front, now);
      var picked := if Picks(first, last, now) then [last] else [];
      WhereConcat(second, Where(first, front, now), picked, now);
      assert picked != [] ==> picked[..0] == [];
    }
  }

  lemma {:induction false} WhereAll(pick: Pick, ms: seq<Market>, now: int)
    requires forall i :: 0 <= i < |ms| ==> Picks(pick, ms[i], now)
    ensures Where(pick, ms, now) == ms
  {
    if ms != [] {
      WhereAll(pick, ms[..|ms| - 1], now);
      assert ms == ms[..|ms| - 1] + [ms[|ms| - 1]];
    }
  }

  lemma {:induction false} WhereNone(pick: Pick, ms: seq<Market>, now: int)
    requires forall i :: 0 <= i < |ms| ==> !Picks(pick, ms[i], now)
    ensures Where(pick, ms, now) == []
  {
    if ms != [] {
      WhereNone(pick, ms[..|ms| - 1], now);
    }
  }

  // ---- Groups and roles ----

  /** The groups in the order in which they are first met. */
  function GroupOrder(ms: seq<Market>): seq<GroupKey> {
    if ms == [] then []
    else
      var before := GroupOrder(ms[..|ms| - 1]);
      if ms[|ms| - 1].group in before then before else before + [ms[|ms| - 1].group]
  }

  type Selection = seq<(Market, Window)>

  function WithRole(ms: seq<Market>, role: Window): Selection {
    seq(|ms|, i requires 0 <= i < |ms| => (ms[i], role))
  }

  /** The first `count` of a sorted list of future markets: one to warm up, the rest tracked. */
  function FutureRoles(sorted: seq<Market>, count: nat): Selection {
    seq(if |sorted| < count then |sorted| else count,
        i requires 0 <= i < |sorted| => (sorted[i], if i == 0 then NextWarmup else FutureTracked))
  }

  function GroupRoles(ms: seq<Market>, g: GroupKey, how: SortedBy, now: int, count: nat): Selection {
    WithRole(Sorted(Leq(how), Where(CurrentOf(g), ms, now)), CurrentSignal)
    + FutureRoles(Sorted(Leq(how), Where(FutureOf(g), ms, now)), count)
  }

  /** What `block` gives each of `keys`, one after the other. */
  function Flatten<K, T>(keys: seq<K>, block: K -> seq<T>): seq<T> {
    if keys == [] then [] else Flatten(keys[..|keys| - 1], block) + block(keys[|keys| - 1])
  }

  function Block(ms: seq<Market>, how: SortedBy, now: int, count: nat): GroupKey -> Selection {
    g => GroupRoles(ms, g, how, now, count)
  }

  function AllRoles(order: seq<GroupKey>, ms: seq<Market>, how: SortedBy, now: int, count: nat): Selection {
    Flatten(order, Block(ms, how, now, count))
  }

  function AtLeastOne(lookahead: int): nat {
    if lookahead > 1 then lookahead else 1
  }

  /** `select_runtime_markets`: the markets in their order, each with its role. */
  function RuntimeSelection(ms: seq<Market>, now: int, lookahead: int): Selection {
    AllRoles(GroupOrder(Where(IsTradable, ms, now)), ms, ByStart, now, AtLeastOne(lookahead))
  }

  /** `select_runtime_market_universe`, for a lookahead that is not negative. */
  function UniverseSelection(ms: seq<Market>, now: int, lookahead: nat): Selection {
    AllRoles(GroupOrder(ms), ms, ByText, now, lookahead)
  }

  // ---- The two selectors as the program runs them ----

  lemma TradableWindows(m: Market, now: int)
    requires Tradable(m, now)
    ensures Classify(m, now) == CurrentSignal <==> StartKey(m) <= now
    ensures Classify(m, now) == NextWarmup || Classify(m, now) == FutureTracked <==> StartKey(m) > now
  {}

  /** The filters of the two programs pick the same markets of a group. */
  lemma RuntimeFilters(ms: seq<Market>, g: GroupKey, now: int)
    ensures var tradable := Where(OfGroup(g), Where(IsTradable, ms, now), now);
      && Where(InCurrentWindow, tradable, now) == Where(CurrentOf(g), ms, now)
      && Where(StartsLater, tradable, now) == Where(FutureOf(g), ms, now)
  {
    WhereTwice(IsTradable, OfGroup(g), TradableOf(g), ms, now);
    WhereTwice(TradableOf(g), InCurrentWindow, CurrentOf(g), ms, now);
    WhereTwice(TradableOf(g), StartsLater, FutureOf(g), ms, now);
  }

  lemma UniverseFilters(ms: seq<Market>, g: GroupKey, now: int)
    ensures var group := Where(OfGroup(g), ms, now);
      && Where(UniverseCurrent, group, now) == Where(CurrentOf(g), ms, now)
      && Where(UniverseFuture, group, now) == Where(FutureOf(g), ms, now)
  {
    forall m | Tradable(m, now)
      ensures Classify(m, now) == CurrentSignal <==> StartKey(m) <= now
      ensures Classify(m, now) == NextWarmup || Classify(m, now) == FutureTracked <==> StartKey(m) > now
    {
      TradableWindows(m, now);
    }
    WhereTwice(OfGroup(g), UniverseCurrent, CurrentOf(g), ms, now);
    WhereTwice(OfGroup(g), UniverseFuture, FutureOf(g), ms, now);
  }

  /** The dictionary of groups and the list of their keys, as both selectors build them. */
  ghost predicate Grouped(groups: map<GroupKey, seq<Market>>, order: seq<GroupKey>, ms: seq<Market>, now: int) {
    && order == GroupOrder(ms)
    && (forall g :: g in groups <==> g in order)
    && (forall g :: g in groups ==> groups[g] == Where(OfGroup(g), ms, now))
  }

  lemma {:induction false} UnseenGroupIsEmpty(ms: seq<Market>, g: GroupKey, now: int)
    ensures g !in GroupOrder(ms) ==> Where(OfGroup(g), ms, now) == []
  {
    if ms != [] {
      UnseenGroupIsEmpty(ms[..|ms| - 1], g, now);
    }
  }

  method AddToGroups(groups: map<GroupKey, seq<Market>>, order: seq<GroupKey>, ghost before: seq<Market>, market: Market,
                     ghost now: int)
    returns (groups': map<GroupKey, seq<Market>>, order': seq<GroupKey>)
    requires Grouped(groups, order, before, now)
    ensures Grouped(groups', order', before + [market], now)
  {
    var key := market.group;
    groups', order' := groups, order;
    assert (before + [market])[..|before|] == before;
    UnseenGroupIsEmpty(before, key, now);
    if key !in groups {
      groups' := groups'[key := []];
      order' := order' + [key];
    }
    groups' := groups'[key := groups'[key] + [market]];
  }

  method GroupTradable(markets: seq<Market>, now: int) returns (groups: map<GroupKey, seq<Market>>, order: seq<GroupKey>)
    ensures Grouped(groups, order, Where(IsTradable, markets, now), now)
  {
    groups, order := map[], [];
    ghost var seen: seq<Market> := [];
    for i := 0 to |markets|
      invariant seen == Where(IsTradable, markets[..i], now)
      invariant Grouped(groups, order, seen, now)
    {
      assert markets[..i + 1][..i] == markets[..i];
      if Tradable(markets[i], now) {
        groups, order := AddToGroups(groups, order, seen, markets[i], now);
        seen := seen + [markets[i]];
      }
    }
    assert markets[..|markets|] == markets;
  }

  /** `_select_runtime_market_key_role_order`. */
  method SelectRuntimeMarketRoleOrder(markets: seq<Market>, now: int, lookahead: int) returns (selected: Selection)
    ensures selected == RuntimeSelection(markets, now, lookahead)
  {
    var groups, order := GroupTradable(markets, now);
    selected := [];
    for j := 0 to |order|
      invariant selected == AllRoles(order[..j], markets, ByStart, now, AtLeastOne(lookahead))
    {
      assert order[..j + 1][..j] == order[..j];
      var group := groups[order[j]];
      RuntimeFilters(markets, order[j], now);
      var current := Sorted(Leq(ByStart), Where(InCurrentWindow, group, now));
      var futures := Sorted(Leq(ByStart), Where(StartsLater, group, now));
      var roles := WithRole(current, CurrentSignal) + FutureRoles(futures, AtLeastOne(lookahead));
      assert roles == Block(markets, ByStart, now, AtLeastOne(lookahead))(order[j]);
      selected := selected + roles;
    }
    assert order[..|order|] == order;
  }

  method GroupAll(markets: seq<Market>, ghost now: int) returns (groups: map<GroupKey, seq<Market>>, order: seq<GroupKey>)
    ensures Grouped(groups, order, markets, now)
  {
    groups, order := map[], [];
    for i := 0 to |markets|
      invariant Grouped(groups, order, markets[..i], now)
    {
      assert markets[..i + 1] == markets[..i] + [markets[i]];
      groups, order := AddToGroups(groups, order, markets[..i], markets[i], now);
    }
    assert markets[..|markets|] == markets;
  }

  method SelectRuntimeMarketUniverse(markets: seq<Market>, now: int, lookahead: nat) returns (selected: Selection)
    ensures selected == UniverseSelection(markets, now, lookahead)
  {
    var groups, order := GroupAll(markets, now);
    selected := [];
    for j := 0 to |order|
      invariant selected == AllRoles(order[..j], markets, ByText, now, lookahead)
    {
      assert order[..j + 1][..j] == order[..j];
      var group := groups[order[j]];
      UniverseFilters(markets, order[j], now);
      var current := Sorted(Leq(ByText), Where(UniverseCurrent, group, now));
      var futures := Sorted(Leq(ByText), Where(UniverseFuture, group, now));
      var roles := WithRole(current, CurrentSignal) + FutureRoles(futures, lookahead);
      assert roles == Block(markets, ByText, now, lookahead)(order[j]);
      selected := selected + roles;
    }
    assert order[..|order|] == order;
  }

  // ---- Who is selected, by counting ----

  /** The role of a future market that `rank` others of its group come before. */
  function RankRole(rank: nat, count: nat): Option<Window> {
    if rank >= count then None else if rank == 0 then Some(NextWarmup) else Some(FutureTracked)
  }

  function Futures(ms: seq<Market>, g: GroupKey, now: int): seq<Market> {
    Where(FutureOf(g), ms, now)
  }

  lemma {:induction false} SortedMembers(leq: (Market, Market) -> bool, s: seq<Market>, m: Market)
    ensures m in Sorted(leq, s) <==> m in s
  {
    if s != [] {
      var front, x := s[..|s| - 1], s[|s| - 1];
      SortedMembers(leq, front, m);
      var p := InsertSplits(leq, Sorted(leq, front), x);
      var t := Sorted(leq, front);
      assert t == t[..p] + t[p..] && s == front + [x];
    }
  }

  lemma GroupRolesMeaning(ms: seq<Market>, g: GroupKey, how: SortedBy, now: int, count: nat, m: Market, r: Window)
    ensures (m, r) in GroupRoles(ms, g, how, now, count) <==>
      || (r == CurrentSignal && m in ms && Picks(CurrentOf(g), m, now))
      || (exists i :: FutureAt(ms, g, how, now, count, m, r, i))
  {
    var current := Sorted(Leq(how), Where(CurrentOf(g), ms, now));
    SortedMembers(Leq(how), Where(CurrentOf(g), ms, now), m);
    WhereMembers(CurrentOf(g), ms, now, m);
    assert (m, r) in WithRole(current, CurrentSignal) <==> r == CurrentSignal && m in current by {
      if m in current {
        var i :| 0 <= i < |current| && current[i] == m;
        assert WithRole(current, CurrentSignal)[i] == (m, CurrentSignal);
      }
    }
    FutureRolesMeaning(ms, g, how, now, count, m, r);
  }

  /** `m` is the `i`th future market of its group and its rank gives it the role `r`. */
  ghost predicate FutureAt(ms: seq<Market>, g: GroupKey, how: SortedBy, now: int, count: nat, m: Market, r: Window, i: int) {
    var f := Futures(ms, g, now);
    0 <= i < |f| && f[i] == m && RankRole(Rank(Leq(how), f, i), count) == Some(r)
  }

  lemma FutureRolesMeaning(ms: seq<Market>, g: GroupKey, how: SortedBy, now: int, count: nat, m: Market, r: Window)
    ensures (m, r) in FutureRoles(Sorted(Leq(how), Futures(ms, g, now)), count) <==>
            exists i :: FutureAt(ms, g, how, now, count, m, r, i)
  {
    var f := Futures(ms, g, now);
    var sorted := Sorted(Leq(how), f);
    LeqIsTotalPreorder(how);
    SortedInOrder(Leq(how), f);
    if (m, r) in FutureRoles(sorted, count) {
      var q :| 0 <= q < |FutureRoles(sorted, count)| && FutureRoles(sorted, count)[q] == (m, r);
      var i := RankReaches(Leq(how), f, q);
      RankPlaces(Leq(how), f, i);
      assert FutureAt(ms, g, how, now, count, m, r, i);
    }
    if i :| FutureAt(ms, g, how, now, count, m, r, i) {
      RankPlaces(Leq(how), f, i);
      assert FutureRoles(sorted, count)[Rank(Leq(how), f, i)] == (m, r);
    }
  }

  lemma {:induction false} FlattenMembers<K, T>(keys: seq<K>, block: K -> seq<T>, x: T) returns (k: Option<K>)
    ensures x in Flatten(keys, block) <==> k.Some?
    ensures k.Some? ==> k.value in keys && x in block(k.value)
    ensures k.None? ==> forall j :: 0 <= j < |keys| ==> x !in block(keys[j])
  {
    if keys == [] {
      k := None;
    } else if x in block(keys[|keys| - 1]) {
      k := Some(keys[|keys| - 1]);
    } else {
      k := FlattenMembers(keys[..|keys| - 1], block, x);
    }
  }

  lemma {:induction false} GroupOrderMembers(ms: seq<Market>, g: GroupKey)
    ensures g in GroupOrder(ms) <==> exists i :: 0 <= i < |ms| && ms[i].group == g
  {
    if ms != [] {
      var front := ms[..|ms| - 1];
      GroupOrderMembers(front, g);
      assert forall i :: 0 <= i < |front| ==> front[i] == ms[i];
    }
  }

  lemma FutureIsTradable(ms: seq<Market>, g: GroupKey, how: SortedBy, now: int, count: nat, m: Market, r: Window, i: int)
    requires FutureAt(ms, g, how, now, count, m, r, i)
    ensures m in ms && Tradable(m, now) && m.group == g
  {
    WhereMembers(FutureOf(g), ms, now, m);
  }

  /** A selected market is tradable and of the group it is selected in. */
  lemma SelectedIsTradable(ms: seq<Market>, g: GroupKey, how: SortedBy, now: int, count: nat, m: Market, r: Window)
    requires (m, r) in GroupRoles(ms, g, how, now, count)
    ensures m in ms && Tradable(m, now) && m.group == g
  {
    GroupRolesMeaning(ms, g, how, now, count, m, r);
    if i :| FutureAt(ms, g, how, now, count, m, r, i) {
      FutureIsTradable(ms, g, how, now, count, m, r, i);
    }
  }

  lemma AllRolesMeaning(order: seq<GroupKey>, ms: seq<Market>, how: SortedBy, now: int, count: nat, m: Market, r: Window)
    requires m in ms && Tradable(m, now) ==> m.group in order
    ensures (m, r) in AllRoles(order, ms, how, now, count) <==> (m, r) in Block(ms, how, now, count)(m.group)
  {
    var block := Block(ms, how, now, count);
    var g := FlattenMembers(order, block, (m, r));
    if g.Some? {
      SelectedIsTradable(ms, g.value, how, now, count, m, r);
    } else if (m, r) in block(m.group) {
      SelectedIsTradable(ms, m.group, how, now, count, m, r);
    }
  }

  lemma KnownGroup(ms: seq<Market>, m: Market)
    requires m in ms
    ensures m.group in GroupOrder(ms)
  {
    var i :| 0 <= i < |ms| && ms[i] == m;
    GroupOrderMembers(ms, m.group);
    assert ms[i].group == m.group;
  }

  /** Both selections hold exactly what each market's own group gives it. */
  lemma SelectionMeaning(ms: seq<Market>, now: int, lookahead: nat, m: Market, r: Window)
    ensures (m, r) in RuntimeSelection(ms, now, lookahead) <==>
            (m, r) in GroupRoles(ms, m.group, ByStart, now, AtLeastOne(lookahead))
    ensures (m, r) in UniverseSelection(ms, now, lookahead) <==> (m, r) in GroupRoles(ms, m.group, ByText, now, lookahead)
  {
    var tradable := Where(IsTradable, ms, now);
    if m in ms && Tradable(m, now) {
      WhereMembers(IsTradable, ms, now, m);
      KnownGroup(tradable, m);
      KnownGroup(ms, m);
    }
    AllRolesMeaning(GroupOrder(tradable), ms, ByStart, now, AtLeastOne(lookahead), m, r);
    AllRolesMeaning(GroupOrder(ms), ms, ByText, now, lookahead, m, r);
  }

  /** The futures of a group, each at one place only. */
  ghost predicate DistinctMarkets(ms: seq<Market>) {
    forall i, j :: 0 <= i < j < |ms| ==> ms[i] != ms[j]
  }

  lemma {:induction false} WhereDistinct(pick: Pick, ms: seq<Market>, now: int)
    requires DistinctMarkets(ms)
    ensures DistinctMarkets(Where(pick, ms, now))
  {
    if ms != [] {
      var front := ms[..|ms| - 1];
      WhereDistinct(pick, front, now);
      forall i | 0 <= i < |Where(pick, front, now)| ensures Where(pick, front, now)[i] != ms[|ms| - 1] {
        WhereMembers(pick, front, now, Where(pick, front, now)[i]);
      }
    }
  }

  /** In every group, counting by start time and counting by start text give each future market the same role. */
  ghost predicate RanksAgree(ms: seq<Market>, now: int, count: nat) {
    forall g, i :: 0 <= i < |Futures(ms, g, now)| ==>
      RankRole(Rank(Leq(ByText), Futures(ms, g, now), i), count) == RankRole(Rank(Leq(ByStart), Futures(ms, g, now), i), count)
  }

  ghost predicate SelectorsAgree(ms: seq<Market>, now: int, lookahead: nat) {
    forall m, r :: (m, r) in RuntimeSelection(ms, now, lookahead) <==> (m, r) in UniverseSelection(ms, now, lookahead)
  }

  lemma OnePlaceOnly(ms: seq<Market>, g: GroupKey, how: SortedBy, now: int, count: nat, i: nat, r: Window)
    requires DistinctMarkets(ms) && i < |Futures(ms, g, now)|
    ensures (exists j :: FutureAt(ms, g, how, now, count, Futures(ms, g, now)[i], r, j)) <==>
            FutureAt(ms, g, how, now, count, Futures(ms, g, now)[i], r, i)
  {
    WhereDistinct(FutureOf(g), ms, now);
  }

  /** A future market is selected with the role its rank gives it, and with no other. */
  lemma FutureSelectedByRank(ms: seq<Market>, g: GroupKey, how: SortedBy, now: int, count: nat, i: nat, r: Window)
    requires DistinctMarkets(ms) && i < |Futures(ms, g, now)|
    ensures (Futures(ms, g, now)[i], r) in GroupRoles(ms, g, how, now, count) <==>
            RankRole(Rank(Leq(how), Futures(ms, g, now), i), count) == Some(r)
  {
    var m := Futures(ms, g, now)[i];
    WhereMembers(FutureOf(g), ms, now, m);
    GroupRolesMeaning(ms, g, how, now, count, m, r);
    OnePlaceOnly(ms, g, how, now, count, i, r);
  }

  ghost predicate GroupsAgreeOn(ms: seq<Market>, now: int, lookahead: nat, m: Market, r: Window) {
    (m, r) in GroupRoles(ms, m.group, ByText, now, lookahead) <==> (m, r) in GroupRoles(ms, m.group, ByStart, now, lookahead)
  }

  lemma GroupsAgree(ms: seq<Market>, now: int, lookahead: nat, m: Market, r: Window)
    requires lookahead >= 1 && SelectorsAgree(ms, now, lookahead)
    ensures GroupsAgreeOn(ms, now, lookahead, m, r)
  {
    SelectionMeaning(ms, now, lookahead, m, r);
    assert (m, r) in RuntimeSelection(ms, now, lookahead) <==> (m, r) in UniverseSelection(ms, now, lookahead);
  }

  lemma FutureGroup(ms: seq<Market>, g: GroupKey, now: int, i: nat)
    requires i < |Futures(ms, g, now)|
    ensures Futures(ms, g, now)[i].group == g
  {
    WhereMembers(FutureOf(g), ms, now, Futures(ms, g, now)[i]);
  }

  lemma AgreementAtRole(ms: seq<Market>, now: int, lookahead: nat, g: GroupKey, i: nat, r: Window)
    requires DistinctMarkets(ms) && i < |Futures(ms, g, now)|
    requires GroupsAgreeOn(ms, now, lookahead, Futures(ms, g, now)[i], r)
    ensures RankRole(Rank(Leq(ByText), Futures(ms, g, now), i), lookahead) == Some(r) <==>
            RankRole(Rank(Leq(ByStart), Futures(ms, g, now), i), lookahead) == Some(r)
  {
    FutureGroup(ms, g, now, i);
    FutureSelectedByRank(ms, g, ByText, now, lookahead, i, r);
    FutureSelectedByRank(ms, g, ByStart, now, lookahead, i, r);
  }

  lemma AgreementAtFuture(ms: seq<Market>, now: int, lookahead: nat, g: GroupKey, i: nat)
    requires lookahead >= 1 && DistinctMarkets(ms) && SelectorsAgree(ms, now, lookahead)
    requires i < |Futures(ms, g, now)|
    ensures RankRole(Rank(Leq(ByText), Futures(ms, g, now), i), lookahead)
            == RankRole(Rank(Leq(ByStart), Futures(ms, g, now), i), lookahead)
  {
    GroupsAgree(ms, now, lookahead, Futures(ms, g, now)[i], NextWarmup);
    AgreementAtRole(ms, now, lookahead, g, i, NextWarmup);
    GroupsAgree(ms, now, lookahead, Futures(ms, g, now)[i], FutureTracked);
    AgreementAtRole(ms, now, lookahead, g, i, FutureTracked);
  }

  /**
    For markets that differ and a lookahead of at least 1, the two selectors
    choose the same markets with the same roles exactly when counting by time
    and counting by text rank each group's futures alike.
   */
  lemma SelectorsAgreeIff(ms: seq<Market>, now: int, lookahead: nat)
    requires lookahead >= 1 && DistinctMarkets(ms)
    ensures SelectorsAgree(ms, now, lookahead) <==> RanksAgree(ms, now, lookahead)
  {
    if SelectorsAgree(ms, now, lookahead) {
      forall g, i | 0 <= i < |Futures(ms, g, now)|
        ensures RankRole(Rank(Leq(ByText), Futures(ms, g, now), i), lookahead)
                == RankRole(Rank(Leq(ByStart), Futures(ms, g, now), i), lookahead) {
        AgreementAtFuture(ms, now, lookahead, g, i);
      }
    }
    if RanksAgree(ms, now, lookahead) {
      forall m, r ensures (m, r) in RuntimeSelection(ms, now, lookahead) <==> (m, r) in UniverseSelection(ms, now, lookahead) {
        SelectionMeaning(ms, now, lookahead, m, r);
        GroupRolesMeaning(ms, m.group, ByText, now, lookahead, m, r);
        GroupRolesMeaning(ms, m.group, ByStart, now, lookahead, m, r);
        forall i ensures FutureAt(ms, m.group, ByText, now, lookahead, m, r, i) <==>
                         FutureAt(ms, m.group, ByStart, now, lookahead, m, r, i) {}
      }
    }
  }

  // ---- What the ranks say ----

  lemma {:induction false} CountsCongruent(s: seq<Market>, x: Market)
    requires forall y :: y in s ==> Leq(ByText)(y, x) == Leq(ByStart)(y, x) && Leq(ByText)(x, y) == Leq(ByStart)(x, y)
    ensures NotGreater(Leq(ByText), s, x) == NotGreater(Leq(ByStart), s, x)
    ensures Less(Leq(ByText), s, x) == Less(Leq(ByStart), s, x)
  {
    if s != [] {
      assert forall y :: y in s[..|s| - 1] ==> y in s;
      CountsCongruent(s[..|s| - 1], x);
      assert s[|s| - 1] in s;
    }
  }

  /** Within each group, the start texts of the future markets order them as their start times do. */
  ghost predicate TextFollowsStart(ms: seq<Market>, now: int) {
    forall g, a, b :: a in Futures(ms, g, now) && b in Futures(ms, g, now) ==> Leq(ByText)(a, b) == Leq(ByStart)(a, b)
  }

  lemma SelectorsAgreeWhenTextFollows(ms: seq<Market>, now: int, lookahead: nat)
    requires lookahead >= 1 && DistinctMarkets(ms) && TextFollowsStart(ms, now)
    ensures SelectorsAgree(ms, now, lookahead)
  {
    forall g, i | 0 <= i < |Futures(ms, g, now)|
      ensures Rank(Leq(ByText), Futures(ms, g, now), i) == Rank(Leq(ByStart), Futures(ms, g, now), i) {
      var f := Futures(ms, g, now);
      assert forall y :: y in f[..i] ==> y in f;
      assert forall y :: y in f[i + 1..] ==> y in f;
      CountsCongruent(f[..i], f[i]);
      CountsCongruent(f[i + 1..], f[i]);
    }
    SelectorsAgreeIff(ms, now, lookahead);
  }

  lemma RankedBefore(ms: seq<Market>, g: GroupKey, now: int, count: nat, i: nat, j: nat)
    requires i < |Futures(ms, g, now)| && j < |Futures(ms, g, now)|
    requires RankRole(Rank(Leq(ByStart), Futures(ms, g, now), i), count).Some?
    requires RankRole(Rank(Leq(ByStart), Futures(ms, g, now), j), count).None?
    ensures StartKey(Futures(ms, g, now)[i]) <= StartKey(Futures(ms, g, now)[j])
  {
    var f, leq := Futures(ms, g, now), Leq(ByStart);
    LeqIsTotalPreorder(ByStart);
    RankPlaces(leq, f, i);
    RankPlaces(leq, f, j);
    SortedInOrder(leq, f);
    assert leq(Sorted(leq, f)[Rank(leq, f, i)], Sorted(leq, f)[Rank(leq, f, j)]);
  }

  lemma SelectedInGroup(ms: seq<Market>, now: int, lookahead: int, m: Market, r: Window)
    ensures (m, r) in RuntimeSelection(ms, now, lookahead) <==>
            (m, r) in GroupRoles(ms, m.group, ByStart, now, AtLeastOne(lookahead))
  {
    assert AtLeastOne(AtLeastOne(lookahead)) == AtLeastOne(lookahead);
    SelectionMeaning(ms, now, AtLeastOne(lookahead), m, r);
  }

  lemma SelectedFuture(ms: seq<Market>, now: int, lookahead: int, m: Market, r: Window) returns (i: nat)
    requires (m, r) in RuntimeSelection(ms, now, lookahead) && StartKey(m) > now
    ensures FutureAt(ms, m.group, ByStart, now, AtLeastOne(lookahead), m, r, i)
  {
    SelectedInGroup(ms, now, lookahead, m, r);
    GroupRolesMeaning(ms, m.group, ByStart, now, AtLeastOne(lookahead), m, r);
    i :| FutureAt(ms, m.group, ByStart, now, AtLeastOne(lookahead), m, r, i);
  }

  lemma LeftOutFuture(ms: seq<Market>, now: int, lookahead: int, m: Market) returns (j: nat)
    requires m in ms && Tradable(m, now) && StartKey(m) > now
    requires forall r :: (m, r) !in RuntimeSelection(ms, now, lookahead)
    ensures j < |Futures(ms, m.group, now)| && Futures(ms, m.group, now)[j] == m
    ensures RankRole(Rank(Leq(ByStart), Futures(ms, m.group, now), j), AtLeastOne(lookahead)).None?
  {
    WhereMembers(FutureOf(m.group), ms, now, m);
    j :| 0 <= j < |Futures(ms, m.group, now)| && Futures(ms, m.group, now)[j] == m;
    var role := RankRole(Rank(Leq(ByStart), Futures(ms, m.group, now), j), AtLeastOne(lookahead));
    if role.Some? {
      SelectedInGroup(ms, now, lookahead, m, role.value);
      GroupRolesMeaning(ms, m.group, ByStart, now, AtLeastOne(lookahead), m, role.value);
      assert FutureAt(ms, m.group, ByStart, now, AtLeastOne(lookahead), m, role.value, j);
    }
  }

  /** No tradable future market left out starts before a selected one of its group. */
  lemma {:induction false} NoEarlierFutureLeftOut(ms: seq<Market>, now: int, lookahead: int, m: Market, r: Window, other: Market)
    requires (m, r) in RuntimeSelection(ms, now, lookahead) && StartKey(m) > now
    requires other in ms && Tradable(other, now) && StartKey(other) > now && other.group == m.group
    requires forall role :: (other, role) !in RuntimeSelection(ms, now, lookahead)
    ensures StartKey(m) <= StartKey(other)
  {
    var i := SelectedFuture(ms, now, lookahead, m, r);
    var j := LeftOutFuture(ms, now, lookahead, other);
    RankedBefore(ms, m.group, now, AtLeastOne(lookahead), i, j);
  }

  // ---- Two texts of one instant's clock ----

  /** A five-minute market; `text` is `start` seconds after the epoch. */
  function Upcoming(id: string, text: string, start: int): Market {
    Market(id, [id, id + "d"], id, GroupKey(Some("BTC"), Some(5)), Some(true), Some(false), Some(true), Some(true),
           Some(id), Some(id + "d"), Some(text), None, Some(start), None, None, Some(start + 300))
  }

  const DAY := "1970-01-01T0"
  /** 00:30 in UTC. */
  const EARLIER := DAY + "1:30:00+01:00"
  const LATER := DAY + "0:45:00+00:00"

  lemma {:induction false} StringLeqBehind(prefix: string, a: string, b: string)
    ensures StringLeq(prefix + a, prefix + b) == StringLeq(a, b)
  {
    if prefix == "" {
      assert prefix + a == a && prefix + b == b;
    } else {
      assert (prefix + a)[1..] == prefix[1..] + a && (prefix + b)[1..] == prefix[1..] + b;
      StringLeqBehind(prefix[1..], a, b);
    }
  }

  /**
    Start texts with different offsets sort in another order than the times
    they stand for: the two selectors warm up different markets.
   */
  lemma TextOrderCanDiffer()
    ensures var ms := [Upcoming("m", EARLIER, 1800), Upcoming("n", LATER, 2700)];
      DistinctMarkets(ms) && !SelectorsAgree(ms, 0, 1)
  {
    var a, b := Upcoming("m", EARLIER, 1800), Upcoming("n", LATER, 2700);
    var ms, g := [a, b], GroupKey(Some("BTC"), Some(5));
    var early, late := "1:30:00+01:00", "0:45:00+00:00";
    assert a.marketId[0] == 'm' && b.marketId[0] == 'n';
    WhereAll(FutureOf(g), ms, 0);
    RankOfTwo(Leq(ByStart), a, b);
    RankOfTwo(Leq(ByText), a, b);
    StringLeqBehind(DAY, late, early);
    StringLeqBehind(DAY, early, late);
    assert late[0] < early[0];
    assert EARLIER[|DAY|] != LATER[|DAY|];
    assert Leq(ByText)(b, a) && !Leq(ByText)(a, b);
    assert Rank(Leq(ByText), Futures(ms, g, 0), 0) == 1 && Rank(Leq(ByStart), Futures(ms, g, 0), 0) == 0;
    SelectorsAgreeIff(ms, 0, 1);
  }
}
