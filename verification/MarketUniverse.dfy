/**
  The rolling market universe: every refresh either replaces the markets with a
  new selection or keeps the ones it has, and reports the difference.
 */
module MarketUniverse {
  import opened Options
  import opened StableSort
  import opened MarketSelection
  import opened RuntimeMarkets

  /** What a discovery call comes back with. */
  datatype Outcome = Raised | Discovered(markets: seq<Market>)

  /** A market with the role it was last given. */
  type Tracked = seq<(Market, Option<Window>)>

  datatype FailureReason = DiscoveryException | NothingSelected | NoCurrentSignal

  /** The lists of the difference, without their order. */
  datatype Diff = Diff(
    added: map<MarketKey, Market>,
    removed: map<MarketKey, Market>,
    expired: set<MarketKey>,
    closed: set<MarketKey>,
    newTokens: set<string>,
    removedTokens: set<string>)

  const NO_DIFF := Diff(map[], map[], {}, {}, {}, {})

  datatype Universe = Universe(
    markets: Tracked,
    refreshCount: nat,
    forcedCount: nat,
    errorCount: nat,
    failureReason: Option<FailureReason>,
    lastSuccessTs: Option<int>,
    lastDiscoveryTs: Option<int>,
    nextDiscoveryTs: Option<int>,
    lastDiff: Diff)

  /** Both settings are raised to at least 1. */
  datatype Settings = Settings(refreshIntervalMs: int, lookaheadWindows: int)

  function Lookahead(settings: Settings): nat {
    AtLeastOne(settings.lookaheadWindows)
  }

  /** `max(1, refresh_interval_ms // 1000)`. */
  function IntervalSeconds(settings: Settings): nat {
    AtLeastOne(AtLeastOne(settings.refreshIntervalMs) / 1000)
  }

  function NextTs(settings: Settings, now: int): Option<int> {
    Some(now + IntervalSeconds(settings))
  }

  // ---- Keys and tokens ----

  /** The last market under each key. */
  function ByKey(tracked: Tracked): map<MarketKey, Market> {
    if tracked == [] then map[]
    else
      var last := tracked[|tracked| - 1].0;
      ByKey(tracked[..|tracked| - 1])[KeyOf(last) := last]
  }

  function Tokens(tracked: Tracked): set<string> {
    set m <- Plainly(tracked), t <- m.tokenIds :: t
  }

  lemma {:induction false} KeysAre(tracked: Tracked, key: MarketKey)
    ensures key in ByKey(tracked) <==> exists i :: 0 <= i < |tracked| && KeyOf(tracked[i].0) == key
    ensures key in ByKey(tracked) ==> KeyOf(ByKey(tracked)[key]) == key
  {
    if tracked != [] {
      var front := tracked[..|tracked| - 1];
      KeysAre(front, key);
      assert forall i :: 0 <= i < |front| ==> front[i] == tracked[i];
    }
  }

  // ---- The difference of two universes ----

  function BuildDiff(previous: Tracked, current: Tracked, now: int): Diff {
    var before, after := ByKey(previous), ByKey(current);
    var added := map k | k in after && k !in before :: after[k];
    var removed := map k | k in before && k !in after :: before[k];
    var expired := set k | k in removed && Classify(removed[k], now) == Expired;
    var closed := set k | k in removed && Classify(removed[k], now) == Closed;
    Diff(added, removed, expired, closed, Tokens(current) - Tokens(previous), Tokens(previous) - Tokens(current))
  }

  /** What a reader of the differences makes of the keys and tokens it holds. */
  function Followed(keys: set<MarketKey>, diff: Diff): set<MarketKey> {
    keys - diff.removed.Keys + diff.added.Keys
  }

  function FollowedTokens(tokens: set<string>, diff: Diff): set<string> {
    tokens - diff.removedTokens + diff.newTokens
  }

  /**
    Previous keys less the removed plus the added are the current keys. Nothing
    is removed that was not there or added that was, and the expired and the
    closed markets are among the removed and differ.
   */
  lemma DiffConserves(previous: Tracked, current: Tracked, now: int)
    ensures var diff, before, after := BuildDiff(previous, current, now), ByKey(previous).Keys, ByKey(current).Keys;
      && Followed(before, diff) == after
      && FollowedTokens(Tokens(previous), diff) == Tokens(current)
      && diff.removed.Keys <= before && diff.added.Keys !! before
      && diff.expired <= diff.removed.Keys && diff.closed <= diff.removed.Keys && diff.expired !! diff.closed
  {
    var diff := BuildDiff(previous, current, now);
    forall t ensures t in FollowedTokens(Tokens(previous), diff) <==> t in Tokens(current) {}
  }

  // ---- One refresh ----

  function Plainly(tracked: Tracked): seq<Market> {
    seq(|tracked|, i requires 0 <= i < |tracked| => tracked[i].0)
  }

  /** The selected markets as the universe keeps them. */
  function InRoles(sel: Selection): Tracked {
    seq(|sel|, i requires 0 <= i < |sel| => (sel[i].0, Some(sel[i].1)))
  }

  /** `annotate_runtime_market_roles` on the markets held. */
  function Reannotated(tracked: Tracked, now: int, lookahead: nat): Tracked {
    var sel := RuntimeSelection(Plainly(tracked), now, lookahead);
    seq(|tracked|, i requires 0 <= i < |tracked| => (tracked[i].0, RoleOf(sel, KeyOf(tracked[i].0))))
  }

  function Selected(outcome: Outcome, now: int, lookahead: nat): Tracked {
    if outcome.Raised? then [] else InRoles(UniverseSelection(outcome.markets, now, lookahead))
  }

  predicate HasCurrentSignal(tracked: Tracked, now: int) {
    exists i :: 0 <= i < |tracked| && Tradable(tracked[i].0, now) && Classify(tracked[i].0, now) == CurrentSignal
  }

  function Counted(u: Universe, forced: bool): Universe {
    u.(forcedCount := u.forcedCount + if forced then 1 else 0)
  }

  /** An exception reports no difference at all. */
  function DiffOfKept(previous: Tracked, kept: Tracked, reason: FailureReason, now: int): Diff {
    if reason.DiscoveryException? then NO_DIFF else BuildDiff(previous, kept, now)
  }

  function WithFailure(u: Universe, settings: Settings, reason: FailureReason, now: int): Universe {
    u.(errorCount := u.errorCount + 1,
       failureReason := Some(reason),
       lastDiscoveryTs := Some(now),
       nextDiscoveryTs := NextTs(settings, now))
  }

  function WithKept(u: Universe, settings: Settings, reason: FailureReason, now: int): Universe {
    var markets := Reannotated(u.markets, now, Lookahead(settings));
    u.(markets := markets, lastDiff := DiffOfKept(u.markets, markets, reason, now))
  }

  /** The universe after a failed refresh. */
  function Kept(u: Universe, settings: Settings, reason: FailureReason, now: int): Universe {
    WithKept(WithFailure(u, settings, reason, now), settings, reason, now)
  }

  /** The universe after a refresh that selected something. */
  function Adopted(u: Universe, settings: Settings, selected: Tracked, now: int): Universe {
    u.(markets := selected,
       refreshCount := u.refreshCount + 1,
       failureReason := if HasCurrentSignal(selected, now) then None else Some(NoCurrentSignal),
       lastSuccessTs := if HasCurrentSignal(selected, now) then Some(now) else u.lastSuccessTs,
       lastDiscoveryTs := Some(now),
       nextDiscoveryTs := NextTs(settings, now),
       lastDiff := BuildDiff(u.markets, selected, now))
  }

  function Refreshed(u: Universe, settings: Settings, outcome: Outcome, now: int, forced: bool): Universe {
    var selected := Selected(outcome, now, Lookahead(settings));
    if outcome.Raised? then Kept(Counted(u, forced), settings, DiscoveryException, now)
    else if selected == [] then Kept(Counted(u, forced), settings, NothingSelected, now)
    else Adopted(Counted(u, forced), settings, selected, now)
  }

  function Started(markets: seq<Market>, settings: Settings, now: int): Universe {
    var selected := InRoles(UniverseSelection(markets, now, Lookahead(settings)));
    Universe(selected, 0, 0, 0, None, if selected == [] then None else Some(now), None, None, BuildDiff([], selected, now))
  }

  // ---- The manager ----

  class RuntimeMarketUniverseManager {
    const settings: Settings
    var markets: Tracked
    var marketRefreshCount: nat
    var forcedMarketRefreshCount: nat
    var marketRefreshErrorCount: nat
    var discoveryFailureReason: Option<FailureReason>
    var lastSuccessfulDiscoveryTs: Option<int>
    var lastDiscoveryTs: Option<int>
    var nextDiscoveryTs: Option<int>
    var lastDiff: Diff

    function View(): Universe
      reads this
    {
      Universe(markets, marketRefreshCount, forcedMarketRefreshCount, marketRefreshErrorCount, discoveryFailureReason,
               lastSuccessfulDiscoveryTs, lastDiscoveryTs, nextDiscoveryTs, lastDiff)
    }

    constructor (discovered: seq<Market>, settings: Settings, now: int)
      ensures this.settings == settings && View() == Started(discovered, settings, now)
    {
      var sel := SelectRuntimeMarketUniverse(discovered, now, Lookahead(settings));
      this.settings := settings;
      markets := InRoles(sel);
      marketRefreshCount, forcedMarketRefreshCount, marketRefreshErrorCount := 0, 0, 0;
      discoveryFailureReason := None;
      lastSuccessfulDiscoveryTs := if sel == [] then None else Some(now);
      lastDiscoveryTs, nextDiscoveryTs := None, None;
      lastDiff := BuildDiff([], InRoles(sel), now);
    }

    /** The markets held, with the roles they have now. */
    method KeepMarkets(now: int)
      modifies `markets
      ensures markets == Reannotated(old(markets), now, Lookahead(settings))
    {
      var marked := AnnotateRuntimeMarketRoles(Plainly(markets), now, Lookahead(settings));
      markets := seq(|marked|, i requires 0 <= i < |marked| =>
        (marked[i].market, if marked[i].selected then Some(marked[i].reason) else None));
    }

    method ScheduleNext(now: int)
      modifies `nextDiscoveryTs
      ensures nextDiscoveryTs == NextTs(settings, now)
    {
      nextDiscoveryTs := NextTs(settings, now);
    }

    method RecordFailure(reason: FailureReason, now: int)
      modifies `marketRefreshErrorCount, `discoveryFailureReason, `lastDiscoveryTs, `nextDiscoveryTs
      ensures View() == WithFailure(old(View()), settings, reason, now)
    {
      marketRefreshErrorCount := marketRefreshErrorCount + 1;
      discoveryFailureReason := Some(reason);
      lastDiscoveryTs := Some(now);
      ScheduleNext(now);
    }

    method KeepAndReport(reason: FailureReason, now: int)
      modifies `markets, `lastDiff
      ensures View() == WithKept(old(View()), settings, reason, now)
    {
      var previous := markets;
      KeepMarkets(now);
      lastDiff := DiffOfKept(previous, markets, reason, now);
    }

    method KeepAfterFailure(reason: FailureReason, now: int)
      modifies this
      ensures View() == Kept(old(View()), settings, reason, now)
    {
      RecordFailure(reason, now);
      KeepAndReport(reason, now);
    }

    method AdoptSelection(selected: Tracked, now: int)
      modifies this
      ensures View() == Adopted(old(View()), settings, selected, now)
    {
      var previous := markets;
      marketRefreshCount := marketRefreshCount + 1;
      markets := selected;
      lastDiscoveryTs := Some(now);
      if HasCurrentSignal(selected, now) {
        discoveryFailureReason := None;
        lastSuccessfulDiscoveryTs := Some(now);
      } else {
        discoveryFailureReason := Some(NoCurrentSignal);
      }
      ScheduleNext(now);
      lastDiff := BuildDiff(previous, selected, now);
    }

    method CountRefresh(forced: bool)
      modifies `forcedMarketRefreshCount
      ensures View() == Counted(old(View()), forced)
    {
      if forced {
        forcedMarketRefreshCount := forcedMarketRefreshCount + 1;
      }
    }

    method Refresh(outcome: Outcome, now: int, forced: bool) returns (diff: Diff)
      modifies this
      ensures View() == Refreshed(old(View()), settings, outcome, now, forced)
      ensures diff == lastDiff
    {
      CountRefresh(forced);
      if outcome.Raised? {
        KeepAfterFailure(DiscoveryException, now);
        return lastDiff;
      }
      var sel := SelectRuntimeMarketUniverse(outcome.markets, now, Lookahead(settings));
      if sel == [] {
        KeepAfterFailure(NothingSelected, now);
      } else {
        AdoptSelection(InRoles(sel), now);
      }
      diff := lastDiff;
    }

    method RefreshDue(now: int) returns (due: bool)
      ensures due <==> nextDiscoveryTs.None? || nextDiscoveryTs.value <= now
    {
      due := nextDiscoveryTs.None? || now >= nextDiscoveryTs.value;
    }
  }

  // ---- What a discovery must hold ----

  ghost predicate AnyTradable(ms: seq<Market>, now: int) {
    exists i :: 0 <= i < |ms| && Tradable(ms[i], now)
  }

  lemma GroupRoleIsSelected(ms: seq<Market>, now: int, lookahead: nat, m: Market, r: Window)
    requires (m, r) in GroupRoles(ms, m.group, ByText, now, lookahead)
    ensures UniverseSelection(ms, now, lookahead) != []
  {
    SelectionMeaning(ms, now, lookahead, m, r);
    assert (m, r) in UniverseSelection(ms, now, lookahead);
  }

  /** A group with a future market selects one to warm up. */
  lemma FutureIsWarmedUp(ms: seq<Market>, now: int, lookahead: nat, g: GroupKey)
    requires lookahead >= 1 && Futures(ms, g, now) != []
    ensures UniverseSelection(ms, now, lookahead) != []
  {
    LeqIsTotalPreorder(ByText);
    var i := RankReaches(Leq(ByText), Futures(ms, g, now), 0);
    var m := Futures(ms, g, now)[i];
    FutureGroup(ms, g, now, i);
    assert FutureAt(ms, g, ByText, now, lookahead, m, NextWarmup, i);
    GroupRolesMeaning(ms, g, ByText, now, lookahead, m, NextWarmup);
    GroupRoleIsSelected(ms, now, lookahead, m, NextWarmup);
  }

  lemma CurrentIsSelected(ms: seq<Market>, now: int, lookahead: nat, m: Market)
    requires m in ms && Tradable(m, now) && StartKey(m) <= now
    ensures UniverseSelection(ms, now, lookahead) != []
  {
    GroupRolesMeaning(ms, m.group, ByText, now, lookahead, m, CurrentSignal);
    GroupRoleIsSelected(ms, now, lookahead, m, CurrentSignal);
  }

  lemma SelectedMarket(ms: seq<Market>, now: int, lookahead: nat, i: nat)
    requires i < |UniverseSelection(ms, now, lookahead)|
    ensures UniverseSelection(ms, now, lookahead)[i].0 in ms && Tradable(UniverseSelection(ms, now, lookahead)[i].0, now)
  {
    var x := UniverseSelection(ms, now, lookahead)[i];
    SelectionMeaning(ms, now, lookahead, x.0, x.1);
    SelectedIsTradable(ms, x.0.group, ByText, now, lookahead, x.0, x.1);
  }

  lemma TradableIsSelected(ms: seq<Market>, now: int, lookahead: nat, m: Market)
    requires lookahead >= 1 && m in ms && Tradable(m, now)
    ensures UniverseSelection(ms, now, lookahead) != []
  {
    if StartKey(m) <= now {
      CurrentIsSelected(ms, now, lookahead, m);
    } else {
      WhereMembers(FutureOf(m.group), ms, now, m);
      FutureIsWarmedUp(ms, now, lookahead, m.group);
    }
  }

  /** A selection comes out empty only if no market is tradable. */
  lemma SelectsIffTradable(ms: seq<Market>, now: int, lookahead: nat)
    requires lookahead >= 1
    ensures UniverseSelection(ms, now, lookahead) != [] <==> AnyTradable(ms, now)
  {
    if UniverseSelection(ms, now, lookahead) != [] {
      SelectedMarket(ms, now, lookahead, 0);
    }
    if i :| 0 <= i < |ms| && Tradable(ms[i], now) {
      TradableIsSelected(ms, now, lookahead, ms[i]);
    }
  }

  // ---- Runs ----

  datatype Refresh = Refresh(outcome: Outcome, now: int, forced: bool)

  function Run(u: Universe, settings: Settings, steps: seq<Refresh>): Universe {
    if steps == [] then u
    else
      var last := steps[|steps| - 1];
      Refreshed(Run(u, settings, steps[..|steps| - 1]), settings, last.outcome, last.now, last.forced)
  }

  ghost predicate Succeeds(step: Refresh) {
    step.outcome.Discovered? && AnyTradable(step.outcome.markets, step.now)
  }

  ghost function Successes(steps: seq<Refresh>): nat {
    if steps == [] then 0
    else Successes(steps[..|steps| - 1]) + if Succeeds(steps[|steps| - 1]) then 1 else 0
  }

  function ForcedOnes(steps: seq<Refresh>): nat {
    if steps == [] then 0 else ForcedOnes(steps[..|steps| - 1]) + if steps[|steps| - 1].forced then 1 else 0
  }

  /** The markets of the last refresh that found a tradable one, or those at the start. */
  ghost function LastFound(start: seq<Market>, settings: Settings, steps: seq<Refresh>): seq<Market> {
    if steps == [] then start
    else
      var last := steps[|steps| - 1];
      if Succeeds(last) then Plainly(Selected(last.outcome, last.now, Lookahead(settings)))
      else LastFound(start, settings, steps[..|steps| - 1])
  }

  lemma StepSucceedsIff(settings: Settings, step: Refresh)
    ensures Selected(step.outcome, step.now, Lookahead(settings)) != [] <==> Succeeds(step)
  {
    if step.outcome.Discovered? {
      SelectsIffTradable(step.outcome.markets, step.now, Lookahead(settings));
    }
  }

  lemma SameMarketsAgain(tracked: Tracked, now: int, lookahead: nat)
    ensures Plainly(Reannotated(tracked, now, lookahead)) == Plainly(tracked)
  {}

  /**
    However discovery fails in between, a run counts every refresh once, as a
    success exactly when it found a tradable market, and holds the markets of
    the last one that did.
   */
  lemma {:induction false} RunHoldsLastFound(u: Universe, settings: Settings, steps: seq<Refresh>)
    ensures Plainly(Run(u, settings, steps).markets) == LastFound(Plainly(u.markets), settings, steps)
    ensures Run(u, settings, steps).refreshCount == u.refreshCount + Successes(steps)
    ensures Run(u, settings, steps).errorCount == u.errorCount + |steps| - Successes(steps)
    ensures Run(u, settings, steps).forcedCount == u.forcedCount + ForcedOnes(steps)
  {
    if steps != [] {
      var front, last := steps[..|steps| - 1], steps[|steps| - 1];
      RunHoldsLastFound(u, settings, front);
      StepSucceedsIff(settings, last);
      SameMarketsAgain(Run(u, settings, front).markets, last.now, Lookahead(settings));
    }
  }

  /** A universe is non-empty after a run exactly when it was before or some refresh found a tradable market. */
  lemma {:induction false} UniverseIsEmptyOnlyUntilFound(u: Universe, settings: Settings, steps: seq<Refresh>)
    ensures Run(u, settings, steps).markets != [] <==> u.markets != [] || Successes(steps) > 0
  {
    if steps != [] {
      var front, last := steps[..|steps| - 1], steps[|steps| - 1];
      UniverseIsEmptyOnlyUntilFound(u, settings, front);
      StepSucceedsIff(settings, last);
    }
  }

  // ---- Following the differences ----

  ghost function FollowedKeys(u: Universe, settings: Settings, steps: seq<Refresh>): set<MarketKey> {
    if steps == [] then ByKey(u.markets).Keys
    else Followed(FollowedKeys(u, settings, steps[..|steps| - 1]), Run(u, settings, steps).lastDiff)
  }

  ghost function FollowedTokenIds(u: Universe, settings: Settings, steps: seq<Refresh>): set<string> {
    if steps == [] then Tokens(u.markets)
    else FollowedTokens(FollowedTokenIds(u, settings, steps[..|steps| - 1]), Run(u, settings, steps).lastDiff)
  }

  lemma SamePlainlySameKeys(a: Tracked, b: Tracked)
    requires Plainly(a) == Plainly(b)
    ensures ByKey(a).Keys == ByKey(b).Keys && Tokens(a) == Tokens(b)
  {
    assert |a| == |Plainly(a)| && |b| == |Plainly(b)|;
    assert forall i :: 0 <= i < |a| ==> a[i].0 == Plainly(a)[i] && b[i].0 == Plainly(b)[i];
    forall k ensures k in ByKey(a).Keys <==> k in ByKey(b).Keys {
      KeysAre(a, k);
      KeysAre(b, k);
    }
  }

  lemma StepDiffFollows(u: Universe, settings: Settings, step: Refresh)
    ensures var after := Refreshed(u, settings, step.outcome, step.now, step.forced);
      && Followed(ByKey(u.markets).Keys, after.lastDiff) == ByKey(after.markets).Keys
      && FollowedTokens(Tokens(u.markets), after.lastDiff) == Tokens(after.markets)
  {
    var after := Refreshed(u, settings, step.outcome, step.now, step.forced).markets;
    if step.outcome.Raised? {
      SameMarketsAgain(u.markets, step.now, Lookahead(settings));
      SamePlainlySameKeys(u.markets, after);
    } else {
      DiffConserves(u.markets, after, step.now);
    }
  }

  /** A reader that applies every reported difference always holds the universe's keys and token ids. */
  lemma {:induction false} FollowersStayInStep(u: Universe, settings: Settings, steps: seq<Refresh>)
    ensures FollowedKeys(u, settings, steps) == ByKey(Run(u, settings, steps).markets).Keys
    ensures FollowedTokenIds(u, settings, steps) == Tokens(Run(u, settings, steps).markets)
  {
    if steps != [] {
      var front, last := steps[..|steps| - 1], steps[|steps| - 1];
      FollowersStayInStep(u, settings, front);
      StepDiffFollows(Run(u, settings, front), settings, last);
    }
  }

  /** A refresh that keeps the markets it has reports no market and no token in or out. */
  lemma KeepingReportsNothing(u: Universe, settings: Settings, step: Refresh)
    requires !Succeeds(step)
    ensures var diff := Refreshed(u, settings, step.outcome, step.now, step.forced).lastDiff;
      diff.added == map[] && diff.removed == map[] && diff.newTokens == {} && diff.removedTokens == {}
  {
    StepSucceedsIff(settings, step);
    SameMarketsAgain(u.markets, step.now, Lookahead(settings));
    SamePlainlySameKeys(u.markets, Reannotated(u.markets, step.now, Lookahead(settings)));
  }
}
