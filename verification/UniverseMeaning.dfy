/**
  What a refresh of the market universe reports and when the next falls due,
  said on the markets' fields and the times.
 */
module UniverseMeaning {
  import opened Options
  import opened MarketSelection
  import opened RuntimeMarkets
  import opened StartTimes
  import opened MarketUniverse

  /** The token ids of a universe are those of its markets. */
  lemma TokensMean(tracked: Tracked, token: string)
    ensures token in Tokens(tracked) <==> exists i :: 0 <= i < |tracked| && token in tracked[i].0.tokenIds
  {
    if token in Tokens(tracked) {
      var m :| m in Plainly(tracked) && token in m.tokenIds;
      var i :| 0 <= i < |tracked| && Plainly(tracked)[i] == m;
    }
    if i :| 0 <= i < |tracked| && token in tracked[i].0.tokenIds {
      assert Plainly(tracked)[i] in Plainly(tracked);
    }
  }

  // ---- Due times ----

  /** The lookahead is one window at least, and so many whole seconds lie between two refreshes: one at least. */
  lemma IntervalMeans(settings: Settings)
    ensures Lookahead(settings) == if settings.lookaheadWindows < 1 then 1 else settings.lookaheadWindows
    ensures var s, ms := IntervalSeconds(settings), settings.refreshIntervalMs;
      s >= 1 && (ms < 2000 ==> s == 1) && (ms >= 1000 ==> s * 1000 <= ms < (s + 1) * 1000)
  {}

  predicate Due(u: Universe, now: int) {
    u.nextDiscoveryTs.None? || u.nextDiscoveryTs.value <= now
  }

  /** After a run the next refresh is due at once if there was none, else an interval after the last, however it ended. */
  lemma {:induction false} DueAgain(markets: seq<Market>, start: int, settings: Settings, steps: seq<Refresh>, now: int)
    ensures Due(Run(Started(markets, settings, start), settings, steps), now) <==>
            steps == [] || now >= steps[|steps| - 1].now + IntervalSeconds(settings)
  {
    if steps != [] {
      var front, last := steps[..|steps| - 1], steps[|steps| - 1];
      NextIsScheduled(Run(Started(markets, settings, start), settings, front), settings, last);
    }
  }

  lemma KeptIsScheduled(u: Universe, settings: Settings, reason: FailureReason, now: int)
    ensures Kept(u, settings, reason, now).nextDiscoveryTs == Some(now + IntervalSeconds(settings))
  {}

  lemma AdoptedIsScheduled(u: Universe, settings: Settings, selected: Tracked, now: int)
    ensures Adopted(u, settings, selected, now).nextDiscoveryTs == Some(now + IntervalSeconds(settings))
  {}

  lemma NextIsScheduled(u: Universe, settings: Settings, step: Refresh)
    ensures Refreshed(u, settings, step.outcome, step.now, step.forced).nextDiscoveryTs ==
            Some(step.now + IntervalSeconds(settings))
  {
    KeptIsScheduled(Counted(u, step.forced), settings, DiscoveryException, step.now);
    KeptIsScheduled(Counted(u, step.forced), settings, NothingSelected, step.now);
    AdoptedIsScheduled(Counted(u, step.forced), settings, Selected(step.outcome, step.now, Lookahead(settings)), step.now);
  }

  // ---- The roles of kept markets ----

  /** The start: successful exactly if some market was tradable; nothing counted and nothing due yet. */
  lemma StartMeans(markets: seq<Market>, settings: Settings, now: int)
    ensures var u := Started(markets, settings, now);
      && (u.lastSuccessTs == if AnyTradable(markets, now) then Some(now) else None)
      && u.failureReason.None? && u.nextDiscoveryTs.None? && u.lastDiscoveryTs.None?
      && u.refreshCount == u.errorCount == u.forcedCount == 0
  {
    SelectsIffTradable(markets, now, Lookahead(settings));
  }

  lemma {:induction false} RoleIsListed(sel: Selection, key: MarketKey) returns (j: nat)
    requires RoleOf(sel, key).Some?
    ensures j < |sel| && KeyOf(sel[j].0) == key && RoleOf(sel, key) == Some(sel[j].1)
  {
    if KeyOf(sel[|sel| - 1].0) == key {
      j := |sel| - 1;
    } else {
      j := RoleIsListed(sel[..|sel| - 1], key);
    }
  }

  lemma RoleIsSelected(ms: seq<Market>, now: int, lookahead: int, m: Market, r: Window)
    requires DistinctMarketKeys(ms) && m in ms
    ensures RoleOf(RuntimeSelection(ms, now, lookahead), KeyOf(m)) == Some(r) ==> (m, r) in RuntimeSelection(ms, now, lookahead)
  {
    var sel := RuntimeSelection(ms, now, lookahead);
    if RoleOf(sel, KeyOf(m)) == Some(r) {
      var j := RoleIsListed(sel, KeyOf(m));
      SelectedAreListed(ms, now, lookahead);
      var p :| 0 <= p < |ms| && ms[p] == m;
      var q :| 0 <= q < |ms| && ms[q] == sel[j].0;
      assert p == q;
      assert sel[j] == (m, r);
    }
  }

  lemma SelectedHasRole(ms: seq<Market>, now: int, lookahead: int, m: Market, r: Window)
    requires DistinctMarketKeys(ms) && (m, r) in RuntimeSelection(ms, now, lookahead)
    ensures RoleOf(RuntimeSelection(ms, now, lookahead), KeyOf(m)) == Some(r)
  {
    var sel := RuntimeSelection(ms, now, lookahead);
    RuntimeMarketsInRole(ms, now, lookahead);
    var i :| 0 <= i < |sel| && sel[i] == (m, r);
    assert FoundRight(ms, sel, sel[i].0, sel[i].1);
  }

  /** Markets of distinct keys that a failed refresh keeps: each is current exactly if it is tradable and has started. */
  lemma KeptRolesMean(tracked: Tracked, now: int, lookahead: nat, i: nat, ts: int)
    requires DistinctMarketKeys(Plainly(tracked)) && i < |tracked| && StartsAt(tracked[i].0, ts)
    ensures var kept := Reannotated(tracked, now, lookahead);
      && |kept| == |tracked| && kept[i].0 == tracked[i].0
      && (kept[i].1 == Some(CurrentSignal) <==> Tradable(tracked[i].0, now) && ts <= now)
      && (!Tradable(tracked[i].0, now) ==> kept[i].1.None?)
  {
    var ms, m := Plainly(tracked), tracked[i].0;
    assert ms[i] == m;
    OneStart(m, ts);
    var role := RoleOf(RuntimeSelection(ms, now, lookahead), KeyOf(m));
    if role.Some? {
      RoleIsSelected(ms, now, lookahead, m, role.value);
      SelectedInGroup(ms, now, lookahead, m, role.value);
      SelectedIsTradable(ms, m.group, ByStart, now, AtLeastOne(lookahead), m, role.value);
      StartsDecide(ms, now, lookahead, m);
    }
    if Tradable(m, now) && ts <= now {
      StartsDecide(ms, now, lookahead, m);
      SelectedHasRole(ms, now, lookahead, m, CurrentSignal);
    }
  }

  // ---- What a refresh reports ----

  /** Some market is tradable and has started. */
  ghost predicate SomeCurrent(ms: seq<Market>, now: int) {
    exists i, ts :: 0 <= i < |ms| && Tradable(ms[i], now) && StartsAt(ms[i], ts) && ts <= now
  }

  lemma SelectedIsCurrent(ms: seq<Market>, now: int, lookahead: nat)
    requires HasCurrentSignal(InRoles(UniverseSelection(ms, now, lookahead)), now)
    ensures SomeCurrent(ms, now)
  {
    var tracked := InRoles(UniverseSelection(ms, now, lookahead));
    var i :| 0 <= i < |tracked| && Tradable(tracked[i].0, now) && Classify(tracked[i].0, now) == CurrentSignal;
    SelectedMarket(ms, now, lookahead, i);
    var j :| 0 <= j < |ms| && ms[j] == tracked[i].0;
    OneStart(ms[j], StartKey(ms[j]));
    TradableWindows(ms[j], now);
  }

  lemma CurrentMarketIsSelected(ms: seq<Market>, now: int, lookahead: nat, m: Market)
    requires m in ms && Tradable(m, now) && StartKey(m) <= now
    ensures HasCurrentSignal(InRoles(UniverseSelection(ms, now, lookahead)), now)
  {
    var sel := UniverseSelection(ms, now, lookahead);
    StartsDecide(ms, now, lookahead, m);
    TradableWindows(m, now);
    var k :| 0 <= k < |sel| && sel[k] == (m, CurrentSignal);
    assert InRoles(sel)[k].0 == m;
  }

  lemma CurrentIffSelected(ms: seq<Market>, now: int, lookahead: nat)
    ensures HasCurrentSignal(InRoles(UniverseSelection(ms, now, lookahead)), now) <==> SomeCurrent(ms, now)
  {
    if HasCurrentSignal(InRoles(UniverseSelection(ms, now, lookahead)), now) {
      SelectedIsCurrent(ms, now, lookahead);
    }
    if i, ts :| 0 <= i < |ms| && Tradable(ms[i], now) && StartsAt(ms[i], ts) && ts <= now {
      OneStart(ms[i], ts);
      CurrentMarketIsSelected(ms, now, lookahead, ms[i]);
    }
  }

  /**
    A refresh ends without a failure reason, and is remembered as the last
    success, exactly when it discovered a tradable market that has started. Else
    the reason says what was missing.
   */
  lemma {:induction false} RefreshOutcomeMeans(u: Universe, settings: Settings, step: Refresh)
    ensures var t := Refreshed(u, settings, step.outcome, step.now, step.forced);
      var found := step.outcome.Discovered? && SomeCurrent(step.outcome.markets, step.now);
      && (t.failureReason.None? <==> found)
      && t.lastSuccessTs == (if found then Some(step.now) else u.lastSuccessTs)
      && t.lastDiscoveryTs == Some(step.now)
      && (!found ==> t.failureReason == Some(if step.outcome.Raised? then DiscoveryException
                                             else if AnyTradable(step.outcome.markets, step.now) then NoCurrentSignal
                                             else NothingSelected))
  {
    if step.outcome.Discovered? {
      SelectsIffTradable(step.outcome.markets, step.now, Lookahead(settings));
      CurrentIffSelected(step.outcome.markets, step.now, Lookahead(settings));
      if SomeCurrent(step.outcome.markets, step.now) {
        var i, ts :| 0 <= i < |step.outcome.markets| && Tradable(step.outcome.markets[i], step.now)
          && StartsAt(step.outcome.markets[i], ts) && ts <= step.now;
      }
    }
  }

  // ---- Expired and closed markets ----

  /** A market that was tradable when it was taken: nothing but its end can have changed since. */
  ghost predicate TakenOpen(m: Market) {
    exists t :: Tradable(m, t)
  }

  ghost predicate AllTakenOpen(tracked: Tracked) {
    forall i :: 0 <= i < |tracked| ==> TakenOpen(tracked[i].0)
  }

  lemma SelectedTakenOpen(ms: seq<Market>, now: int, lookahead: nat)
    ensures AllTakenOpen(InRoles(UniverseSelection(ms, now, lookahead)))
  {
    var sel := UniverseSelection(ms, now, lookahead);
    forall i | 0 <= i < |sel| ensures TakenOpen(InRoles(sel)[i].0) {
      SelectedMarket(ms, now, lookahead, i);
      assert Tradable(sel[i].0, now);
    }
  }

  lemma RefreshKeepsTakenOpen(u: Universe, settings: Settings, step: Refresh)
    requires AllTakenOpen(u.markets)
    ensures AllTakenOpen(Refreshed(u, settings, step.outcome, step.now, step.forced).markets)
  {
    if step.outcome.Discovered? {
      SelectedTakenOpen(step.outcome.markets, step.now, Lookahead(settings));
    }
    var kept := Reannotated(u.markets, step.now, Lookahead(settings));
    forall i | 0 <= i < |kept| ensures TakenOpen(kept[i].0) {
      assert kept[i].0 == u.markets[i].0;
    }
  }

  lemma {:induction false} AlwaysTakenOpen(markets: seq<Market>, start: int, settings: Settings, steps: seq<Refresh>)
    ensures AllTakenOpen(Run(Started(markets, settings, start), settings, steps).markets)
  {
    if steps == [] {
      SelectedTakenOpen(markets, start, Lookahead(settings));
    } else {
      AlwaysTakenOpen(markets, start, settings, steps[..|steps| - 1]);
      RefreshKeepsTakenOpen(Run(Started(markets, settings, start), settings, steps[..|steps| - 1]), settings,
                            steps[|steps| - 1]);
    }
  }

  lemma {:induction false} HeldUnderKey(tracked: Tracked, key: MarketKey)
    requires key in ByKey(tracked) && AllTakenOpen(tracked)
    ensures TakenOpen(ByKey(tracked)[key]) && KeyOf(ByKey(tracked)[key]) == key
  {
    var front, last := tracked[..|tracked| - 1], tracked[|tracked| - 1].0;
    assert TakenOpen(tracked[|tracked| - 1].0);
    if KeyOf(last) != key {
      forall i | 0 <= i < |front| ensures TakenOpen(front[i].0) { assert front[i] == tracked[i]; }
      HeldUnderKey(front, key);
    }
  }

  lemma OpenMarketEnds(m: Market, now: int)
    requires TakenOpen(m)
    ensures m.endTs.Some? && Classify(m, now) != Closed && (Classify(m, now) == Expired <==> m.endTs.value <= now)
  {}

  lemma DiffOfOpen(previous: Tracked, current: Tracked, now: int)
    requires AllTakenOpen(previous)
    ensures var diff := BuildDiff(previous, current, now);
      && diff.closed == {}
      && forall k :: k in diff.removed ==> diff.removed[k].endTs.Some? && (k in diff.expired <==> diff.removed[k].endTs.value <= now)
  {
    var diff := BuildDiff(previous, current, now);
    forall k | k in diff.removed
      ensures diff.removed[k].endTs.Some? && k !in diff.closed && (k in diff.expired <==> diff.removed[k].endTs.value <= now) {
      HeldUnderKey(previous, k);
      OpenMarketEnds(diff.removed[k], now);
    }
  }

  /**
    Over every run the differences list the removed markets whose end has passed
    as expired, and never one as closed: a removed market is classified by the
    copy that was tradable when it was taken.
   */
  lemma {:induction false} ClosedListStaysEmpty(markets: seq<Market>, start: int, settings: Settings, steps: seq<Refresh>)
    requires steps != []
    ensures var diff := Run(Started(markets, settings, start), settings, steps).lastDiff;
      && diff.closed == {}
      && forall k :: k in diff.removed ==>
           diff.removed[k].endTs.Some? && (k in diff.expired <==> diff.removed[k].endTs.value <= steps[|steps| - 1].now)
  {
    var front, last := steps[..|steps| - 1], steps[|steps| - 1];
    var u := Run(Started(markets, settings, start), settings, front);
    AlwaysTakenOpen(markets, start, settings, front);
    if last.outcome.Discovered? {
      DiffOfOpen(u.markets, Refreshed(u, settings, last.outcome, last.now, last.forced).markets, last.now);
    }
  }
}
