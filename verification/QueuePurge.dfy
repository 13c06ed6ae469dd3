/**
  Trimming the buffered queue to the first event that bridges a new snapshot,
  and what replaying the trimmed queue then means.
 */
module QueuePurge {
  import opened Options
  import opened BookModel
  import opened BookRuns

  datatype Envelope = Depth(symbol: string, event: DepthEvent) | Other(payload: int)

  predicate Relevant(v: Envelope, symbol: string) {
    v.Depth? && v.symbol == symbol
  }

  predicate Bridges(e: DepthEvent, id: int) {
    e.first <= id + 1 <= e.final
  }

  /** What stays of a queue, `found` telling whether a bridge was met before it. */
  function Preserved(q: seq<Envelope>, id: int, symbol: string, found: bool): seq<Envelope> {
    if q == [] then []
    else if !Relevant(q[0], symbol) then [q[0]] + Preserved(q[1..], id, symbol, found)
    else if q[0].event.final <= id then Preserved(q[1..], id, symbol, found)
    else if !found && !Bridges(q[0].event, id) then Preserved(q[1..], id, symbol, false)
    else [q[0]] + Preserved(q[1..], id, symbol, true)
  }

  datatype PurgeResult = PurgeResult(
    sizeBefore: nat,
    oldDropped: nat,
    bridgeFound: bool,
    bridge: Option<(int, int)>,
    sizeAfter: int,
    bridgeMissing: bool,
    futureDropped: nat)

  /** The events of one symbol, in queue order. */
  function Events(q: seq<Envelope>, symbol: string): seq<DepthEvent> {
    if q == [] then []
    else if Relevant(q[0], symbol) then [q[0].event] + Events(q[1..], symbol)
    else Events(q[1..], symbol)
  }

  /** The envelopes that are not that symbol's. */
  function Others(q: seq<Envelope>, symbol: string): seq<Envelope> {
    if q == [] then []
    else if Relevant(q[0], symbol) then Others(q[1..], symbol)
    else [q[0]] + Others(q[1..], symbol)
  }

  /** The first event past the snapshot, if any. */
  function FirstPast(es: seq<DepthEvent>, id: int): Option<DepthEvent> {
    if es == [] then None else if es[0].final > id then Some(es[0]) else FirstPast(es[1..], id)
  }

  function FirstBridge(es: seq<DepthEvent>, id: int): Option<DepthEvent> {
    if es == [] then None else if Bridges(es[0], id) then Some(es[0]) else FirstBridge(es[1..], id)
  }

  function IdsOf(e: Option<DepthEvent>): Option<(int, int)> {
    if e.Some? then Some((e.value.first, e.value.final)) else None
  }

  /** There are events past the snapshot and none of them bridges it. */
  predicate BridgeMissing(es: seq<DepthEvent>, id: int) {
    FirstPast(es, id).Some? && FirstBridge(es, id).None?
  }

  /** `Preserved` on the events alone. */
  function Kept(es: seq<DepthEvent>, id: int, found: bool): seq<DepthEvent> {
    if es == [] then []
    else if es[0].final <= id then Kept(es[1..], id, found)
    else if !found && !Bridges(es[0], id) then Kept(es[1..], id, false)
    else [es[0]] + Kept(es[1..], id, true)
  }

  lemma {:induction false} PreservedEvents(q: seq<Envelope>, id: int, symbol: string, found: bool)
    ensures Events(Preserved(q, id, symbol, found), symbol) == Kept(Events(q, symbol), id, found)
  {
    if q != [] {
      PreservedEvents(q[1..], id, symbol, found);
      PreservedEvents(q[1..], id, symbol, true);
    }
  }

  /** Envelopes of other symbols and types all survive, in order. */
  lemma {:induction false} OthersSurvive(q: seq<Envelope>, id: int, symbol: string, found: bool)
    ensures Others(Preserved(q, id, symbol, found), symbol) == Others(q, symbol)
  {
    if q != [] {
      OthersSurvive(q[1..], id, symbol, found);
      OthersSurvive(q[1..], id, symbol, true);
    }
  }

  /** Purging again for the same snapshot changes nothing. */
  lemma {:induction false} PurgeIdempotent(q: seq<Envelope>, id: int, symbol: string, found: bool)
    ensures Preserved(Preserved(q, id, symbol, found), id, symbol, found) == Preserved(q, id, symbol, found)
  {
    if q != [] {
      PurgeIdempotent(q[1..], id, symbol, found);
      PurgeIdempotent(q[1..], id, symbol, true);
    }
  }

  /** What a scan of `all` knows when the events `rest` are still ahead. */
  ghost predicate ScanState(all: seq<DepthEvent>, rest: seq<DepthEvent>, id: int, bridge: Option<(int, int)>, future: bool) {
    && (bridge.Some? ==> bridge == IdsOf(FirstBridge(all, id)))
    && (bridge.None? ==> FirstBridge(all, id) == FirstBridge(rest, id))
    && (bridge.None? && !future ==> FirstPast(all, id) == FirstPast(rest, id))
    && (future ==> FirstPast(all, id).Some?)
  }

  /** How the fate of one envelope enters what is preserved of the rest. */
  predicate KeepsEnvelope(v: Envelope, id: int, symbol: string, found: bool) {
    !Relevant(v, symbol) || (v.event.final > id && (found || Bridges(v.event, id)))
  }

  predicate FoundAfter(v: Envelope, id: int, symbol: string, found: bool) {
    found || (Relevant(v, symbol) && Bridges(v.event, id))
  }

  /** The events that the snapshot already holds. */
  function Old(es: seq<DepthEvent>, id: int): seq<DepthEvent> {
    if es == [] then [] else (if es[0].final <= id then [es[0]] else []) + Old(es[1..], id)
  }

  lemma OldStep(q: seq<Envelope>, i: nat, id: int, symbol: string)
    requires i < |q|
    ensures |Old(Events(q[i..], symbol), id)| == |Old(Events(q[i + 1..], symbol), id)|
            + (if Relevant(q[i], symbol) && q[i].event.final <= id then 1 else 0)
  {
    assert q[i..][1..] == q[i + 1..];
    var rest := Events(q[i + 1..], symbol);
    if Relevant(q[i], symbol) {
      assert ([q[i].event] + rest)[1..] == rest;
    }
  }

  /** A purge for one symbol leaves every other symbol's events as they were. */
  lemma {:induction false} OtherSymbolsStay(q: seq<Envelope>, id: int, symbol: string, found: bool, other: string)
    requires other != symbol
    ensures Events(Preserved(q, id, symbol, found), other) == Events(q, other)
  {
    if q != [] {
      OtherSymbolsStay(q[1..], id, symbol, found, other);
      OtherSymbolsStay(q[1..], id, symbol, true, other);
    }
  }

  /** Events of a symbol are its depth envelopes' events, in queue order. */
  lemma {:induction false} EventsOfAppend(q: seq<Envelope>, v: Envelope, symbol: string)
    ensures Events(q + [v], symbol) == Events(q, symbol) + if v.Depth? && v.symbol == symbol then [v.event] else []
  {
    if q == [] {
      assert [v][1..] == [] && Events([], symbol) == [];
    } else {
      assert (q + [v])[1..] == q[1..] + [v];
      EventsOfAppend(q[1..], v, symbol);
    }
  }

  lemma PurgeStep(done: seq<Envelope>, q: seq<Envelope>, i: nat, id: int, symbol: string, found: bool)
    requires i < |q|
    ensures done + Preserved(q[i..], id, symbol, found) ==
            (if KeepsEnvelope(q[i], id, symbol, found) then done + [q[i]] else done)
            + Preserved(q[i + 1..], id, symbol, FoundAfter(q[i], id, symbol, found))
  {
    assert q[i..][1..] == q[i + 1..];
    var rest := Preserved(q[i + 1..], id, symbol, FoundAfter(q[i], id, symbol, found));
    assert done + ([q[i]] + rest) == (done + [q[i]]) + rest;
  }

  lemma ScanStep(all: seq<DepthEvent>, q: seq<Envelope>, i: nat, id: int, symbol: string,
                 bridge: Option<(int, int)>, future: bool)
    requires i < |q| && ScanState(all, Events(q[i..], symbol), id, bridge, future)
    ensures var v, rest := q[i], Events(q[i + 1..], symbol);
      if !Relevant(v, symbol) || v.event.final <= id || bridge.Some? then ScanState(all, rest, id, bridge, future)
      else if Bridges(v.event, id) then ScanState(all, rest, id, Some((v.event.first, v.event.final)), future)
      else ScanState(all, rest, id, bridge, true)
  {
    assert q[i..][1..] == q[i + 1..];
    var rest := Events(q[i + 1..], symbol);
    if Relevant(q[i], symbol) {
      assert Events(q[i..], symbol) == [q[i].event] + rest;
      assert ([q[i].event] + rest)[1..] == rest;
    }
  }

  method PurgeQueuedDepthUpdates(envelopes: seq<Envelope>, id: int, symbol: string)
    returns (result: PurgeResult, preserved: seq<Envelope>)
    ensures preserved == Preserved(envelopes, id, symbol, false)
    ensures result.sizeBefore == |envelopes| && result.sizeAfter == |preserved|
    ensures |envelopes| == result.oldDropped + result.futureDropped + |preserved|
    ensures result.oldDropped == |Old(Events(envelopes, symbol), id)|
    ensures result.bridgeFound == result.bridge.Some?
    ensures result.bridge == IdsOf(FirstBridge(Events(envelopes, symbol), id))
    ensures result.bridge.Some? ==> result.bridge.value.0 <= id + 1 <= result.bridge.value.1
    ensures result.bridgeMissing == BridgeMissing(Events(envelopes, symbol), id)
  {
    preserved := [];
    var oldDropped, futureDropped, bridgeFound, bridge := 0, 0, false, None;
    ghost var all := Events(envelopes, symbol);
    for i := 0 to |envelopes|
      invariant preserved + Preserved(envelopes[i..], id, symbol, bridgeFound) == Preserved(envelopes, id, symbol, false)
      invariant i == oldDropped + futureDropped + |preserved|
      invariant oldDropped + |Old(Events(envelopes[i..], symbol), id)| == |Old(all, id)|
      invariant ScanState(all, Events(envelopes[i..], symbol), id, bridge, futureDropped > 0)
      invariant bridgeFound == bridge.Some?
      invariant bridge.Some? ==> bridge.value.0 <= id + 1 <= bridge.value.1
    {
      var envelope := envelopes[i];
      PurgeStep(preserved, envelopes, i, id, symbol, bridgeFound);
      OldStep(envelopes, i, id, symbol);
      ScanStep(all, envelopes, i, id, symbol, bridge, futureDropped > 0);
      if !Relevant(envelope, symbol) {
        preserved := preserved + [envelope];
      } else if envelope.event.final <= id {
        oldDropped := oldDropped + 1;
      } else if !bridgeFound {
        if Bridges(envelope.event, id) {
          bridgeFound := true;
          bridge := Some((envelope.event.first, envelope.event.final));
          preserved := preserved + [envelope];
        } else {
          futureDropped := futureDropped + 1;
        }
      } else {
        preserved := preserved + [envelope];
      }
    }
    result := PurgeResult(|envelopes|, oldDropped, bridgeFound, bridge, |preserved|,
                          futureDropped > 0 && !bridgeFound, futureDropped);
  }

  /** `asyncio.Queue` as the reader and the consumer see it between two awaits. */
  class BoundedQueue {
    var items: seq<Envelope>
    const maxSize: nat

    constructor (maxSize: nat)
      ensures items == [] && this.maxSize == maxSize
    {
      items := [];
      this.maxSize := maxSize;
    }

    method GetNowait() returns (item: Option<Envelope>)
      modifies this
      ensures old(items) == [] ==> item.None? && items == []
      ensures old(items) != [] ==> item == Some(old(items)[0]) && items == old(items)[1..]
    {
      if items == [] {
        item := None;
      } else {
        item := Some(items[0]);
        items := items[1..];
      }
    }

    /** False is `QueueFull`. */
    method PutNowait(item: Envelope) returns (stored: bool)
      modifies this
      ensures stored <==> |old(items)| < maxSize
      ensures items == if stored then old(items) + [item] else old(items)
    {
      stored := |items| < maxSize;
      if stored {
        items := items + [item];
      }
    }
  }

  method Drain(queue: BoundedQueue) returns (drained: seq<Envelope>)
    modifies queue
    ensures drained == old(queue.items) && queue.items == []
  {
    drained := [];
    var item := queue.GetNowait();
    while item.Some?
      invariant drained + (if item.Some? then [item.value] else []) + queue.items == old(queue.items)
      invariant item.None? ==> queue.items == []
      decreases |queue.items|, if item.Some? then 1 else 0
    {
      drained := drained + [item.value];
      item := queue.GetNowait();
    }
  }

  /** Puts envelopes into the empty queue and counts those it had no room for. */
  method Refill(queue: BoundedQueue, envelopes: seq<Envelope>) returns (dropped: int)
    requires queue.items == []
    modifies queue
    ensures dropped == if |envelopes| <= queue.maxSize then 0 else |envelopes| - queue.maxSize
    ensures queue.items == envelopes[..|envelopes| - dropped]
  {
    dropped := 0;
    for i := 0 to |envelopes|
      invariant dropped == if i <= queue.maxSize then 0 else i - queue.maxSize
      invariant queue.items == envelopes[..i - dropped]
    {
      var stored := queue.PutNowait(envelopes[i]);
      if !stored {
        dropped := dropped + 1;
      }
    }
  }

  /**
    Empties the queue and puts back what the purge keeps. No reader runs in
    between, so the queue is never found full and nothing more is lost.
   */
  method DrainAndRefill(queue: BoundedQueue, id: int, symbol: string) returns (result: PurgeResult)
    requires |queue.items| <= queue.maxSize
    modifies queue
    ensures queue.items == Preserved(old(queue.items), id, symbol, false)
    ensures |old(queue.items)| == result.oldDropped + result.futureDropped + |queue.items|
    ensures result.oldDropped == |Old(Events(old(queue.items), symbol), id)|
    ensures result.sizeAfter == |queue.items|
    ensures result.bridgeMissing == BridgeMissing(Events(old(queue.items), symbol), id)
  {
    var drained := Drain(queue);
    var preserved;
    result, preserved := PurgeQueuedDepthUpdates(drained, id, symbol);
    var droppedOnRequeue := Refill(queue, preserved);
    if droppedOnRequeue > 0 {
      result := result.(sizeAfter := if result.sizeAfter > droppedOnRequeue then result.sizeAfter - droppedOnRequeue else 0);
    }
  }

  // ---- Replay ----

  ghost function Replay(s: BookState, es: seq<DepthEvent>): BookState
    decreases |es|
  {
    if es == [] then s else Replay(AfterDelta(s, es[0]), es[1..])
  }

  /** The consumer works off the purged queue, the book first closed if no bridge was found. */
  ghost function ReplayPurged(s: BookState, es: seq<DepthEvent>, id: int): BookState {
    if BridgeMissing(es, id)
    then Replay(WithNotReady(s, true, None), Kept(es, id, false))
    else Replay(s, Kept(es, id, false))
  }

  ghost predicate SameBook(a: BookState, b: BookState) {
    && a.bids == b.bids && a.asks == b.asks
    && a.lastUpdateId == b.lastUpdateId
    && a.snapshotReady == b.snapshotReady && a.readyToEmit == b.readyToEmit
  }

  /** A book that just took snapshot `id`. */
  ghost predicate JustLoaded(s: BookState, id: int) {
    Inv(s) && s.snapshotReady && s.awaitingBridge && s.lastUpdateId == Some(id)
  }

  ghost predicate StandsAtLeast(s: BookState, id: int) {
    s.lastUpdateId.Some? && s.lastUpdateId.value >= id
  }

  lemma {:induction false} ClosedStaysClosed(s: BookState, es: seq<DepthEvent>)
    requires !s.snapshotReady
    ensures Replay(s, es) == s
    decreases |es|
  {
    if es != [] {
      assert AfterDelta(s, es[0]) == s;
      ClosedStaysClosed(s, es[1..]);
    }
  }

  lemma OldEventIgnored(s: BookState, e: DepthEvent, id: int)
    requires StandsAtLeast(s, id) && e.final <= id
    ensures AfterDelta(s, e) == s
  {}

  lemma DeltaNeverStepsBack(s: BookState, e: DepthEvent, id: int)
    requires StandsAtLeast(s, id)
    ensures StandsAtLeast(AfterDelta(s, e), id)
  {}

  lemma {:induction false} ReplayNeverStepsBack(s: BookState, es: seq<DepthEvent>, id: int)
    requires StandsAtLeast(s, id)
    ensures StandsAtLeast(Replay(s, es), id)
    decreases |es|
  {
    if es != [] {
      DeltaNeverStepsBack(s, es[0], id);
      ReplayNeverStepsBack(AfterDelta(s, es[0]), es[1..], id);
    }
  }

  /** Past the bridge the purge only drops events the book would ignore. */
  lemma {:induction false} ReplayKeptAfterBridge(s: BookState, es: seq<DepthEvent>, id: int)
    requires StandsAtLeast(s, id)
    ensures Replay(s, Kept(es, id, true)) == Replay(s, es)
    decreases |es|
  {
    if es != [] {
      if es[0].final <= id {
        OldEventIgnored(s, es[0], id);
        ReplayKeptAfterBridge(s, es[1..], id);
      } else {
        DeltaNeverStepsBack(s, es[0], id);
        ReplayKeptAfterBridge(AfterDelta(s, es[0]), es[1..], id);
      }
    }
  }

  /** A bridge event the book takes at snapshot `id`. */
  ghost predicate Acceptable(e: DepthEvent, id: int) {
    CleanEvent(e) && (e.prevFinal.Some? ==> e.prevFinal.value == id)
  }

  /** The purge jumps over an event past the snapshot to reach a bridge that the book takes. */
  ghost predicate JumpsToBridge(es: seq<DepthEvent>, id: int) {
    && FirstBridge(es, id).Some?
    && FirstPast(es, id) != FirstBridge(es, id)
    && Acceptable(FirstBridge(es, id).value, id)
  }

  /** With no bridge among them, events past the snapshot close the book and the rest changes nothing more. */
  lemma {:induction false} ReplayWithoutBridge(s: BookState, es: seq<DepthEvent>, id: int)
    requires JustLoaded(s, id)
    requires FirstPast(es, id).Some? ==> !Bridges(FirstPast(es, id).value, id)
    ensures if FirstPast(es, id).None? then Replay(s, es) == s
            else Replay(s, es) == WithNotReady(s, true, Some(FirstPast(es, id).value.final))
    decreases |es|
  {
    if es != [] {
      if es[0].final <= id {
        OldEventIgnored(s, es[0], id);
        ReplayWithoutBridge(s, es[1..], id);
      } else {
        DeltaAcceptedIff(s, es[0]);
        ClosedStaysClosed(AfterDelta(s, es[0]), es[1..]);
      }
    }
  }

  /** What is kept starts with the bridge and goes on with what is kept of `rest`. */
  ghost predicate KeptSplits(s: BookState, es: seq<DepthEvent>, id: int, rest: seq<DepthEvent>)
    requires FirstBridge(es, id).Some?
  {
    var bridge := FirstBridge(es, id);
    && Kept(es, id, false) == [bridge.value] + Kept(rest, id, true)
    && (FirstPast(es, id) == bridge ==> Replay(s, es) == Replay(AfterDelta(s, bridge.value), rest))
  }

  /** Before the bridge the purge drops events that the book ignores, or that would have closed it. */
  lemma {:induction false} KeptFromBridge(s: BookState, es: seq<DepthEvent>, id: int)
    requires JustLoaded(s, id) && FirstBridge(es, id).Some?
    ensures exists rest :: KeptSplits(s, es, id, rest)
    decreases |es|
  {
    if Bridges(es[0], id) {
      assert KeptSplits(s, es, id, es[1..]);
    } else {
      KeptFromBridge(s, es[1..], id);
      var rest :| KeptSplits(s, es[1..], id, rest);
      if es[0].final <= id {
        OldEventIgnored(s, es[0], id);
      } else {
        FirstBridgeBridges(es, id);
      }
      assert KeptSplits(s, es, id, rest);
    }
  }

  lemma {:induction false} FirstBridgeBridges(es: seq<DepthEvent>, id: int)
    ensures FirstBridge(es, id).Some? ==> Bridges(FirstBridge(es, id).value, id)
    ensures FirstPast(es, id).Some? ==> FirstPast(es, id).value.final > id
    ensures FirstPast(es, id).None? ==> FirstBridge(es, id).None?
    ensures FirstPast(es, id).Some? && Bridges(FirstPast(es, id).value, id) ==> FirstPast(es, id) == FirstBridge(es, id)
    decreases |es|
  {
    if es != [] {
      FirstBridgeBridges(es[1..], id);
    }
  }

  lemma {:induction false} KeptWithoutBridge(es: seq<DepthEvent>, id: int)
    requires FirstBridge(es, id).None?
    ensures Kept(es, id, false) == []
    decreases |es|
  {
    if es != [] {
      KeptWithoutBridge(es[1..], id);
    }
  }

  /**
    Purging keeps the meaning of the queue exactly when it does not jump over
    an event past the snapshot to a bridge that the book would then take.
   */
  lemma PurgeKeepsMeaningIff(s: BookState, es: seq<DepthEvent>, id: int)
    requires JustLoaded(s, id)
    ensures SameBook(Replay(s, es), ReplayPurged(s, es, id)) <==> !JumpsToBridge(es, id)
  {
    FirstBridgeBridges(es, id);
    if FirstBridge(es, id).None? {
      KeptWithoutBridge(es, id);
      ReplayWithoutBridge(s, es, id);
      assert Replay(WithNotReady(s, true, None), []) == WithNotReady(s, true, None);
    } else {
      var c := FirstBridge(es, id).value;
      KeptFromBridge(s, es, id);
      var rest :| KeptSplits(s, es, id, rest);
      var t := AfterDelta(s, c);
      DeltaAcceptedIff(s, c);
      DeltaNeverStepsBack(s, c, id);
      ReplayKeptAfterBridge(t, rest, id);
      assert Replay(s, Kept(es, id, false)) == Replay(t, rest);
      if FirstPast(es, id) != FirstBridge(es, id) {
        ReplayWithoutBridge(s, es, id);
        if Acceptable(c, id) {
          ReplayNeverStepsBack(t, rest, c.final);
        } else {
          ClosedStaysClosed(t, rest);
        }
      }
    }
  }

  /**
    Without such a jump the two replays differ in the gap boundary at most:
    where the first event past the snapshot is no bridge, the unpurged queue
    leaves the boundary of that event, the purged one that of the bridge it
    found and could not take, or none.
   */
  lemma {:induction false} PurgeChangesOnlyTheBoundary(s: BookState, es: seq<DepthEvent>, id: int)
    requires JustLoaded(s, id) && !JumpsToBridge(es, id)
    ensures if FirstPast(es, id) == FirstBridge(es, id) then ReplayPurged(s, es, id) == Replay(s, es)
            else (Replay(s, es) == WithNotReady(s, true, FinalOf(FirstPast(es, id)))
                  && ReplayPurged(s, es, id) == WithNotReady(s, true, FinalOf(FirstBridge(es, id))))
  {
    FirstBridgeBridges(es, id);
    if FirstBridge(es, id).None? {
      KeptWithoutBridge(es, id);
      ReplayWithoutBridge(s, es, id);
    } else {
      var c := FirstBridge(es, id).value;
      KeptFromBridge(s, es, id);
      var rest :| KeptSplits(s, es, id, rest);
      var t := AfterDelta(s, c);
      DeltaNeverStepsBack(s, c, id);
      ReplayKeptAfterBridge(t, rest, id);
      assert Replay(s, Kept(es, id, false)) == Replay(t, rest);
      if FirstPast(es, id) != FirstBridge(es, id) {
        ReplayWithoutBridge(s, es, id);
        RefusedBridge(s, c, id);
        ClosedStaysClosed(t, rest);
      }
    }
  }

  function FinalOf(e: Option<DepthEvent>): Option<int> {
    if e.None? then None else Some(e.value.final)
  }

  lemma RefusedBridge(s: BookState, e: DepthEvent, id: int)
    requires JustLoaded(s, id) && Bridges(e, id) && !Acceptable(e, id)
    ensures AfterDelta(s, e) == WithNotReady(s, true, Some(e.final))
  {}

  function Bare(id: int): DepthEvent {
    DepthEvent(id, id, None, [], [], 0)
  }

  /** A queue out of order: after snapshot `id` the purge drops the event after next and keeps the next. */
  lemma {:induction false} OutOfOrderQueueChangesMeaning(s: BookState, id: int)
    requires JustLoaded(s, id)
    ensures var es := [Bare(id + 2), Bare(id + 1)];
      JumpsToBridge(es, id) && !SameBook(Replay(s, es), ReplayPurged(s, es, id))
  {
    var es := [Bare(id + 2), Bare(id + 1)];
    assert es[1..] == [Bare(id + 1)];
    assert FirstBridge(es, id) == FirstBridge([Bare(id + 1)], id) == Some(Bare(id + 1));
    PurgeKeepsMeaningIff(s, es, id);
  }

  /** Exchange order: ranges are sound, disjoint and increasing; gaps are allowed. */
  ghost predicate InExchangeOrder(es: seq<DepthEvent>) {
    && (forall i :: 0 <= i < |es| ==> es[i].first <= es[i].final)
    && (forall i, j :: 0 <= i < j < |es| ==> es[i].final < es[j].first)
  }

  lemma {:induction false} NoBridgeLater(es: seq<DepthEvent>, id: int, e: DepthEvent)
    requires InExchangeOrder([e] + es) && e.final > id && !Bridges(e, id)
    ensures FirstBridge(es, id).None?
    decreases |es|
  {
    if es != [] {
      var both := [e] + es;
      assert both[0] == e && both[1] == es[0];
      forall i, j | 0 <= i < j < |[e] + es[1..]| ensures ([e] + es[1..])[i].final < ([e] + es[1..])[j].first {
        assert both[if i == 0 then 0 else i + 1].final < both[j + 1].first;
      }
      forall i | 0 <= i < |[e] + es[1..]| ensures ([e] + es[1..])[i].first <= ([e] + es[1..])[i].final {
        assert ([e] + es[1..])[i] == both[if i == 0 then 0 else i + 1];
      }
      NoBridgeLater(es[1..], id, e);
    }
  }

  lemma {:induction false} OrderedNeverJumps(es: seq<DepthEvent>, id: int)
    requires InExchangeOrder(es)
    ensures !JumpsToBridge(es, id)
    decreases |es|
  {
    if es != [] {
      assert InExchangeOrder(es[1..]);
      if es[0].final <= id || Bridges(es[0], id) {
        OrderedNeverJumps(es[1..], id);
      } else {
        assert [es[0]] + es[1..] == es;
        NoBridgeLater(es[1..], id, es[0]);
      }
    }
  }

  /** A queue filled in exchange order means the same purged and unpurged. */
  lemma OrderedPurgeKeepsMeaning(s: BookState, q: seq<Envelope>, id: int, symbol: string)
    requires JustLoaded(s, id) && InExchangeOrder(Events(q, symbol))
    ensures SameBook(Replay(s, Events(q, symbol)), ReplayPurged(s, Events(q, symbol), id))
    ensures Events(Preserved(q, id, symbol, false), symbol) == Kept(Events(q, symbol), id, false)
  {
    OrderedNeverJumps(Events(q, symbol), id);
    PurgeKeepsMeaningIff(s, Events(q, symbol), id);
    PreservedEvents(q, id, symbol, false);
  }

  // ---- Recovery ----

  /** Clean events without a previous id, each starting where the one before ended. */
  ghost predicate Contiguous(es: seq<DepthEvent>) {
    && (forall i :: 0 <= i < |es| ==> es[i].first <= es[i].final && CleanEvent(es[i]) && es[i].prevFinal.None?)
    && (forall i :: 0 <= i < |es| - 1 ==> es[i + 1].first == es[i].final + 1)
  }

  ghost predicate Live(s: BookState) {
    s.snapshotReady && s.sequenceContinuous && !s.awaitingBridge
  }

  /** The event a ready book waits for: the bridge of its snapshot, or the next range. */
  ghost predicate Awaited(s: BookState, e: DepthEvent) {
    && s.snapshotReady && s.lastUpdateId.Some?
    && e.first <= e.final && CleanEvent(e) && e.prevFinal.None?
    && if s.awaitingBridge then Bridges(e, s.lastUpdateId.value) else e.first == s.lastUpdateId.value + 1
  }

  lemma AwaitedIsAccepted(s: BookState, e: DepthEvent)
    requires Inv(s) && Awaited(s, e)
    ensures DeltaStatus(s, e) == DeltaApplied
    ensures Inv(AfterDelta(s, e)) && Live(AfterDelta(s, e)) && AfterDelta(s, e).lastUpdateId == Some(e.final)
    ensures AfterDelta(s, e).stateVersion == s.stateVersion + 1
  {
    DeltaAcceptedIff(s, e);
    InvKept(s, Delta(e));
  }

  lemma RestIsContiguous(es: seq<DepthEvent>)
    requires Contiguous(es) && |es| > 1
    ensures Contiguous(es[1..]) && es[1..][0].first == es[0].final + 1
  {
    assert es[0 + 1].first == es[0].final + 1;
    forall i | 0 <= i < |es[1..]| - 1 ensures es[1..][i + 1].first == es[1..][i].final + 1 {
      assert es[i + 1 + 1].first == es[i + 1].final + 1;
    }
  }

  lemma {:induction false} ContiguousRunAccepted(s: BookState, es: seq<DepthEvent>)
    requires Inv(s) && es != [] && Contiguous(es) && Awaited(s, es[0])
    ensures Live(Replay(s, es)) && Replay(s, es).lastUpdateId == Some(es[|es| - 1].final)
    ensures Replay(s, es).stateVersion == s.stateVersion + |es|
    decreases |es|
  {
    AwaitedIsAccepted(s, es[0]);
    if |es| > 1 {
      RestIsContiguous(es);
      ContiguousRunAccepted(AfterDelta(s, es[0]), es[1..]);
    } else {
      assert es[1..] == [];
    }
  }

  /**
    With a bridge and nothing missing after it, recovery ends live at the last
    queued id; the version counts one accepted delta for every kept event.
   */
  lemma {:induction false} RecoveryCompletes(s: BookState, q: seq<Envelope>, id: int, symbol: string)
    requires JustLoaded(s, id)
    requires FirstBridge(Events(q, symbol), id).Some?
    requires Contiguous(Events(Preserved(q, id, symbol, false), symbol))
    ensures var es := Events(Preserved(q, id, symbol, false), symbol);
      es != [] && Live(Replay(s, es)) && Replay(s, es).lastUpdateId == Some(es[|es| - 1].final)
      && Replay(s, es).stateVersion == s.stateVersion + |es|
  {
    PreservedEvents(q, id, symbol, false);
    KeptFromBridge(s, Events(q, symbol), id);
    FirstBridgeBridges(Events(q, symbol), id);
    ContiguousRunAccepted(s, Events(Preserved(q, id, symbol, false), symbol));
  }
}
