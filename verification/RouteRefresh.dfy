/**
 What the tasks of the route protocol are for: left alone, each of them finishes, and the slot of its community then
 holds what it should.
 */
module RouteRefresh {
  import opened Common
  import opened RouteProtocol

  function StepsLeft(t: Task): nat {
    match t
    case KeepaliveTake(_) => 4
    case KeepaliveRelease(_, _) => 3
    case ChangeClear(_) => 3
    case Allocate(_, _) => 2
    case HostAllocate(_) => 2
    case UnhostRemove(_) => 2
    case Install(_, _) => 1
    case ChangeGiveUp(_) => 1
    case HostInsert(_, _) => 1
    case UnhostRelease(_) => 1
    case Finished => 0
  }

  /** The task takes its steps with nobody else in between, the network up or down, until it is finished. */
  function Alone(s: State, id: TaskId, networkOk: bool): State
    requires id in s.tasks
    decreases StepsLeft(s.tasks[id])
  {
    if s.tasks[id].Finished? then s else Alone(Advance(s, id, networkOk), id, networkOk)
  }

  lemma {:induction false} OneStep(s: State, id: TaskId, networkOk: bool)
    requires id in s.tasks && !s.tasks[id].Finished?
    ensures id in Advance(s, id, networkOk).tasks
    ensures Alone(s, id, networkOk) == Alone(Advance(s, id, networkOk), id, networkOk)
    ensures Advance(s, id, networkOk).tasks == s.tasks[id := Advance(s, id, networkOk).tasks[id]]
    ensures StepsLeft(Advance(s, id, networkOk).tasks[id]) < StepsLeft(s.tasks[id])
  {
  }

  lemma {:induction false} NoStep(s: State, id: TaskId, networkOk: bool)
    requires id in s.tasks && s.tasks[id].Finished?
    ensures Alone(s, id, networkOk) == s && s.tasks[id := Finished] == s.tasks
  {
  }

  /** Such a run is one of the protocol's: whatever state it starts from can be reached, its end can. */
  lemma {:induction false} AloneIsReachable(s: State, events: seq<Event>, id: TaskId, networkOk: bool)
    returns (more: seq<Event>)
    requires Reachable(s, events) && id in s.tasks
    ensures Reachable(Alone(s, id, networkOk), events + more)
    ensures forall e :: e in more ==> e == Step(id, networkOk)
    ensures Alone(s, id, networkOk).tasks == s.tasks[id := Finished]
    decreases StepsLeft(s.tasks[id])
  {
    hide Advance, Alone, Reachable, StepsLeft;
    more := [];
    if s.tasks[id].Finished? {
      NoStep(s, id, networkOk);
      assert events + [] == events;
    } else {
      var e, next := Step(id, networkOk), Advance(s, id, networkOk);
      OneStep(s, id, networkOk);
      ReachOneMore(s, events, e);
      var rest := AloneIsReachable(next, events + [e], id, networkOk);
      more := [e] + rest;
      assert events + more == events + [e] + rest;
    }
  }

  lemma {:induction false} ReachOneMore(s: State, events: seq<Event>, e: Event)
    requires Reachable(s, events) && Enabled(s, e)
    ensures Reachable(After(s, e), events + [e])
  {
    hide After, Enabled;
    assert (events + [e])[..|events|] == events;
  }

  // ---------------------------------------------------------------------------
  // From each lock section on
  // ---------------------------------------------------------------------------

  /** Only these parts differ; the task is finished. */
  predicate Ends(s: State, s': State, id: TaskId, hosted: Slots, handedOut: nat, released: seq<RouteId>,
                 dropped: set<RouteId>)
  {
    s' == State(hosted, handedOut, released, dropped, s.tasks[id := Finished])
  }

  /** The routes a slot loses without a release. */
  function LostWith(slots: Slots, c: CommunityId): set<RouteId> {
    if c in slots && slots[c].routeId.Some? then {slots[c].routeId.value} else {}
  }

  /** A route made is put in the slot with its blob, or dropped when the community is gone. */
  lemma {:induction false} InstallEnds(s: State, id: TaskId, c: CommunityId, made: RouteId, networkOk: bool)
    requires id in s.tasks && s.tasks[id] == Install(c, made)
    ensures var s' := Alone(s, id, networkOk);
      if c in s.hosted then
        Ends(s, s', id, s.hosted[c := Slot(Some(made), Some(BlobOf(made)))], s.handedOut, s.released,
             s.dropped + LostWith(s.hosted, c))
      else Ends(s, s', id, s.hosted, s.handedOut, s.released, s.dropped + {made})
  {
    OneStep(s, id, networkOk);
  }

  lemma {:induction false} AllocateEnds(s: State, id: TaskId, actor: Actor, c: CommunityId, networkOk: bool)
    requires id in s.tasks && s.tasks[id] == Allocate(actor, c)
    ensures var s', r := Alone(s, id, networkOk), s.handedOut;
      if networkOk && c in s.hosted then
        Ends(s, s', id, s.hosted[c := Slot(Some(r), Some(BlobOf(r)))], r + 1, s.released,
             s.dropped + LostWith(s.hosted, c))
      else if networkOk then Ends(s, s', id, s.hosted, r + 1, s.released, s.dropped + {r})
      else if actor == RouteChange && c in s.hosted then
        Ends(s, s', id, s.hosted[c := Slot(None, None)], r, s.released, s.dropped + LostWith(s.hosted, c))
      else Ends(s, s', id, s.hosted, r, s.released, s.dropped)
  {
    var next := Advance(s, id, networkOk);
    OneStep(s, id, networkOk);
    if networkOk {
      InstallEnds(next, id, c, s.handedOut, networkOk);
      assert s.tasks[id := next.tasks[id]][id := Finished] == s.tasks[id := Finished];
    } else {
      if actor == RouteChange { OneStep(next, id, networkOk); }
      assert s.tasks[id := next.tasks[id]][id := Finished] == s.tasks[id := Finished];
    }
  }

  // ---------------------------------------------------------------------------
  // From the start
  // ---------------------------------------------------------------------------

  function Released(slots: Slots, c: CommunityId): seq<RouteId> {
    if c in slots && slots[c].routeId.Some? then [slots[c].routeId.value] else []
  }

  /**
   A keepalive on its own: the community's old route is released, and with the network up a route handed out by then
   is in the slot with its blob. With the network down the slot has no route, and the old blob stays on show.
   */
  lemma {:induction false} KeepaliveRenews(s: State, id: TaskId, c: CommunityId, networkOk: bool)
    requires id in s.tasks && s.tasks[id] == KeepaliveTake(c) && c in s.hosted
    ensures var s', r := Alone(s, id, networkOk), s.handedOut;
      var released := s.released + Released(s.hosted, c);
      if networkOk then
        Ends(s, s', id, s.hosted[c := Slot(Some(r), Some(BlobOf(r)))], r + 1, released, s.dropped)
      else Ends(s, s', id, s.hosted[c := Slot(None, s.hosted[c].routeBlob)], r, released, s.dropped)
  {
    var taken := Advance(s, id, networkOk);
    OneStep(s, id, networkOk);
    var ready := if taken.tasks[id].KeepaliveRelease? then Advance(taken, id, networkOk) else taken;
    if taken.tasks[id].KeepaliveRelease? { OneStep(taken, id, networkOk); }
    assert ready == State(s.hosted[c := Slot(None, s.hosted[c].routeBlob)], s.handedOut,
                          s.released + Released(s.hosted, c), s.dropped, s.tasks[id := Allocate(Keepalive, c)])
    by {
      if s.hosted[c].routeId.None? { assert s.hosted[c := s.hosted[c]] == s.hosted; }
      assert s.tasks[id := taken.tasks[id]][id := ready.tasks[id]] == s.tasks[id := ready.tasks[id]];
    }
    AllocateEnds(ready, id, Keepalive, c, networkOk);
    hide Alone, Advance;
    assert ready.tasks[id := Finished] == s.tasks[id := Finished];
    var fresh_ := Slot(Some(s.handedOut), Some(BlobOf(s.handedOut)));
    assert ready.hosted[c := fresh_] == s.hosted[c := fresh_];
    assert s.dropped + {} == s.dropped;
  }

  /**
   A route change on its own: the dead route is not released, and with the network up a new one is in the slot with
   its blob. With the network down route and blob are both gone.
   */
  lemma {:induction false} RouteChangeRenews(s: State, id: TaskId, c: CommunityId, networkOk: bool)
    requires id in s.tasks && s.tasks[id] == ChangeClear(c) && c in s.hosted
    ensures var s', r := Alone(s, id, networkOk), s.handedOut;
      var dropped := s.dropped + LostWith(s.hosted, c);
      if networkOk then
        Ends(s, s', id, s.hosted[c := Slot(Some(r), Some(BlobOf(r)))], r + 1, s.released, dropped)
      else Ends(s, s', id, s.hosted[c := Slot(None, None)], r, s.released, dropped)
  {
    var ready := Advance(s, id, networkOk);
    OneStep(s, id, networkOk);
    assert ready == State(s.hosted[c := Slot(None, s.hosted[c].routeBlob)], s.handedOut, s.released,
                          s.dropped + LostWith(s.hosted, c), s.tasks[id := Allocate(RouteChange, c)]);
    AllocateEnds(ready, id, RouteChange, c, networkOk);
    hide Alone, Advance;
    assert ready.tasks[id := Finished] == s.tasks[id := Finished];
    var slot := if networkOk then Slot(Some(s.handedOut), Some(BlobOf(s.handedOut))) else Slot(None, None);
    assert ready.hosted[c := slot] == s.hosted[c := slot];
    assert ready.dropped + {} == ready.dropped;
  }

  /** A retry on its own: with the network up the slot has a new route with its blob; otherwise nothing has changed. */
  lemma {:induction false} RetryRenews(s: State, id: TaskId, c: CommunityId, networkOk: bool)
    requires id in s.tasks && s.tasks[id] == Allocate(Retry, c) && c in s.hosted
    ensures var s', r := Alone(s, id, networkOk), s.handedOut;
      if networkOk then
        Ends(s, s', id, s.hosted[c := Slot(Some(r), Some(BlobOf(r)))], r + 1, s.released,
             s.dropped + LostWith(s.hosted, c))
      else Ends(s, s', id, s.hosted, r, s.released, s.dropped)
  {
    AllocateEnds(s, id, Retry, c, networkOk);
  }

  /** A community that is gone by then gets nothing: a route made for it is lost, and every slot is as before. */
  lemma {:induction false} GoneCommunityGetsNone(s: State, id: TaskId, c: CommunityId, networkOk: bool)
    requires id in s.tasks && c !in s.hosted
    requires s.tasks[id] == KeepaliveTake(c) || s.tasks[id] == ChangeClear(c) || s.tasks[id] == Allocate(Retry, c)
    ensures var s', r := Alone(s, id, networkOk), s.handedOut;
      if networkOk then Ends(s, s', id, s.hosted, r + 1, s.released, s.dropped + {r})
      else Ends(s, s', id, s.hosted, r, s.released, s.dropped)
  {
    if s.tasks[id].Allocate? {
      AllocateEnds(s, id, Retry, c, networkOk);
    } else {
      var ready := Advance(s, id, networkOk);
      OneStep(s, id, networkOk);
      var actor := if s.tasks[id].KeepaliveTake? then Keepalive else RouteChange;
      assert ready == s.(tasks := s.tasks[id := Allocate(actor, c)]);
      AllocateEnds(ready, id, actor, c, networkOk);
      hide Alone, Advance;
      assert ready.tasks[id := Finished] == s.tasks[id := Finished];
    }
  }

  /** Hosting on its own: the community has a slot, with a new route and its blob if the network is up. */
  lemma {:induction false} HostingFills(s: State, id: TaskId, c: CommunityId, networkOk: bool)
    requires id in s.tasks && s.tasks[id] == HostAllocate(c)
    ensures var s', r := Alone(s, id, networkOk), s.handedOut;
      var dropped := s.dropped + LostWith(s.hosted, c);
      if networkOk then
        Ends(s, s', id, s.hosted[c := Slot(Some(r), Some(BlobOf(r)))], r + 1, s.released, dropped)
      else Ends(s, s', id, s.hosted[c := Slot(None, None)], r, s.released, dropped)
  {
    var next := Advance(s, id, networkOk);
    OneStep(s, id, networkOk);
    OneStep(next, id, networkOk);
    assert s.tasks[id := next.tasks[id]][id := Finished] == s.tasks[id := Finished];
  }

  /** Unhosting on its own: the slot is gone, and its route is released. */
  lemma {:induction false} UnhostingReleases(s: State, id: TaskId, c: CommunityId, networkOk: bool)
    requires id in s.tasks && s.tasks[id] == UnhostRemove(c)
    ensures Ends(s, Alone(s, id, networkOk), id, s.hosted - {c}, s.handedOut, s.released + Released(s.hosted, c),
                 s.dropped)
  {
    var next := Advance(s, id, networkOk);
    OneStep(s, id, networkOk);
    if next.tasks[id].UnhostRelease? {
      OneStep(next, id, networkOk);
      assert s.tasks[id := next.tasks[id]][id := Finished] == s.tasks[id := Finished];
    }
  }
}
