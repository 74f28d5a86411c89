/**
 The private routes of hosted communities, with every task that touches them interleaved.

 A task gives up the lock on the hosted communities wherever it awaits the network, so each step below is one lock
 section or one call into the network layer. Tasks start at any moment, in any number, for any community: the
 keepalive loop, the route-change handler, the start-up retry, hosting and unhosting.
 */
module RouteProtocol {
  import opened Common

  type CommunityId = string
  type RouteId = nat
  type TaskId = nat

  /** What other nodes import to reach a route; it is made together with the route's id. */
  datatype Blob = BlobOf(route: RouteId)

  datatype Slot = Slot(routeId: Option<RouteId>, routeBlob: Option<Blob>)

  /** Who is allocating, and so what happens with the outcome. */
  datatype Actor = Keepalive | RouteChange | Retry

  /** What a task does next, with the route id it carries between lock sections. */
  datatype Task =
    | KeepaliveTake(community: CommunityId)
    | KeepaliveRelease(community: CommunityId, taken: RouteId)
    | ChangeClear(community: CommunityId)
    | ChangeGiveUp(community: CommunityId)
    | Allocate(actor: Actor, community: CommunityId)
    | Install(community: CommunityId, made: RouteId)
    | HostAllocate(community: CommunityId)
    | HostInsert(community: CommunityId, route: Option<RouteId>)
    | UnhostRemove(community: CommunityId)
    | UnhostRelease(taken: RouteId)
    | Finished
  {
    function Carries(): Option<RouteId> {
      match this
      case KeepaliveRelease(_, taken) => Some(taken)
      case Install(_, made) => Some(made)
      case HostInsert(_, route) => route
      case UnhostRelease(taken) => Some(taken)
      case _ => None
    }

    /** Where a task of the program begins. */
    predicate Initial() {
      KeepaliveTake? || ChangeClear? || (Allocate? && actor == Retry) || HostAllocate? || UnhostRemove?
    }
  }

  /**
   `handedOut` counts the routes handed out so far, which are numbered in order; `released` lists the ids passed to
   `release_private_route`, in call order; `dropped` are the ids overwritten or cleared without a release.
   */
  datatype State = State(
    hosted: Slots,
    handedOut: nat,
    released: seq<RouteId>,
    dropped: set<RouteId>,
    tasks: Tasks)

  datatype Event = Start(id: TaskId, task: Task) | Step(id: TaskId, networkOk: bool)

  type Slots = map<CommunityId, Slot>
  type Tasks = map<TaskId, Task>

  function SlotId(slots: Slots, c: CommunityId): Option<RouteId> {
    if c in slots then slots[c].routeId else None
  }

  function AsSet(r: Option<RouteId>): set<RouteId> {
    if r.Some? then {r.value} else {}
  }

  function Become(s: State, id: TaskId, next: Task): State {
    s.(tasks := s.tasks[id := next])
  }

  /** Put a slot in place of whatever a community has, losing track of the id that was there. */
  function Overwrite(s: State, c: CommunityId, slot: Slot): State {
    s.(hosted := s.hosted[c := slot], dropped := s.dropped + AsSet(SlotId(s.hosted, c)))
  }

  function FreshSlot(r: RouteId): Slot {
    Slot(Some(r), Some(BlobOf(r)))
  }

  /** One step of one task. */
  function Advance(s: State, id: TaskId, networkOk: bool): State
    requires id in s.tasks
  {
    match s.tasks[id]
    case KeepaliveTake(c) =>
      if SlotId(s.hosted, c).Some? then
        Become(s.(hosted := s.hosted[c := s.hosted[c].(routeId := None)]), id,
               KeepaliveRelease(c, SlotId(s.hosted, c).value))
      else Become(s, id, Allocate(Keepalive, c))
    case KeepaliveRelease(c, taken) =>
      Become(s.(released := s.released + [taken]), id, Allocate(Keepalive, c))
    case ChangeClear(c) =>
      if c in s.hosted then
        Become(Overwrite(s, c, s.hosted[c].(routeId := None)), id, Allocate(RouteChange, c))
      else Become(s, id, Allocate(RouteChange, c))
    case Allocate(actor, c) =>
      if networkOk then Become(s.(handedOut := s.handedOut + 1), id, Install(c, s.handedOut))
      else Become(s, id, if actor == RouteChange then ChangeGiveUp(c) else Finished)
    case ChangeGiveUp(c) =>
      if c in s.hosted then Become(Overwrite(s, c, Slot(None, None)), id, Finished) else Become(s, id, Finished)
    case Install(c, made) =>
      if c in s.hosted then Become(Overwrite(s, c, FreshSlot(made)), id, Finished)
      else Become(s.(dropped := s.dropped + {made}), id, Finished)
    case HostAllocate(c) =>
      if networkOk then Become(s.(handedOut := s.handedOut + 1), id, HostInsert(c, Some(s.handedOut)))
      else Become(s, id, HostInsert(c, None))
    case HostInsert(c, route) =>
      Become(Overwrite(s, c, if route.Some? then FreshSlot(route.value) else Slot(None, None)), id, Finished)
    case UnhostRemove(c) =>
      Become(s.(hosted := s.hosted - {c}), id,
             if SlotId(s.hosted, c).Some? then UnhostRelease(SlotId(s.hosted, c).value) else Finished)
    case UnhostRelease(taken) =>
      Become(s.(released := s.released + [taken]), id, Finished)
    case Finished => s
  }

  predicate Enabled(s: State, e: Event) {
    match e
    case Start(id, task) => id !in s.tasks && task.Initial()
    case Step(id, _) => id in s.tasks
  }

  function After(s: State, e: Event): State
    requires Enabled(s, e)
  {
    match e
    case Start(id, task) => Become(s, id, task)
    case Step(id, networkOk) => Advance(s, id, networkOk)
  }

  const START: State := State(map[], 0, [], {}, map[])

  ghost predicate Reachable(s: State, events: seq<Event>)
    decreases events
  {
    if events == [] then s == START
    else
      var n := |events| - 1;
      exists before :: Reachable(before, events[..n]) && Enabled(before, events[n]) && s == After(before, events[n])
  }

  // ---------------------------------------------------------------------------
  // The invariant: every route id is in exactly one place
  // ---------------------------------------------------------------------------

  function TaskRoute(tasks: Tasks, t: TaskId): Option<RouteId> {
    if t in tasks then tasks[t].Carries() else None
  }

  ghost function InSlots(slots: Slots): (ids: set<RouteId>)
    ensures forall c :: SlotId(slots, c).Some? ==> SlotId(slots, c).value in ids
  {
    set c | c in slots && SlotId(slots, c).Some? :: SlotId(slots, c).value
  }

  ghost function InTasks(tasks: Tasks): (ids: set<RouteId>)
    ensures forall t :: TaskRoute(tasks, t).Some? ==> TaskRoute(tasks, t).value in ids
  {
    set t | t in tasks && TaskRoute(tasks, t).Some? :: TaskRoute(tasks, t).value
  }

  ghost predicate SlotsDiffer(slots: Slots) {
    forall c, d :: c != d && SlotId(slots, c).Some? ==> SlotId(slots, c) != SlotId(slots, d)
  }

  ghost predicate TasksDiffer(tasks: Tasks) {
    forall t, u :: t != u && TaskRoute(tasks, t).Some? ==> TaskRoute(tasks, t) != TaskRoute(tasks, u)
  }

  /** The ids handed out are exactly those in slots, in tasks, released or dropped, and those four are disjoint. */
  ghost predicate Accounted(s: State) {
    && (forall r: nat :: r < s.handedOut <==>
          r in InSlots(s.hosted) || r in InTasks(s.tasks) || r in ElementsOf(s.released) || r in s.dropped)
    && InSlots(s.hosted) !! InTasks(s.tasks) !! ElementsOf(s.released) !! s.dropped
  }

  /** A slot's blob belongs to its id. */
  ghost predicate Paired(slots: Slots) {
    forall c :: c in slots && slots[c].routeId.Some? ==> slots[c].routeBlob == Some(BlobOf(slots[c].routeId.value))
  }

  ghost predicate Inv(s: State) {
    SlotsDiffer(s.hosted) && TasksDiffer(s.tasks) && NoRepeats(s.released) && Accounted(s) && Paired(s.hosted)
  }

  // ---------------------------------------------------------------------------
  // How the places change
  // ---------------------------------------------------------------------------

  lemma {:induction false} TaskPut(tasks: Tasks, id: TaskId, next: Task)
    requires TasksDiffer(tasks)
    requires next.Carries().Some? ==> next.Carries().value !in InTasks(tasks) - AsSet(TaskRoute(tasks, id))
    ensures InTasks(tasks[id := next]) == InTasks(tasks) - AsSet(TaskRoute(tasks, id)) + AsSet(next.Carries())
    ensures TasksDiffer(tasks[id := next])
  {
    var after := tasks[id := next];
    forall t ensures TaskRoute(after, t) == if t == id then next.Carries() else TaskRoute(tasks, t) {
    }
  }

  lemma {:induction false} SlotPut(slots: Slots, c: CommunityId, slot: Slot)
    requires SlotsDiffer(slots)
    requires slot.routeId.Some? ==> slot.routeId.value !in InSlots(slots) - AsSet(SlotId(slots, c))
    ensures InSlots(slots[c := slot]) == InSlots(slots) - AsSet(SlotId(slots, c)) + AsSet(slot.routeId)
    ensures SlotsDiffer(slots[c := slot])
  {
    var after := slots[c := slot];
    forall d ensures SlotId(after, d) == if d == c then slot.routeId else SlotId(slots, d) {
    }
  }

  lemma {:induction false} SlotRemove(slots: Slots, c: CommunityId)
    requires SlotsDiffer(slots)
    ensures InSlots(slots - {c}) == InSlots(slots) - AsSet(SlotId(slots, c))
    ensures SlotsDiffer(slots - {c})
  {
    var after := slots - {c};
    forall d ensures SlotId(after, d) == if d == c then None else SlotId(slots, d) {
    }
  }

  lemma {:induction false} ReleaseOne(released: seq<RouteId>, r: RouteId)
    requires NoRepeats(released) && r !in ElementsOf(released)
    ensures NoRepeats(released + [r]) && ElementsOf(released + [r]) == ElementsOf(released) + {r}
  {
  }

  /** A taken or removed id moves from its slot to the task. */
  lemma {:induction false} TakeKeeps(s: State, id: TaskId, networkOk: bool)
    requires Inv(s) && id in s.tasks && (s.tasks[id].KeepaliveTake? || s.tasks[id].UnhostRemove?)
    ensures Inv(Advance(s, id, networkOk))
  {
    hide InSlots, InTasks, SlotsDiffer, TasksDiffer, NoRepeats, ElementsOf;
    var c := s.tasks[id].community;
    TaskPut(s.tasks, id, Advance(s, id, networkOk).tasks[id]);
    if s.tasks[id].UnhostRemove? {
      SlotRemove(s.hosted, c);
    } else if c in s.hosted {
      SlotPut(s.hosted, c, s.hosted[c].(routeId := None));
    }
  }

  /** A carried id moves from the task to the released list, where it was not before. */
  lemma {:induction false} ReleaseKeeps(s: State, id: TaskId, networkOk: bool)
    requires Inv(s) && id in s.tasks && (s.tasks[id].KeepaliveRelease? || s.tasks[id].UnhostRelease?)
    ensures Inv(Advance(s, id, networkOk))
  {
    hide InSlots, InTasks, SlotsDiffer, TasksDiffer, NoRepeats, ElementsOf, Paired;
    TaskPut(s.tasks, id, Advance(s, id, networkOk).tasks[id]);
    ReleaseOne(s.released, s.tasks[id].taken);
  }

  /** A new id goes to the task that asked for it. */
  lemma {:induction false} AllocateKeeps(s: State, id: TaskId, networkOk: bool)
    requires Inv(s) && id in s.tasks && (s.tasks[id].Allocate? || s.tasks[id].HostAllocate?)
    ensures Inv(Advance(s, id, networkOk))
  {
    hide InSlots, InTasks, SlotsDiffer, TasksDiffer, NoRepeats, ElementsOf, Paired;
    assert s.handedOut !in InTasks(s.tasks);
    TaskPut(s.tasks, id, Advance(s, id, networkOk).tasks[id]);
  }

  /** A carried id, if any, moves into the slot; the id that was there is dropped. */
  lemma {:induction false} OverwriteKeeps(s: State, id: TaskId, c: CommunityId, slot: Slot, next: Task)
    requires Inv(s) && id in s.tasks && next.Carries().None?
    requires slot.routeId == s.tasks[id].Carries()
    requires slot.routeId.Some? ==> slot.routeBlob == Some(BlobOf(slot.routeId.value))
    ensures Inv(Become(Overwrite(s, c, slot), id, next))
  {
    hide InSlots, InTasks, SlotsDiffer, TasksDiffer, NoRepeats, ElementsOf;
    TaskPut(s.tasks, id, next);
    SlotPut(s.hosted, c, slot);
  }

  /** A carried id that finds no community to go to is dropped. */
  lemma {:induction false} DropKeeps(s: State, id: TaskId, next: Task)
    requires Inv(s) && id in s.tasks && next.Carries().None?
    ensures Inv(Become(s.(dropped := s.dropped + AsSet(s.tasks[id].Carries())), id, next))
  {
    hide InSlots, InTasks, SlotsDiffer, TasksDiffer, NoRepeats, ElementsOf, Paired;
    TaskPut(s.tasks, id, next);
  }

  lemma {:induction false} AdvanceKeeps(s: State, id: TaskId, networkOk: bool)
    requires Inv(s) && id in s.tasks
    ensures Inv(Advance(s, id, networkOk))
  {
    hide Inv;
    var next := Advance(s, id, networkOk).tasks[id];
    match s.tasks[id] {
      case KeepaliveTake(c) => TakeKeeps(s, id, networkOk);
      case KeepaliveRelease(c, taken) => ReleaseKeeps(s, id, networkOk);
      case ChangeClear(c) =>
        if c in s.hosted {
          OverwriteKeeps(s, id, c, s.hosted[c].(routeId := None), next);
        } else {
          DropKeeps(s, id, next);
          assert s.dropped + {} == s.dropped;
        }
      case Allocate(actor, c) => AllocateKeeps(s, id, networkOk);
      case ChangeGiveUp(c) =>
        if c in s.hosted {
          OverwriteKeeps(s, id, c, Slot(None, None), next);
        } else {
          DropKeeps(s, id, next);
          assert s.dropped + {} == s.dropped;
        }
      case Install(c, made) =>
        if c in s.hosted { OverwriteKeeps(s, id, c, FreshSlot(made), next); } else { DropKeeps(s, id, next); }
      case HostAllocate(c) => AllocateKeeps(s, id, networkOk);
      case HostInsert(c, route) =>
        OverwriteKeeps(s, id, c, if route.Some? then FreshSlot(route.value) else Slot(None, None), next);
      case UnhostRemove(c) => TakeKeeps(s, id, networkOk);
      case UnhostRelease(taken) => ReleaseKeeps(s, id, networkOk);
      case Finished =>
    }
  }

  lemma {:induction false} StartKeeps(s: State, id: TaskId, task: Task)
    requires Inv(s) && id !in s.tasks && task.Initial()
    ensures Inv(Become(s, id, task))
  {
    TaskPut(s.tasks, id, task);
  }

  lemma {:induction false} StartHolds()
    ensures Inv(START)
  {
  }

  lemma {:induction false} ReachableKeeps(s: State, events: seq<Event>)
    requires Reachable(s, events)
    ensures Inv(s)
    decreases events
  {
    hide Inv, Advance;
    if events == [] {
      StartHolds();
    } else {
      var n := |events| - 1;
      var before :| Reachable(before, events[..n]) && Enabled(before, events[n]) && s == After(before, events[n]);
      ReachableKeeps(before, events[..n]);
      match events[n] {
        case Start(id, task) => StartKeeps(before, id, task);
        case Step(id, networkOk) => AdvanceKeeps(before, id, networkOk);
      }
    }
  }

  // ---------------------------------------------------------------------------
  // What holds in every interleaving
  // ---------------------------------------------------------------------------

  /** No route is released twice, and no community keeps, and no task is about to install, a released route. */
  lemma {:induction false} NoDoubleRelease(s: State, events: seq<Event>)
    requires Reachable(s, events)
    ensures NoRepeats(s.released)
    ensures forall c :: c in s.hosted && s.hosted[c].routeId.Some? ==> s.hosted[c].routeId.value !in s.released
    ensures forall t :: t in s.tasks && s.tasks[t].Carries().Some? ==> s.tasks[t].Carries().value !in s.released
  {
    ReachableKeeps(s, events);
    forall c | c in s.hosted && s.hosted[c].routeId.Some? ensures s.hosted[c].routeId.value !in s.released {
      assert SlotId(s.hosted, c).value in InSlots(s.hosted);
    }
    forall t | t in s.tasks && s.tasks[t].Carries().Some? ensures s.tasks[t].Carries().value !in s.released {
      assert TaskRoute(s.tasks, t).value in InTasks(s.tasks);
    }
  }

  /** A community's blob belongs to its route, and looking a route up finds at most one community. */
  lemma {:induction false} RoutesIdentifyCommunities(s: State, events: seq<Event>)
    requires Reachable(s, events)
    ensures forall c :: c in s.hosted && s.hosted[c].routeId.Some? ==>
              s.hosted[c].routeBlob == Some(BlobOf(s.hosted[c].routeId.value))
    ensures forall c, d, r :: c in s.hosted && d in s.hosted && s.hosted[c].routeId == Some(r) == s.hosted[d].routeId ==>
              c == d
  {
    ReachableKeeps(s, events);
    forall c, d, r | c in s.hosted && d in s.hosted && s.hosted[c].routeId == Some(r) == s.hosted[d].routeId
      ensures c == d
    {
      assert SlotId(s.hosted, c) == SlotId(s.hosted, d);
    }
  }

  /**
   Conservation: every route ever handed out is in exactly one of four places - a community's slot, a task between
   two lock sections, the released ones, or the ones overwritten or cleared without a release.
   */
  lemma {:induction false} EveryRouteHasOnePlace(s: State, events: seq<Event>)
    requires Reachable(s, events)
    ensures Accounted(s) && NoRepeats(s.released)
    ensures |InSlots(s.hosted)| + |InTasks(s.tasks)| + |s.released| + |s.dropped| == s.handedOut
  {
    ReachableKeeps(s, events);
    assert NoRepeats(s.released) && Accounted(s);
    hide *;
    PlacesCount(s);
  }

  lemma {:induction false} PlacesCount(s: State)
    requires NoRepeats(s.released) && Accounted(s)
    ensures |InSlots(s.hosted)| + |InTasks(s.tasks)| + |s.released| + |s.dropped| == s.handedOut
  {
    hide InSlots, InTasks, ElementsOf, NoRepeats;
    CountDistinct(s.released);
    CountFour(InSlots(s.hosted), InTasks(s.tasks), ElementsOf(s.released), s.dropped);
    CountBelow(InSlots(s.hosted) + InTasks(s.tasks) + ElementsOf(s.released) + s.dropped, s.handedOut);
  }

  lemma {:induction false} CountBelow(ids: set<RouteId>, n: nat)
    requires forall r: nat :: r < n <==> r in ids
    ensures |ids| == n
  {
    if n == 0 {
      assert ids == {};
    } else {
      var rest := ids - {n - 1};
      assert ids == rest + {n - 1};
      CountBelow(rest, n - 1);
    }
  }

  lemma {:induction false} CountFour(a: set<RouteId>, b: set<RouteId>, c: set<RouteId>, d: set<RouteId>)
    requires a !! b !! c !! d
    ensures |a + b + c + d| == |a| + |b| + |c| + |d|
  {
  }

  lemma {:induction false} CountDistinct(s: seq<RouteId>)
    requires NoRepeats(s)
    ensures |ElementsOf(s)| == |s|
  {
    if s != [] {
      var init, last := s[..|s| - 1], s[|s| - 1];
      CountDistinct(init);
      assert last !in init;
      assert s == init + [last];
      assert ElementsOf(s) == ElementsOf(init) + {last};
    }
  }
}
