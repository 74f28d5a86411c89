/**
 The two locks of the server, seen as every task's sequence of acquisitions and releases.

 `hosted` is a readers-writer lock in which a waiting writer keeps new readers out; `db` is a mutex. A task is the
 list of what it still has to acquire and release. Tasks start at any moment, in any number, and take turns in any
 order.
 */
module LockOrder {
  import opened Common

  datatype Op = TakeRead | TakeWrite | GiveHosted | TakeDb | GiveDb

  datatype Mode = Free | Reading | Writing

  /** What one task holds. */
  datatype Held = Held(hosted: Mode, db: bool)

  const NOTHING: Held := Held(Free, false)

  /** `waiting`: the task has queued up for writing, which from then on keeps new readers out. */
  datatype Task = Task(held: Held, rest: seq<Op>, waiting: bool)

  datatype Event = Start(trace: seq<Op>) | Step(id: nat)

  function Perform(h: Held, op: Op): Held {
    match op
    case TakeRead => h.(hosted := Reading)
    case TakeWrite => h.(hosted := Writing)
    case GiveHosted => h.(hosted := Free)
    case TakeDb => h.(db := true)
    case GiveDb => h.(db := false)
  }

  predicate CanStep(tasks: seq<Task>, i: nat) {
    i < |tasks| && tasks[i].rest != [] &&
    match tasks[i].rest[0]
    case TakeRead => forall t :: t in tasks ==> t.held.hosted != Writing && !t.waiting
    case TakeWrite => tasks[i].waiting ==> forall t :: t in tasks ==> t.held.hosted == Free
    case TakeDb => forall t :: t in tasks ==> !t.held.db
    case _ => true
  }

  /** A writer's first step is to queue up, its second to take the lock; every other operation is one step. */
  function Stepped(t: Task): Task
    requires t.rest != []
  {
    if t.rest[0] == TakeWrite && !t.waiting then t.(waiting := true)
    else Task(Perform(t.held, t.rest[0]), t.rest[1..], false)
  }

  predicate Enabled(tasks: seq<Task>, e: Event) {
    e.Step? ==> CanStep(tasks, e.id)
  }

  function After(tasks: seq<Task>, e: Event): seq<Task>
    requires Enabled(tasks, e)
  {
    match e
    case Start(trace) => tasks + [Task(NOTHING, trace, false)]
    case Step(id) => tasks[id := Stepped(tasks[id])]
  }

  /** The tasks after `events`, unless one of the events could not happen when its turn came. */
  function Exec(events: seq<Event>): Option<seq<Task>> {
    if events == [] then Some([])
    else
      var before := Exec(events[..|events| - 1]);
      var e := events[|events| - 1];
      if before.Some? && Enabled(before.value, e) then Some(After(before.value, e)) else None
  }

  lemma {:induction false} ExecPush(events: seq<Event>, e: Event)
    requires Exec(events).Some? && Enabled(Exec(events).value, e)
    ensures Exec(events + [e]) == Some(After(Exec(events).value, e))
  {
  }

  // ---------------------------------------------------------------------------
  // The discipline
  // ---------------------------------------------------------------------------

  /** `hosted` only with empty hands, `db` not twice, and given back in reverse order. */
  predicate Allowed(h: Held, op: Op) {
    match op
    case TakeRead => h == NOTHING
    case TakeWrite => h == NOTHING
    case GiveHosted => h.hosted != Free && !h.db
    case TakeDb => !h.db
    case GiveDb => h.db
  }

  /** Starting with `h` in hand, `ops` keeps to the discipline and ends with `end` in hand. */
  predicate Leads(h: Held, ops: seq<Op>, end: Held)
    decreases |ops|
  {
    if ops == [] then h == end
    else Allowed(h, ops[0]) && Leads(Perform(h, ops[0]), ops[1..], end)
  }

  predicate Orderly(ops: seq<Op>) {
    Leads(NOTHING, ops, NOTHING)
  }

  ghost predicate AllOrderly(events: seq<Event>) {
    forall e :: e in events && e.Start? ==> Orderly(e.trace)
  }

  lemma {:induction false} LeadsOn(h: Held, a: seq<Op>, mid: Held, b: seq<Op>, end: Held)
    requires Leads(h, a, mid) && Leads(mid, b, end)
    ensures Leads(h, a + b, end)
    decreases |a|
  {
    if a == [] {
      assert a + b == b;
    } else {
      assert (a + b)[1..] == a[1..] + b;
      LeadsOn(Perform(h, a[0]), a[1..], mid, b, end);
    }
  }

  ghost predicate TaskOrderly(t: Task) {
    Leads(t.held, t.rest, NOTHING) && (t.waiting ==> t.rest != [] && t.rest[0] == TakeWrite)
  }

  lemma {:induction false} TasksStayOrderly(events: seq<Event>)
    requires AllOrderly(events) && Exec(events).Some?
    ensures forall t :: t in Exec(events).value ==> TaskOrderly(t)
  {
    if events != [] {
      var init, e := events[..|events| - 1], events[|events| - 1];
      TasksStayOrderly(init);
      var before, after := Exec(init).value, Exec(events).value;
      if e.Step? {
        assert before[e.id] in before;
        assert TaskOrderly(Stepped(before[e.id]));
      } else {
        assert e in events;
      }
      forall t | t in after ensures TaskOrderly(t) {
        var i :| 0 <= i < |after| && after[i] == t;
        if i < |before| { assert before[i] in before; }
      }
    }
  }

  // ---------------------------------------------------------------------------
  // No deadlock
  // ---------------------------------------------------------------------------

  predicate Unfinished(tasks: seq<Task>) {
    exists i :: 0 <= i < |tasks| && tasks[i].rest != []
  }

  predicate Stuck(tasks: seq<Task>) {
    Unfinished(tasks) && forall i :: 0 <= i < |tasks| ==> !CanStep(tasks, i)
  }

  /** With every task orderly, the holder of `db` can go on; failing one, any holder of `hosted`; failing one, anyone. */
  lemma {:induction false} OrderlyTasksAreNotStuck(tasks: seq<Task>)
    requires forall t :: t in tasks ==> TaskOrderly(t)
    ensures !Stuck(tasks)
  {
    if Stuck(tasks) {
      forall i | 0 <= i < |tasks| ensures !tasks[i].held.db { HandsFull(tasks, i); }
      forall i | 0 <= i < |tasks| ensures tasks[i].held.hosted == Free { HandsFull(tasks, i); }
      forall i | 0 <= i < |tasks| ensures !tasks[i].waiting { HandsFull(tasks, i); }
      var i :| 0 <= i < |tasks| && tasks[i].rest != [];
      HandsFull(tasks, i);
      assert false;
    }
  }

  /** What an orderly task that cannot go on is up against. */
  lemma {:induction false} HandsFull(tasks: seq<Task>, i: nat)
    requires i < |tasks| && TaskOrderly(tasks[i]) && !CanStep(tasks, i)
    ensures !tasks[i].held.db
    ensures (forall t :: t in tasks ==> !t.held.db) ==> tasks[i].held.hosted == Free
    ensures (forall t :: t in tasks ==> t.held == NOTHING) ==> !tasks[i].waiting
    ensures (forall t :: t in tasks ==> t.held == NOTHING && !t.waiting) ==> tasks[i].rest == []
  {
  }

  /** In every interleaving of orderly tasks, while one is unfinished some task can take its next step. */
  lemma {:induction false} NoDeadlock(events: seq<Event>)
    requires AllOrderly(events) && Exec(events).Some?
    ensures !Stuck(Exec(events).value)
  {
    TasksStayOrderly(events);
    OrderlyTasksAreNotStuck(Exec(events).value);
  }

  function TraceWork(ops: seq<Op>): nat {
    if ops == [] then 0 else (if ops[0] == TakeWrite then 2 else 1) + TraceWork(ops[1..])
  }

  function Work(tasks: seq<Task>): int {
    if tasks == [] then 0
    else
      Work(tasks[..|tasks| - 1]) + TaskWork(tasks[|tasks| - 1])
  }

  function TaskWork(t: Task): int {
    TraceWork(t.rest) - if t.waiting then 1 else 0
  }

  function WorkStarted(events: seq<Event>): nat {
    if events == [] then 0
    else
      var e := events[|events| - 1];
      WorkStarted(events[..|events| - 1]) + if e.Start? then TraceWork(e.trace) else 0
  }

  function StepsTaken(events: seq<Event>): nat {
    if events == [] then 0
    else StepsTaken(events[..|events| - 1]) + if events[|events| - 1].Step? then 1 else 0
  }

  lemma {:induction false} WorkDrops(tasks: seq<Task>, i: nat)
    requires i < |tasks| && tasks[i].rest != [] && (tasks[i].waiting ==> tasks[i].rest[0] == TakeWrite)
    ensures Work(tasks[i := Stepped(tasks[i])]) == Work(tasks) - 1
  {
    var after := tasks[i := Stepped(tasks[i])];
    if i < |tasks| - 1 {
      WorkDrops(tasks[..|tasks| - 1], i);
      assert after[..|tasks| - 1] == tasks[..|tasks| - 1][i := Stepped(tasks[i])];
    } else {
      assert after[..|tasks| - 1] == tasks[..|tasks| - 1];
    }
  }

  /** Steps use up the work that was started, one for one. */
  lemma {:induction false} StepsUseUpWork(events: seq<Event>)
    requires AllOrderly(events) && Exec(events).Some?
    ensures StepsTaken(events) + Work(Exec(events).value) == WorkStarted(events)
  {
    if events != [] {
      var init, e := events[..|events| - 1], events[|events| - 1];
      StepsUseUpWork(init);
      var before := Exec(init).value;
      if e.Step? {
        TasksStayOrderly(init);
        assert before[e.id] in before;
        WorkDrops(before, e.id);
      } else {
        assert After(before, e)[..|before|] == before;
      }
    }
  }

  lemma {:induction false} TaskWorkIsLeft(t: Task)
    requires TaskOrderly(t)
    ensures TaskWork(t) >= 0
    ensures t.rest != [] <==> TaskWork(t) > 0
  {
  }

  lemma {:induction false} WorkIsLeft(tasks: seq<Task>)
    requires forall t :: t in tasks ==> TaskOrderly(t)
    ensures Work(tasks) >= 0
    ensures Unfinished(tasks) <==> Work(tasks) > 0
  {
    hide TaskOrderly, TaskWork;
    if tasks != [] {
      var init, t := tasks[..|tasks| - 1], tasks[|tasks| - 1];
      WorkIsLeft(init);
      TaskWorkIsLeft(t);
      UnfinishedPush(init, t);
      assert tasks == init + [t];
    }
  }

  lemma {:induction false} UnfinishedPush(init: seq<Task>, t: Task)
    ensures Unfinished(init + [t]) <==> Unfinished(init) || t.rest != []
  {
    var all := init + [t];
    if Unfinished(init) {
      var i :| 0 <= i < |init| && init[i].rest != [];
      assert all[i].rest != [];
    }
    assert all[|init|] == t;
  }

  /**
   No run goes on for ever on what was started, and it can only stop with every task finished: at most as many steps
   are taken as there was work, and all tasks are finished exactly when that many were taken.
   */
  lemma {:induction false} EveryTaskFinishes(events: seq<Event>)
    requires AllOrderly(events) && Exec(events).Some?
    ensures StepsTaken(events) <= WorkStarted(events)
    ensures !Unfinished(Exec(events).value) <==> StepsTaken(events) == WorkStarted(events)
  {
    TasksStayOrderly(events);
    StepsUseUpWork(events);
    WorkIsLeft(Exec(events).value);
  }

  ghost predicate Exclusive(tasks: seq<Task>) {
    forall i, j :: 0 <= i < j < |tasks| ==>
      && (tasks[i].held.hosted == Writing ==> tasks[j].held.hosted == Free)
      && (tasks[j].held.hosted == Writing ==> tasks[i].held.hosted == Free)
      && !(tasks[i].held.db && tasks[j].held.db)
  }

  /** In every interleaving, of orderly tasks or not, a writer is alone and so is the holder of `db`. */
  lemma {:induction false} LocksExclude(events: seq<Event>)
    requires Exec(events).Some?
    ensures Exclusive(Exec(events).value)
  {
    if events != [] {
      LocksExclude(events[..|events| - 1]);
    }
  }

  /** A run goes on by one event. */
  lemma {:induction false} Reach(events: seq<Event>, e: Event, tasks: seq<Task>, next: seq<Task>)
    requires Exec(events) == Some(tasks) && Enabled(tasks, e) && After(tasks, e) == next
    ensures Exec(events + [e]) == Some(next)
  {
    ExecPush(events, e);
  }

  /** One task reads while another has queued up for writing. */
  lemma {:induction false} ReaderAndWriter(more: seq<Op>, others: seq<Op>)
    ensures var events := [Start([TakeRead] + more), Start([TakeWrite] + others)] + [Step(0), Step(1)];
            var reader := Task(Held(Reading, false), more, false);
            Exec(events) == Some([reader, Task(NOTHING, [TakeWrite] + others, true)])
  {
    var first, second := [TakeRead] + more, [TakeWrite] + others;
    var one, two := Task(NOTHING, first, false), Task(NOTHING, second, false);
    var reader := Task(Held(Reading, false), more, false);
    var e2 := [Start(first), Start(second)];
    TwoStarted(first, second);
    hide Exec;
    assert Stepped(one) == reader;
    Reach(e2, Step(0), [one, two], [reader, two]);
    Reach(e2 + [Step(0)], Step(1), [reader, two], [reader, two.(waiting := true)]);
    assert e2 + [Step(0)] + [Step(1)] == e2 + [Step(0), Step(1)];
  }

  /**
   Why `hosted` must not be taken twice: a task that reads it again while it is reading is stuck for good with one
   writer waiting, and so is the writer.
   */
  lemma {:induction false} ReadingTwiceDeadlocks()
    ensures var again := [TakeRead, TakeRead, GiveHosted, GiveHosted];
            var events := [Start(again), Start(WRITE)] + [Step(0), Step(1)];
            !Orderly(again) && Orderly(WRITE) && Exec(events).Some? && Stuck(Exec(events).value)
  {
    var again := [TakeRead, TakeRead, GiveHosted, GiveHosted];
    ReaderAndWriter(again[1..], WRITE[1..]);
    assert again == [TakeRead] + again[1..] && WRITE == [TakeWrite] + WRITE[1..];
    hide Exec;
    var reader, writer := Task(Held(Reading, false), again[1..], false), Task(NOTHING, WRITE, true);
    assert [reader, writer][0].rest != [] && reader in [reader, writer] && writer in [reader, writer];
  }

  /** A task alone takes the write lock in two steps. */
  lemma {:induction false} WriterAlone(more: seq<Op>)
    ensures Exec([Start([TakeWrite] + more)] + [Step(0), Step(0)]) == Some([Task(Held(Writing, false), more, false)])
  {
    var trace := [TakeWrite] + more;
    var start := Task(NOTHING, trace, false);
    ExecPush([], Start(trace));
    assert [] + [Start(trace)] == [Start(trace)] && [] + [start] == [start];
    assert Exec([Start(trace)]) == Some([start]);
    hide Exec;
    Reach([Start(trace)], Step(0), [start], [start.(waiting := true)]);
    Reach([Start(trace)] + [Step(0)], Step(0), [start.(waiting := true)], [Task(Held(Writing, false), more, false)]);
    assert [Start(trace)] + [Step(0)] + [Step(0)] == [Start(trace)] + [Step(0), Step(0)];
  }

  /** Why the write lock is dropped before a broadcast, which reads: the task would wait for itself. */
  lemma {:induction false} ReadingUnderWriteDeadlocks()
    ensures var trace := [TakeWrite, TakeRead, GiveHosted, GiveHosted];
            var events := [Start(trace)] + [Step(0), Step(0)];
            !Orderly(trace) && Exec(events).Some? && Stuck(Exec(events).value)
  {
    var trace := [TakeWrite, TakeRead, GiveHosted, GiveHosted];
    WriterAlone(trace[1..]);
    assert trace == [TakeWrite] + trace[1..];
    hide Exec;
    var end := [Task(Held(Writing, false), trace[1..], false)];
    assert end[0].rest != [] && end[0] in end;
  }

  /** Why `hosted` comes first: tasks that take the locks in opposite orders can each hold what the other needs. */
  lemma {:induction false} OppositeOrdersDeadlock()
    ensures var hostedFirst := [TakeRead, TakeDb, GiveDb, GiveHosted];
            var dbFirst := [TakeDb, TakeWrite, GiveHosted, GiveDb];
            var events := [Start(hostedFirst), Start(dbFirst)] + [Step(0), Step(1), Step(1)];
            Orderly(hostedFirst) && !Orderly(dbFirst) && Exec(events).Some? && Stuck(Exec(events).value)
  {
    var hostedFirst := [TakeRead, TakeDb, GiveDb, GiveHosted];
    var dbFirst := [TakeDb, TakeWrite, GiveHosted, GiveDb];
    AroundDb(DB, 1);
    assert hostedFirst == UnderRead(DB);
    TwoStarted(hostedFirst, dbFirst);
    BothReach(hostedFirst, dbFirst);
  }

  lemma {:induction false} BothReach(hostedFirst: seq<Op>, dbFirst: seq<Op>)
    requires hostedFirst == [TakeRead, TakeDb, GiveDb, GiveHosted] && dbFirst == [TakeDb, TakeWrite, GiveHosted, GiveDb]
    requires var e2 := [Start(hostedFirst), Start(dbFirst)];
             Exec(e2) == Some([Task(NOTHING, hostedFirst, false), Task(NOTHING, dbFirst, false)])
    ensures var events := [Start(hostedFirst), Start(dbFirst)] + [Step(0), Step(1), Step(1)];
            Exec(events).Some? && Stuck(Exec(events).value)
  {
    hide Orderly, Leads;
    var one := Task(Held(Reading, false), hostedFirst[1..], false);
    var two := Task(Held(Free, true), dbFirst[1..], true);
    var e2 := [Start(hostedFirst), Start(dbFirst)];
    var e3 := e2 + [Step(0)];
    var e4 := e3 + [Step(1)];
    ExecPush(e2, Step(0));
    assert Exec(e3).value == [one, Task(NOTHING, dbFirst, false)];
    ExecPush(e3, Step(1));
    assert Exec(e4).value == [one, two.(waiting := false)];
    ExecPush(e4, Step(1));
    assert Exec(e4 + [Step(1)]).value == [one, two];
    assert e4 + [Step(1)] == e2 + [Step(0), Step(1), Step(1)];
    assert [one, two][0].rest != [] && one in [one, two] && two in [one, two];
  }

  lemma {:induction false} TwoStarted(first: seq<Op>, second: seq<Op>)
    ensures Exec([Start(first), Start(second)]) == Some([Task(NOTHING, first, false), Task(NOTHING, second, false)])
  {
    ExecPush([], Start(first));
    assert [] + [Start(first)] == [Start(first)];
    assert [] + [Task(NOTHING, first, false)] == [Task(NOTHING, first, false)];
    assert Exec([Start(first)]) == Some([Task(NOTHING, first, false)]);
    ExecPush([Start(first)], Start(second));
    assert [Task(NOTHING, first, false)] + [Task(NOTHING, second, false)] ==
        [Task(NOTHING, first, false), Task(NOTHING, second, false)];
    assert [Start(first)] + [Start(second)] == [Start(first), Start(second)];
  }

  // ---------------------------------------------------------------------------
  // What the server's tasks acquire and release
  // ---------------------------------------------------------------------------

  /** The tasks of the server, up to what changes their use of the locks. */
  datatype Activity =
    | Rejoin(route: bool)
    | FirstJoin(first: bool, route: bool)
    | SendMessage
    | GetMessages
    | ReadOnly
    | Leave(found: bool)
    | Kick(found: bool)
    | Ban(found: bool)
    | ReadThenDb
    | Rotate
    | UpdateCommunity
    | ChangeChannels
    | ChangeRoles
    | ChangeMemberRoles(changes: bool)
    | ChangeOverwrite
    | Host(newKey: bool, newRoles: bool, founder: bool)
    | LoadAll
    | Unhost
    | Keepalive(refreshed: seq<Refresh>)
    | RouteChange(communities: nat)
    | RetryRoutes(recovered: seq<nat>)

  /** How the keep-alive of one community ends: its record stays shut, it gets no new route, or it gets one. */
  datatype Refresh = RecordShut | NoRoute | NewRoute

  const READ: seq<Op> := [TakeRead, GiveHosted]
  const WRITE: seq<Op> := [TakeWrite, GiveHosted]
  const DB: seq<Op> := [TakeDb, GiveDb]

  function Times(n: nat, ops: seq<Op>): seq<Op> {
    if n == 0 then [] else ops + Times(n - 1, ops)
  }

  function If(b: bool, ops: seq<Op>): seq<Op> {
    if b then ops else []
  }

  function UnderRead(ops: seq<Op>): seq<Op> {
    [TakeRead] + ops + [GiveHosted]
  }

  function UnderWrite(ops: seq<Op>): seq<Op> {
    [TakeWrite] + ops + [GiveHosted]
  }

  function Flat(parts: seq<seq<Op>>): seq<Op> {
    if parts == [] then [] else parts[0] + Flat(parts[1..])
  }

  function Trace(a: Activity): seq<Op> {
    Flat(Parts(a))
  }

  /** The stretches between two moments at which the task holds nothing. */
  function Parts(a: Activity): seq<seq<Op>> {
    match a
    case Rejoin(route) => [READ, DB, UnderWrite(If(route, DB))]
    case FirstJoin(first, route) =>
      // found, not banned, not a member; roster empty?; row; roster entry; roster published; broadcast
      [READ, DB, WRITE, READ, DB, UnderWrite(If(first, DB) + If(route, DB)), READ, READ]
    case SendMessage => [READ, DB, READ]
    case GetMessages => [READ, DB]
    case ReadOnly => [READ]
    case Leave(found) => [READ] + Departure(found)
    case Kick(found) => [READ, READ] + Departure(found)
    case Ban(found) => [READ, DB, READ] + Departure(found)
    case ReadThenDb => [UnderRead(DB)]
    case Rotate => [UnderWrite(DB), READ, READ]
    case UpdateCommunity => [UnderWrite(DB), READ, READ]
    case ChangeChannels => [UnderWrite(DB)]
    case ChangeRoles => [UnderWrite(DB), READ, READ]
    case ChangeMemberRoles(changes) => [UnderWrite(If(changes, DB)), READ, READ]
    case ChangeOverwrite => [UnderWrite(DB), READ]
    case Host(newKey, newRoles, founder) =>
      // known?; row; key; channels; roles; members; description; founder; inserted; four records published
      [READ, DB, DB, If(newKey, DB), DB, DB, If(newRoles, DB), DB, DB, If(founder, DB), WRITE, READ, READ, READ, READ]
    case LoadAll => [DB]
    case Unhost => [WRITE, DB]
    case Keepalive(refreshed) => [UnderRead(Times(|refreshed|, DB)), Refreshes(refreshed)]
    case RouteChange(n) => [READ, Times(n, WRITE + WRITE)]
    case RetryRoutes(recovered) => [Rounds(recovered), READ]
  }

  /**
   After the membership check of a departure: row; roster and key; both published; broadcast; key read; broadcast. The
   key rotates if the community is still hosted.
   */
  function Departure(found: bool): seq<seq<Op>> {
    [DB, UnderWrite(If(found, DB)), READ, READ, READ, READ, READ]
  }

  /** Community by community: the old route taken, a new one put in its place, three records published. */
  function Refreshes(refreshed: seq<Refresh>): seq<Op> {
    if refreshed == [] then []
    else (match refreshed[0]
          case RecordShut => []
          case NoRoute => Flat([WRITE, READ, READ, READ])
          case NewRoute => Flat([WRITE, WRITE, READ, READ, READ])) + Refreshes(refreshed[1..])
  }

  /** Round by round: the communities without a route collected, and some of them given one. */
  function Rounds(recovered: seq<nat>): seq<Op> {
    if recovered == [] then [] else READ + Times(recovered[0], WRITE) + Rounds(recovered[1..])
  }

  /** Leaving after `k` operations: the guards still held are dropped, the last one taken first. */
  function Early(ops: seq<Op>, k: nat): seq<Op>
    requires k <= |ops|
  {
    var h := HeldAfter(NOTHING, ops[..k]);
    ops[..k] + If(h.db, [GiveDb]) + If(h.hosted != Free, [GiveHosted])
  }

  function HeldAfter(h: Held, ops: seq<Op>): Held
    decreases |ops|
  {
    if ops == [] then h else HeldAfter(Perform(h, ops[0]), ops[1..])
  }

  lemma {:induction false} PrefixLeads(h: Held, ops: seq<Op>, end: Held, k: nat)
    requires Leads(h, ops, end) && k <= |ops|
    ensures Leads(h, ops[..k], HeldAfter(h, ops[..k]))
    decreases k
  {
    if k > 0 {
      assert ops[..k][1..] == ops[1..][..k - 1];
      PrefixLeads(Perform(h, ops[0]), ops[1..], end, k - 1);
    }
  }

  /** A handler that returns early, at any point, is as orderly as one that runs to its end. */
  lemma {:induction false} EarlyReturnIsOrderly(ops: seq<Op>, k: nat)
    requires Orderly(ops) && k <= |ops|
    ensures Orderly(Early(ops, k))
  {
    PrefixLeads(NOTHING, ops, NOTHING, k);
    var h := HeldAfter(NOTHING, ops[..k]);
    var mid := Held(h.hosted, false);
    assert Leads(h, If(h.db, [GiveDb]), mid);
    LeadsOn(NOTHING, ops[..k], h, If(h.db, [GiveDb]), mid);
    assert Leads(mid, If(h.hosted != Free, [GiveHosted]), NOTHING);
    LeadsOn(NOTHING, ops[..k] + If(h.db, [GiveDb]), mid, If(h.hosted != Free, [GiveHosted]), NOTHING);
  }

  lemma {:induction false} Basics()
    ensures Orderly(READ) && Orderly(WRITE) && Orderly(DB) && Orderly([])
  {
  }

  lemma {:induction false} FlatOrderly(parts: seq<seq<Op>>)
    requires forall p :: p in parts ==> Orderly(p)
    ensures Orderly(Flat(parts))
  {
    if parts != [] {
      FlatOrderly(parts[1..]);
      assert Orderly(parts[0]) && Orderly(Flat(parts[1..]));
      LeadsOn(NOTHING, parts[0], NOTHING, Flat(parts[1..]), NOTHING);
    }
  }

  lemma {:induction false} TimesOrderly(n: nat, ops: seq<Op>)
    requires Orderly(ops)
    ensures Orderly(Times(n, ops))
  {
    if n > 0 {
      TimesOrderly(n - 1, ops);
      LeadsOn(NOTHING, ops, NOTHING, Times(n - 1, ops), NOTHING);
    }
  }

  /** Any number of `db` sections fits inside one `hosted` section. */
  lemma {:induction false} DbInsideHosted(n: nat, h: Held)
    requires !h.db
    ensures Leads(h, Times(n, DB), h)
  {
    if n > 0 {
      assert DB[1..] == [GiveDb];
      assert Leads(h, DB, h);
      DbInsideHosted(n - 1, h);
      LeadsOn(h, DB, h, Times(n - 1, DB), h);
    }
  }

  lemma {:induction false} AroundDb(ops: seq<Op>, n: nat)
    requires ops == Times(n, DB)
    ensures Orderly(UnderRead(ops)) && Orderly(UnderWrite(ops))
  {
    var r, w := Held(Reading, false), Held(Writing, false);
    DbInsideHosted(n, r);
    DbInsideHosted(n, w);
    LeadsOn(NOTHING, [TakeRead], r, ops, r);
    LeadsOn(NOTHING, [TakeRead] + ops, r, [GiveHosted], NOTHING);
    LeadsOn(NOTHING, [TakeWrite], w, ops, w);
    LeadsOn(NOTHING, [TakeWrite] + ops, w, [GiveHosted], NOTHING);
  }

  lemma {:induction false} TwoRowsAtMost(a: bool, b: bool)
    ensures Orderly(UnderWrite(If(a, DB) + If(b, DB)))
  {
    hide Orderly, UnderWrite;
    var n := (if a then 1 else 0) + if b then 1 else 0;
    assert Times(0, DB) == [] && Times(1, DB) == DB + Times(0, DB) && Times(2, DB) == DB + Times(1, DB);
    AroundDb(If(a, DB) + If(b, DB), n);
  }

  lemma {:induction false} RefreshesOrderly(refreshed: seq<Refresh>)
    ensures Orderly(Refreshes(refreshed))
  {
    hide Orderly, Flat;
    Basics();
    if refreshed != [] {
      RefreshesOrderly(refreshed[1..]);
      FlatOrderly([WRITE, READ, READ, READ]);
      FlatOrderly([WRITE, WRITE, READ, READ, READ]);
      var one := match refreshed[0]
                 case RecordShut => []
                 case NoRoute => Flat([WRITE, READ, READ, READ])
                 case NewRoute => Flat([WRITE, WRITE, READ, READ, READ]);
      Joined(one, Refreshes(refreshed[1..]));
    }
  }

  lemma {:induction false} RoundsOrderly(recovered: seq<nat>)
    ensures Orderly(Rounds(recovered))
  {
    hide Orderly;
    Basics();
    if recovered != [] {
      RoundsOrderly(recovered[1..]);
      TimesOrderly(recovered[0], WRITE);
      Joined(READ, Times(recovered[0], WRITE));
      Joined(READ + Times(recovered[0], WRITE), Rounds(recovered[1..]));
    }
  }

  lemma {:induction false} Joined(a: seq<Op>, b: seq<Op>)
    requires Orderly(a) && Orderly(b)
    ensures Orderly(a + b)
  {
    LeadsOn(NOTHING, a, NOTHING, b, NOTHING);
  }

  /** Every activity of the server keeps to the discipline, whichever way it branches. */
  lemma {:induction false} ServerTasksAreOrderly(a: Activity)
    ensures Orderly(Trace(a))
  {
    hide Orderly, Flat, UnderRead, UnderWrite, Refreshes, Rounds;
    Basics();
    assert DB == Times(1, DB) by { assert Times(0, DB) == []; }
    AroundDb(DB, 1);
    AroundDb([], 0);
    match a {
      case FirstJoin(first, route) =>
        TwoRowsAtMost(first, route);
      case Keepalive(refreshed) =>
        AroundDb(Times(|refreshed|, DB), |refreshed|);
        RefreshesOrderly(refreshed);
      case RouteChange(n) =>
        Joined(WRITE, WRITE);
        TimesOrderly(n, WRITE + WRITE);
      case RetryRoutes(recovered) =>
        RoundsOrderly(recovered);
      case _ =>
    }
    FlatOrderly(Parts(a));
  }

  /** One activity, cut short after `steps` operations. */
  datatype Piece = Piece(activity: Activity, steps: nat)

  /**
   A task of the server: activities one after another, each carried through or cut short. A request looks its
   community up first; the start of the server loads and hosts every community it knows.
   */
  ghost predicate OfServer(trace: seq<Op>, pieces: seq<Piece>)
    decreases |pieces|
  {
    if pieces == [] then trace == []
    else
      var whole := Trace(pieces[0].activity);
      && pieces[0].steps <= |whole|
      && exists rest :: trace == Early(whole, pieces[0].steps) + rest && OfServer(rest, pieces[1..])
  }

  ghost predicate AllOfServer(events: seq<Event>) {
    forall e :: e in events && e.Start? ==> exists pieces :: OfServer(e.trace, pieces)
  }

  lemma {:induction false} OfServerIsOrderly(trace: seq<Op>, pieces: seq<Piece>)
    requires OfServer(trace, pieces)
    ensures Orderly(trace)
    decreases |pieces|
  {
    if pieces == [] {
      Basics();
    } else {
      var p := pieces[0];
      var rest :| trace == Early(Trace(p.activity), p.steps) + rest && OfServer(rest, pieces[1..]);
      hide Orderly, Early, Trace;
      OfServerIsOrderly(rest, pieces[1..]);
      ServerTasksAreOrderly(p.activity);
      EarlyReturnIsOrderly(Trace(p.activity), p.steps);
      Joined(Early(Trace(p.activity), p.steps), rest);
    }
  }

  /**
   The server never deadlocks: whatever its tasks and however they interleave, one of the unfinished can go on, and
   a run that goes on as long as it can finishes them all.
   */
  lemma {:induction false} ServerNeverDeadlocks(events: seq<Event>)
    requires AllOfServer(events) && Exec(events).Some?
    ensures !Stuck(Exec(events).value)
    ensures StepsTaken(events) <= WorkStarted(events)
    ensures !Unfinished(Exec(events).value) <==> StepsTaken(events) == WorkStarted(events)
  {
    hide Orderly, OfServer, Exec;
    forall e | e in events && e.Start? ensures Orderly(e.trace) {
      var pieces :| OfServer(e.trace, pieces);
      OfServerIsOrderly(e.trace, pieces);
    }
    NoDeadlock(events);
    EveryTaskFinishes(events);
  }
}
