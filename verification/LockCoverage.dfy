/**
 What the lock traces have to do with what the requests change: whoever changes the communities in memory holds
 `hosted` for writing at some point, and whoever changes the tables holds `db`.
 */
module LockCoverage {
  import opened CommunityModel
  import opened LiveServer
  import LockOrder

  /** The task that carries a request with this effect. */
  function ActivityOf(r: Request, effect: Effect): LockOrder.Activity {
    var changes := !effect.Nothing?;
    match r
    case Join(_, route) =>
      if effect.Admit? then LockOrder.FirstJoin(effect.founds, route.Some?) else LockOrder.Rejoin(route.Some?)
    case SendMessage(_, _, _) => LockOrder.SendMessage
    case GetMessages(_, _, _) => LockOrder.GetMessages
    case RequestMek => LockOrder.ReadOnly
    case GetRoles => LockOrder.ReadOnly
    case Leave => LockOrder.Leave(changes)
    case Kick(_) => LockOrder.Kick(changes)
    case Ban_(_) => LockOrder.Ban(effect.Exile? && effect.departs)
    case Unban(_) => LockOrder.ReadThenDb
    case GetBanList => LockOrder.ReadThenDb
    case RotateMek => LockOrder.Rotate
    case CreateChannel(_, _) => LockOrder.ChangeChannels
    case DeleteChannel(_) => LockOrder.ChangeChannels
    case RenameChannel(_, _) => LockOrder.ChangeChannels
    case CreateRole(_, _, _, _, _) => LockOrder.ChangeRoles
    case EditRole(_, _) => LockOrder.ChangeRoles
    case DeleteRole(_) => LockOrder.ChangeRoles
    case AssignRole(_, _) => LockOrder.ChangeMemberRoles(changes)
    case UnassignRole(_, _) => LockOrder.ChangeMemberRoles(changes)
    case SetOverwrite(_, _, _, _) => LockOrder.ChangeOverwrite
    case DeleteOverwrite(_, _, _) => LockOrder.ChangeOverwrite
    case TimeoutMember(_, _) => LockOrder.ChangeOverwrite
    case RemoveTimeout(_) => LockOrder.ChangeOverwrite
  }

  /** Bans and messages are kept in the tables only; the rest of a community is in memory too. */
  ghost predicate SameInMemory(c: Community, c': Community) {
    && c'.creator == c.creator && c'.members == c.members && c'.roles == c.roles && c'.channels == c.channels
    && c'.generation == c.generation
  }

  lemma {:induction false} InFlat(parts: seq<seq<LockOrder.Op>>, i: nat, op: LockOrder.Op)
    requires i < |parts| && op in parts[i]
    ensures op in LockOrder.Flat(parts)
  {
    if i > 0 { InFlat(parts[1..], i - 1, op); }
  }

  /** The request takes `op` at some point. */
  ghost predicate Takes(a: LockOrder.Activity, op: LockOrder.Op) {
    op in LockOrder.Trace(a)
  }

  /** The section of the task in which it writes, or in which it uses the database. */
  function WritingPart(a: LockOrder.Activity): nat {
    match a
    case Rejoin(_) => 2
    case FirstJoin(_, _) => 5
    case Leave(_) => 2
    case Kick(_) => 3
    case Ban(_) => 4
    case _ => 0
  }

  function DatabasePart(a: LockOrder.Activity): nat {
    match a
    case Rejoin(_) => 1
    case FirstJoin(_, _) => 4
    case SendMessage => 1
    case GetMessages => 1
    case Leave(_) => 1
    case Kick(_) => 2
    case Ban(_) => 1
    case _ => 0
  }

  lemma {:induction false} TakesWrite(a: LockOrder.Activity)
    requires a.Rejoin? || a.FirstJoin? || a.Leave? || a.Kick? || a.Ban? || a.Rotate? || a.ChangeChannels?
          || a.ChangeRoles? || a.ChangeMemberRoles? || a.ChangeOverwrite?
    ensures Takes(a, LockOrder.TakeWrite)
  {
    hide LockOrder.Flat;
    assert LockOrder.TakeWrite in LockOrder.Parts(a)[WritingPart(a)];
    InFlat(LockOrder.Parts(a), WritingPart(a), LockOrder.TakeWrite);
  }

  lemma {:induction false} TakesDb(a: LockOrder.Activity)
    requires a.Rejoin? || a.FirstJoin? || a.SendMessage? || a.GetMessages? || a.Leave? || a.Kick? || a.Ban? || a.Rotate?
          || a.ReadThenDb? || a.ChangeChannels? || a.ChangeRoles? || a.ChangeOverwrite?
          || (a.ChangeMemberRoles? && a.changes)
    ensures Takes(a, LockOrder.TakeDb)
  {
    hide LockOrder.Flat;
    assert LockOrder.TakeDb in LockOrder.Parts(a)[DatabasePart(a)];
    InFlat(LockOrder.Parts(a), DatabasePart(a), LockOrder.TakeDb);
  }

  /** The requests whose tasks never write `hosted` touch bans and messages at most. */
  predicate OnlyReads(r: Request) {
    r.SendMessage? || r.GetMessages? || r.RequestMek? || r.GetRoles? || r.Unban? || r.GetBanList?
  }

  lemma {:induction false} ReadersEffect(l: Live, e: Event)
    requires e.Call? && OnlyReads(e.request)
    ensures var effect := Resolve(l, e).0;
      || effect.Nothing?
      || (effect.Post? && e.request.SendMessage?)
      || (effect.Pardon? && e.request.Unban?)
  {
    hide MayDo, Cleared, Outranks, Rank, MaySend;
  }

  lemma {:induction false} ReadersChangeLittle(l: Live, e: Event)
    requires e.Call? && OnlyReads(e.request)
    ensures SameInMemory(l.memory, Step(l, e).0.memory)
    ensures Step(l, e).0.tables == l.tables || e.request.SendMessage? || e.request.Unban?
  {
    hide Resolve;
    ReadersEffect(l, e);
  }

  lemma {:induction false} NothingChanges(l: Live, e: Event)
    requires e.Call? && Resolve(l, e).0.Nothing?
    ensures Step(l, e).0 == l
  {
    hide Resolve;
  }

  /** Whatever a request changes in memory it changes as a writer, and whatever it changes in the tables, with `db`. */
  lemma {:induction false} ChangesAreLocked(l: Live, e: Event)
    requires e.Call?
    ensures var a, l' := ActivityOf(e.request, Resolve(l, e).0), Step(l, e).0;
      && (SameInMemory(l.memory, l'.memory) || Takes(a, LockOrder.TakeWrite))
      && (l'.tables == l.tables || Takes(a, LockOrder.TakeDb))
  {
    hide Resolve, Step, SameInMemory, Takes;
    var effect := Resolve(l, e).0;
    var a := ActivityOf(e.request, effect);
    if OnlyReads(e.request) {
      ReadersChangeLittle(l, e);
    } else {
      TakesWrite(a);
    }
    if effect.Nothing? {
      NothingChanges(l, e);
    } else if !a.ReadOnly? {
      TakesDb(a);
    }
  }
}
