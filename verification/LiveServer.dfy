/**
 The server as it runs: the community in memory together with the tables it is written to, request by request and
 restart by restart.

 A restart rebuilds memory from the tables alone. Most of the two is always the same; `InSync` says what. The rest -
 role definitions, overwrites and timeouts - can part, because memory accepts values that the tables refuse or that
 cannot be read back.
 */
module LiveServer {
  import opened Common
  import opened Permissions
  import opened CommunityModel
  import opened Database

  /**
   One atomic step: a request from `sender` at time `now`, with the random channel id and the fresh key it would
   draw; or the server process restarting and hosting the community again, with the creator it is told about.
   */
  datatype Event =
    | Call(sender: Pseudonym, request: Request, now: nat, freshId: ChannelId, freshKey: Key)
    | Rehost(creatorKey: Pseudonym, creatorName: string, now: nat, freshKey: Key)

  datatype Live = Live(memory: Community, tables: Tables)

  /** What a request comes to. The row of a new role is refused when its id is taken by a row memory does not know. */
  ghost function Resolve(l: Live, e: Event): (Effect, Response)
    requires e.Call?
  {
    var (effect, answer) := Decide(l.memory, e.sender, e.request, e.now, e.freshId, e.freshKey);
    if effect.AddRole? && effect.role in l.tables.roles then (Nothing, Error(500)) else (effect, answer)
  }

  ghost function Performed(l: Live, effect: Effect): Live {
    Live(Apply(l.memory, effect), Persist(l.tables, l.memory.generation, effect))
  }

  /** What a restart finds, before a creator is registered. */
  ghost function Reloaded(t: Tables, freshKey: Key, now: nat): Live {
    Live(Hosted(t, freshKey, now), Provisioned(t, freshKey))
  }

  ghost function Registering(l: Live, creatorKey: Pseudonym, name: string, now: nat): Live {
    Live(Register(l.memory, creatorKey, name, now), PersistRegister(l.memory, l.tables, creatorKey, name, now))
  }

  ghost function Step(l: Live, e: Event): (Live, Response) {
    match e
    case Call(_, _, _, _, _) => (Performed(l, Resolve(l, e).0), Resolve(l, e).1)
    case Rehost(creatorKey, name, now, freshKey) =>
      (Registering(Reloaded(l.tables, freshKey, now), creatorKey, name, now), Ok)
  }

  lemma {:induction false} MemoryAfter(l: Live, e: Event)
    requires e.Call?
    ensures Step(l, e).0.memory == Apply(l.memory, Resolve(l, e).0) && Step(l, e).1 == Resolve(l, e).1
  {
    hide Resolve, Apply, Persist;
  }

  /** Only a new role's insert can fail on a row that memory does not know. */
  lemma {:induction false} OnlyRolesAreRefused(l: Live, e: Event)
    requires e.Call? && !e.request.CreateRole?
    ensures Resolve(l, e) == Decide(l.memory, e.sender, e.request, e.now, e.freshId, e.freshKey)
  {
    hide Effective, TopPosition;
  }

  lemma {:induction false} ResolvedIsWarranted(l: Live, e: Event)
    requires e.Call?
    ensures Warranted(l.memory, e.sender, e.request, e.now, Resolve(l, e).0)
    ensures Resolve(l, e).0.AddRole? ==> Resolve(l, e).0.role !in l.tables.roles
  {
    hide Decide, Warranted;
    EffectsAreWarranted(l.memory, e.sender, e.request, e.now, e.freshId, e.freshKey);
    NothingIsWarranted(l.memory, e.sender, e.request, e.now);
  }

  lemma NothingIsWarranted(c: Community, p: Pseudonym, r: Request, now: nat)
    ensures Warranted(c, p, r, now, Nothing)
  {
  }

  // ---------------------------------------------------------------------------
  // Runs
  // ---------------------------------------------------------------------------

  ghost function Run(l: Live, events: seq<Event>): Live
    decreases events
  {
    if events == [] then l else Run(Step(l, events[0]).0, events[1..])
  }

  lemma {:induction false} RunConcat(l: Live, first: seq<Event>, second: seq<Event>)
    ensures Run(l, first + second) == Run(Run(l, first), second)
    decreases first
  {
    hide Step;
    if first == [] {
      assert first + second == second;
    } else {
      assert (first + second)[1..] == first[1..] + second;
      RunConcat(Step(l, first[0]).0, first[1..], second);
    }
  }

  /** The state in which the event at `i` arrives. */
  ghost function Before(l: Live, events: seq<Event>, i: nat): Live
    requires i <= |events|
  {
    Run(l, events[..i])
  }

  lemma {:induction false} BeforeLater(l: Live, events: seq<Event>, i: nat)
    requires 0 < i <= |events|
    ensures Before(l, events, i) == Before(Step(l, events[0]).0, events[1..], i - 1)
  {
    hide Step;
    assert events[..i][1..] == events[1..][..i - 1];
  }

  ghost function Answers(l: Live, events: seq<Event>): seq<Response>
    decreases events
  {
    if events == [] then [] else [Step(l, events[0]).1] + Answers(Step(l, events[0]).0, events[1..])
  }

  /** The events carry a clock that starts at `now` or later and never goes back. */
  predicate InTimeOrder(events: seq<Event>, now: nat) {
    events == [] || (now <= events[0].now && InTimeOrder(events[1..], events[0].now))
  }

  function LastTime(events: seq<Event>, start: nat): nat {
    if events == [] then start else events[|events| - 1].now
  }

  lemma {:induction false} TimesRise(events: seq<Event>, start: nat)
    requires InTimeOrder(events, start) && events != []
    ensures start <= events[0].now <= LastTime(events, start)
    ensures LastTime(events, start) == LastTime(events[1..], events[0].now)
  {
    if |events| > 1 { TimesRise(events[1..], events[0].now); }
  }

  ghost function NewLive(key: Key): Live {
    Live(NewCommunity(key), NewTables(key))
  }

  // ---------------------------------------------------------------------------
  // What memory and tables always share
  // ---------------------------------------------------------------------------

  /** Creator, bans, keys and messages; the current generation is the greatest stored one. */
  ghost predicate SameLedger(c: Community, t: Tables) {
    && c.creator == t.creator && c.bans == t.bans && c.log == t.messages
    && c.keys == t.keys && t.keys != map[] && c.generation == LatestGeneration(t.keys)
  }

  ghost predicate SameMember(c: Community, t: Tables, p: Pseudonym)
    requires p in c.members && p in t.members
  {
    c.members[p].roles == RolesIn(t.memberRoles, p)
    && t.members[p] == MemberRow(c.members[p].name, c.members[p].joinedAt, c.members[p].route)
  }

  ghost predicate SameRoster(c: Community, t: Tables) {
    && c.members.Keys == t.members.Keys
    && (forall p :: p in c.members ==> SameMember(c, t, p))
  }

  /** Every timeout in memory is written down; the tables may hold others that ran out or could not be read. */
  ghost predicate TimeoutsWritten(c: Community, t: Tables) {
    forall p :: p in c.members && c.members[p].timeout.Some? ==>
      p in t.timeouts && t.timeouts[p] == c.members[p].timeout.value
  }

  /** Every defined role has a row, and every row that reads back is a defined role. @everyone always has a row. */
  ghost predicate RolesWritten(roles: map<RoleId, Role>, rows: map<RoleId, Role>) {
    && ROLE_EVERYONE_ID in rows
    && roles.Keys <= rows.Keys
    && (forall r :: r in rows && ReadsBack(rows[r].permissions) ==> r in roles && roles[r] == rows[r])
  }

  /** The same channels, with the same names, kinds and order. */
  ghost predicate SameChannels(channels: map<ChannelId, Channel>, rows: map<ChannelId, ChannelRow>) {
    channels.Keys == rows.Keys && forall id :: id in channels ==> channels[id].row == rows[id]
  }

  ghost predicate InSync(l: Live) {
    && Consistent(l.tables)
    && SameLedger(l.memory, l.tables)
    && SameRoster(l.memory, l.tables)
    && TimeoutsWritten(l.memory, l.tables)
    && RolesWritten(l.memory.roles, l.tables.roles)
    && SameChannels(l.memory.channels, l.tables.channels)
  }

  /** The effects that change a member's record or its rows. */
  predicate TouchesRoster(effect: Effect) {
    effect.Admit? || effect.Adjust? || effect.Depart? || effect.Exile? || effect.DropRole?
  }

  /** What every other effect leaves alone. */
  lemma {:induction false} ElsewhereKeeps(c: Community, t: Tables, effect: Effect)
    requires !TouchesRoster(effect)
    ensures var c', t' := Apply(c, effect), Persist(t, c.generation, effect);
      && c'.members == c.members && c'.creator == c.creator
      && t'.members == t.members && t'.memberRoles == t.memberRoles && t'.timeouts == t.timeouts
      && t'.creator == t.creator
  {
    ElsewhereRows(t, c.generation, effect);
    hide Persist;
  }

  lemma {:induction false} ElsewhereRows(t: Tables, generation: nat, effect: Effect)
    requires !TouchesRoster(effect)
    ensures var t' := Persist(t, generation, effect);
      && t'.members == t.members && t'.memberRoles == t.memberRoles && t'.timeouts == t.timeouts
      && t'.creator == t.creator
  {
    hide PersistAlter, DeleteChannelRow;
    if effect.Alter? {
      AlterTouches(t, effect.channel, effect.change);
    } else if effect.DropChannel? {
      DropTouches(t, effect.channel);
    }
  }

  lemma {:induction false} LedgerEffect(c: Community, t: Tables, effect: Effect)
    requires SameLedger(c, t)
    ensures SameLedger(Apply(c, effect), Persist(t, c.generation, effect))
  {
    if effect.Depart? || effect.Exile? || effect.Rotate? {
      KeyLedger(c, t, effect);
    } else if effect.Admit? || effect.Adjust? || effect.Alter? {
      hide LatestGeneration, Stripped, Altered, Adjusted, PersistAdmit, PersistEdit, PersistAlter, DeleteChannelRow,
        DeleteRoleAssignments;
      match effect {
        case Admit(p, m, founds) => AdmitTouches(t, p, m, founds);
        case Adjust(p, edit) => EditTouches(t, p, edit);
        case Alter(id, change) => AlterTouches(t, id, change);
      }
    } else {
      hide *;
      PlainLedger(c, t, effect);
    }
  }

  lemma {:induction false} PlainLedger(c: Community, t: Tables, effect: Effect)
    requires SameLedger(c, t)
    requires !effect.Depart? && !effect.Exile? && !effect.Rotate? && !effect.Admit? && !effect.Adjust? && !effect.Alter?
    ensures SameLedger(Apply(c, effect), Persist(t, c.generation, effect))
  {
    hide LatestGeneration, Stripped, Altered, Adjusted, PersistAdmit, PersistEdit, PersistAlter, DeleteChannelRow;
    if effect.DropChannel? { DropTouches(t, effect.channel); }
  }

  lemma {:induction false} KeyLedger(c: Community, t: Tables, effect: Effect)
    requires SameLedger(c, t)
    requires effect.Depart? || effect.Exile? || effect.Rotate?
    ensures SameLedger(Apply(c, effect), Persist(t, c.generation, effect))
  {
    hide LatestGeneration, DeleteMember, InsertKey, Departed;
    match effect {
      case Depart(p, key) => DepartLedger(c, t, p, key);
      case Exile(p, ban, _, key) => DepartLedger(c.(bans := c.bans[p := ban]), t.(bans := t.bans[p := ban]), p, key);
      case Rotate(key) => RotateLedger(c, t, key);
    }
  }

  lemma {:induction false} RotateLedger(c: Community, t: Tables, key: Key)
    requires SameLedger(c, t)
    ensures SameLedger(Rotated(c, key), InsertKey(t, c.generation + 1, key))
  {
    hide LatestGeneration;
    InsertKeyStored(t.keys, key);
  }

  lemma {:induction false} DepartLedger(c: Community, t: Tables, p: Pseudonym, key: Key)
    requires SameLedger(c, t)
    ensures SameLedger(Departed(c, p, key), InsertKey(DeleteMember(t, p), c.generation + 1, key))
  {
    hide LatestGeneration;
    InsertKeyStored(t.keys, key);
  }

  // --- members ---

  lemma {:induction false} AdmitRoster(c: Community, t: Tables, p: Pseudonym, m: Member, founds: bool)
    requires Consistent(t) && SameRoster(c, t) && p !in c.members
    ensures SameRoster(Apply(c, Admit(p, m, founds)), PersistAdmit(t, p, m, founds))
  {
    AdmitTables(t, p, m, founds);
    var c', t' := Apply(c, Admit(p, m, founds)), PersistAdmit(t, p, m, founds);
    hide PersistAdmit, RolesIn;
    assert c'.members == c.members[p := m];
    assert c'.members.Keys == t'.members.Keys;
    forall q | q in c'.members ensures SameMember(c', t', q) {
      AdmitRoles(t.memberRoles, p, m.roles, q);
      if q != p { assert SameMember(c, t, q); }
    }
  }

  lemma {:induction false} EditRows(t: Tables, p: Pseudonym, edit: MemberEdit, m: Member, q: Pseudonym)
    requires p in t.members && m.roles == RolesIn(t.memberRoles, p)
    requires t.members[p] == MemberRow(m.name, m.joinedAt, m.route)
    ensures var t', m' := PersistEdit(t, p, edit), Adjusted(m, edit);
      && t'.members == t.members[p := MemberRow(m'.name, m'.joinedAt, m'.route)]
      && RolesIn(t'.memberRoles, q) == if q == p then m'.roles else RolesIn(t.memberRoles, q)
  {
  }

  lemma {:induction false} EditRoster(c: Community, t: Tables, p: Pseudonym, edit: MemberEdit)
    requires SameRoster(c, t)
    requires p !in c.members ==> edit.ClearTimeout?
    ensures SameRoster(Apply(c, Adjust(p, edit)), PersistEdit(t, p, edit))
  {
    if p in c.members {
      var c', t' := Apply(c, Adjust(p, edit)), PersistEdit(t, p, edit);
      assert SameMember(c, t, p);
      EditRows(t, p, edit, c.members[p], p);
      hide PersistEdit, RolesIn, Adjusted;
      assert c'.members == c.members[p := Adjusted(c.members[p], edit)];
      assert c'.members.Keys == t'.members.Keys;
      forall q | q in c'.members ensures SameMember(c', t', q) {
        EditRows(t, p, edit, c.members[p], q);
        assert SameMember(c, t, q);
      }
    }
  }

  lemma {:induction false} DepartRoster(c: Community, t: Tables, p: Pseudonym)
    requires SameRoster(c, t)
    ensures SameRoster(c.(members := c.members - {p}), DeleteMember(t, p))
  {
    var t' := DeleteMember(t, p);
    forall q | q in c.members && q != p ensures SameMember(c.(members := c.members - {p}), t', q) {
      assert SameMember(c, t, q);
      assert RolesIn(t'.memberRoles, q) == RolesIn(t.memberRoles, q);
    }
  }

  lemma {:induction false} StripRoster(c: Community, t: Tables, id: RoleId)
    requires SameRoster(c, t)
    ensures SameRoster(c.(members := Stripped(c.members, id)), DeleteRoleAssignments(t, id))
  {
    var t' := DeleteRoleAssignments(t, id);
    forall q | q in c.members ensures SameMember(c.(members := Stripped(c.members, id)), t', q) {
      assert SameMember(c, t, q);
      assert RolesIn(t'.memberRoles, q) == RolesIn(t.memberRoles, q) - {id};
    }
  }

  /** Only the members and the tables of members and their roles matter. */
  lemma {:induction false} RosterFrame(c: Community, t: Tables, c': Community, t': Tables)
    requires SameRoster(c, t)
    requires c'.members == c.members && t'.members == t.members && t'.memberRoles == t.memberRoles
    ensures SameRoster(c', t')
  {
    forall p | p in c'.members ensures SameMember(c', t', p) { assert SameMember(c, t, p); }
  }

  lemma {:induction false} RosterEffect(c: Community, t: Tables, effect: Effect)
    requires Consistent(t) && SameRoster(c, t)
    requires effect.Admit? ==> effect.who !in c.members
    requires effect.Adjust? && !effect.edit.ClearTimeout? ==> effect.who in c.members
    ensures SameRoster(Apply(c, effect), Persist(t, c.generation, effect))
  {
    var c', t' := Apply(c, effect), Persist(t, c.generation, effect);
    if effect.Admit? {
      AdmitRoster(c, t, effect.who, effect.member, effect.founds);
    } else if effect.Adjust? {
      hide SameRoster, PersistEdit;
      EditRoster(c, t, effect.who, effect.edit);
    } else if effect.Depart? || effect.Exile? {
      hide SameRoster, PersistEdit;
      LeaveRoster(c, t, effect);
    } else if effect.DropRole? {
      hide SameRoster, Stripped, DeleteRoleAssignments;
      RosterFrame(c, t, c, DeleteRoleRow(t, effect.role));
      StripRoster(c, DeleteRoleRow(t, effect.role), effect.role);
      RosterFrame(c.(members := Stripped(c.members, effect.role)), t', c', t');
    } else {
      hide SameRoster, Apply, Persist;
      ElsewhereKeeps(c, t, effect);
      RosterFrame(c, t, c', t');
    }
  }

  predicate Removes(effect: Effect) {
    effect.Depart? || (effect.Exile? && effect.departs)
  }

  /** A departure takes the member and its rows along; a ban without one takes neither. */
  lemma {:induction false} LeaveIs(c: Community, t: Tables, effect: Effect)
    requires effect.Depart? || effect.Exile?
    ensures var c', t' := Apply(c, effect), Persist(t, c.generation, effect);
      var d := DeleteMember(t, effect.who);
      if Removes(effect)
      then c'.members == c.members - {effect.who}
           && t'.members == d.members && t'.memberRoles == d.memberRoles && t'.timeouts == d.timeouts
      else c'.members == c.members
           && t'.members == t.members && t'.memberRoles == t.memberRoles && t'.timeouts == t.timeouts
  {
    hide Stripped, Altered, Adjusted, PersistAdmit, PersistEdit, PersistAlter, DeleteChannelRow, DeleteRoleAssignments,
         DeleteMember;
    if effect.Exile? {
      DeleteFrame(t, t.(bans := t.bans[effect.who := effect.ban]), effect.who);
    }
  }

  lemma DeleteFrame(t: Tables, t1: Tables, p: Pseudonym)
    requires t1.members == t.members && t1.memberRoles == t.memberRoles && t1.timeouts == t.timeouts
    ensures var d, d1 := DeleteMember(t, p), DeleteMember(t1, p);
      d.members == d1.members && d.memberRoles == d1.memberRoles && d.timeouts == d1.timeouts
  {
  }

  lemma {:induction false} LeaveRoster(c: Community, t: Tables, effect: Effect)
    requires SameRoster(c, t) && (effect.Depart? || effect.Exile?)
    ensures SameRoster(Apply(c, effect), Persist(t, c.generation, effect))
  {
    var c', t' := Apply(c, effect), Persist(t, c.generation, effect);
    LeaveIs(c, t, effect);
    hide SameRoster, DeleteMember, Apply, Persist;
    if Removes(effect) {
      DepartRoster(c, t, effect.who);
      RosterFrame(c.(members := c.members - {effect.who}), DeleteMember(t, effect.who), c', t');
    } else {
      RosterFrame(c, t, c', t');
    }
  }

  // --- timeouts, roles, foreign keys ---

  lemma {:induction false} EditTimeouts(c: Community, t: Tables, p: Pseudonym, edit: MemberEdit)
    requires c.members.Keys == t.members.Keys && TimeoutsWritten(c, t)
    ensures TimeoutsWritten(Apply(c, Adjust(p, edit)), PersistEdit(t, p, edit))
  {
  }

  lemma {:induction false} LeaveTimeouts(c: Community, t: Tables, p: Pseudonym)
    requires TimeoutsWritten(c, t)
    ensures TimeoutsWritten(c.(members := c.members - {p}), DeleteMember(t, p))
  {
  }

  lemma {:induction false} TimeoutsFrame(c: Community, t: Tables, c': Community, t': Tables)
    requires TimeoutsWritten(c, t) && c'.members == c.members && t'.timeouts == t.timeouts
    ensures TimeoutsWritten(c', t')
  {
  }

  lemma {:induction false} LeaveTimeoutsEffect(c: Community, t: Tables, effect: Effect)
    requires TimeoutsWritten(c, t) && (effect.Depart? || effect.Exile?)
    ensures TimeoutsWritten(Apply(c, effect), Persist(t, c.generation, effect))
  {
    var c', t' := Apply(c, effect), Persist(t, c.generation, effect);
    LeaveIs(c, t, effect);
    hide TimeoutsWritten, DeleteMember, Apply, Persist;
    if Removes(effect) {
      LeaveTimeouts(c, t, effect.who);
      TimeoutsFrame(c.(members := c.members - {effect.who}), DeleteMember(t, effect.who), c', t');
    } else {
      TimeoutsFrame(c, t, c', t');
    }
  }

  lemma {:induction false} TimeoutsEffect(c: Community, t: Tables, effect: Effect)
    requires c.members.Keys == t.members.Keys && TimeoutsWritten(c, t)
    requires effect.Admit? ==> effect.member.timeout.None?
    ensures TimeoutsWritten(Apply(c, effect), Persist(t, c.generation, effect))
  {
    var c', t' := Apply(c, effect), Persist(t, c.generation, effect);
    if effect.Admit? {
      hide PersistAdmit;
      AdmitTouches(t, effect.who, effect.member, effect.founds);
    } else if effect.Adjust? {
      hide TimeoutsWritten, PersistEdit, Adjusted;
      EditTimeouts(c, t, effect.who, effect.edit);
    } else if effect.Depart? || effect.Exile? {
      hide *;
      LeaveTimeoutsEffect(c, t, effect);
    } else if effect.DropRole? {
      hide PersistAdmit, PersistEdit, PersistAlter;
    } else {
      hide TimeoutsWritten, Apply, Persist;
      ElsewhereKeeps(c, t, effect);
      TimeoutsFrame(c, t, c', t');
    }
  }

  lemma {:induction false} RoleRows(c: Community, t: Tables, effect: Effect)
    ensures var t' := Persist(t, c.generation, effect);
      t'.roles ==
        match effect
        case AddRole(id, role) => InsertRole(t, id, role).roles
        case ChangeRole(id, role) => UpdateRole(t, id, role).roles
        case DropRole(id) => t.roles - {id}
        case _ => t.roles
  {
    hide PersistAdmit, PersistEdit, PersistAlter, DeleteChannelRow, DeleteMember;
    match effect {
      case Admit(p, m, founds) => AdmitTouches(t, p, m, founds);
      case Adjust(p, edit) => EditTouches(t, p, edit);
      case Alter(id, change) => AlterTouches(t, id, change);
      case DropChannel(id) => DropTouches(t, id);
      case Depart(p, _) => DeleteMemberTouches(t, p);
      case Exile(p, ban, _, _) => DeleteMemberTouches(t.(bans := t.bans[p := ban]), p);
      case _ =>
    }
  }

  lemma {:induction false} RolesAfter(c: Community, effect: Effect)
    ensures Apply(c, effect).roles ==
            match effect
            case AddRole(id, role) => c.roles[id := role]
            case ChangeRole(id, role) => c.roles[id := role]
            case DropRole(id) => c.roles - {id}
            case _ => c.roles
  {
    hide Stripped, Altered, Adjusted;
  }

  lemma {:induction false} RolesEffect(c: Community, t: Tables, effect: Effect)
    requires RolesWritten(c.roles, t.roles)
    requires effect.AddRole? ==> effect.role !in t.roles
    requires effect.ChangeRole? ==> effect.role in c.roles
    requires effect.DropRole? ==> effect.role != ROLE_EVERYONE_ID
    ensures RolesWritten(Apply(c, effect).roles, Persist(t, c.generation, effect).roles)
  {
    RoleRows(c, t, effect);
    RolesAfter(c, effect);
    hide Apply, Persist;
  }

  lemma {:induction false} ChannelRows(c: Community, t: Tables, effect: Effect)
    ensures Persist(t, c.generation, effect).channels ==
            match effect
            case AddChannel(id, row) => InsertChannel(t, id, row).channels
            case Alter(id, Retitle(name)) => UpdateChannelName(t, id, name).channels
            case DropChannel(id) => t.channels - {id}
            case _ => t.channels
  {
    hide PersistAdmit, PersistEdit, DeleteMember;
    match effect {
      case Admit(p, m, founds) => AdmitTouches(t, p, m, founds);
      case Adjust(p, edit) => EditTouches(t, p, edit);
      case Depart(p, _) => DeleteMemberTouches(t, p);
      case Exile(p, ban, _, _) => DeleteMemberTouches(t.(bans := t.bans[p := ban]), p);
      case _ =>
    }
  }

  lemma {:induction false} ChannelsAfter(c: Community, effect: Effect)
    ensures Apply(c, effect).channels ==
            match effect
            case AddChannel(id, row) => c.channels[id := Channel(row, map[])]
            case Alter(id, change) =>
              if id in c.channels then c.channels[id := Altered(c.channels[id], change)] else c.channels
            case DropChannel(id) => c.channels - {id}
            case _ => c.channels
  {
    hide Stripped, Altered, Adjusted;
  }

  lemma {:induction false} ChannelsEffect(c: Community, t: Tables, effect: Effect)
    requires SameChannels(c.channels, t.channels)
    requires effect.AddChannel? ==>
               effect.channel !in c.channels && (effect.row.kind == "text" || effect.row.kind == "voice")
    ensures SameChannels(Apply(c, effect).channels, Persist(t, c.generation, effect).channels)
  {
    ChannelRows(c, t, effect);
    ChannelsAfter(c, effect);
    hide Apply, Persist;
  }

  lemma {:induction false} AdmitConsistent(t: Tables, p: Pseudonym, m: Member, founds: bool)
    requires Consistent(t)
    ensures Consistent(PersistAdmit(t, p, m, founds))
  {
    var t1 := InsertMemberAndRoles(t, p, m.name, m.joinedAt, m.roles);
    var t2 := if founds then UpdateCreator(t1, p) else t1;
    RowsConsistent(t, p, m.name, m.joinedAt, m.roles);
    assert Consistent(t2) by { hide InsertMemberAndRoles; }
    hide Consistent, InsertMemberAndRoles, UpdateRoute, UpdateCreator;
    if m.route.Some? { RouteConsistent(t2, p, m.route.value); }
  }

  lemma {:induction false} RowsConsistent(t: Tables, p: Pseudonym, name: string, joinedAt: nat, roles: set<RoleId>)
    requires Consistent(t)
    ensures Consistent(InsertMemberAndRoles(t, p, name, joinedAt, roles))
  {
  }

  lemma {:induction false} RouteConsistent(t: Tables, p: Pseudonym, route: Bytes)
    requires Consistent(t)
    ensures Consistent(UpdateRoute(t, p, route))
  {
  }

  lemma {:induction false} EditConsistent(t: Tables, p: Pseudonym, edit: MemberEdit)
    requires Consistent(t)
    ensures Consistent(PersistEdit(t, p, edit))
  {
  }

  lemma {:induction false} AlterConsistent(t: Tables, id: ChannelId, change: ChannelEdit)
    requires Consistent(t)
    ensures Consistent(PersistAlter(t, id, change))
  {
  }

  lemma {:induction false} DeleteConsistent(t: Tables, p: Pseudonym)
    requires Consistent(t)
    ensures Consistent(DeleteMember(t, p))
  {
  }

  /** Every statement keeps the foreign keys and the CHECKs. */
  lemma {:induction false} ConsistentEffect(t: Tables, generation: nat, effect: Effect)
    requires Consistent(t)
    ensures Consistent(Persist(t, generation, effect))
  {
    hide PersistAdmit, PersistEdit, PersistAlter, DeleteMember;
    if effect.Admit? {
      hide Consistent;
      AdmitConsistent(t, effect.who, effect.member, effect.founds);
    } else if effect.Adjust? {
      hide Consistent;
      EditConsistent(t, effect.who, effect.edit);
    } else if effect.Alter? {
      hide Consistent;
      AlterConsistent(t, effect.channel, effect.change);
    } else if effect.Depart? || effect.Exile? {
      LeaveConsistent(t, generation, effect);
    } else {
      OtherConsistent(t, generation, effect);
    }
  }

  lemma {:induction false} LeaveConsistent(t: Tables, generation: nat, effect: Effect)
    requires Consistent(t) && (effect.Depart? || effect.Exile?)
    ensures Consistent(Persist(t, generation, effect))
  {
    hide DeleteMember;
    DeleteConsistent(if effect.Exile? then t.(bans := t.bans[effect.who := effect.ban]) else t, effect.who);
  }

  lemma {:induction false} OtherConsistent(t: Tables, generation: nat, effect: Effect)
    requires Consistent(t)
    requires !effect.Admit? && !effect.Adjust? && !effect.Alter? && !effect.Depart? && !effect.Exile?
    ensures Consistent(Persist(t, generation, effect))
  {
  }

  // --- steps ---

  lemma {:induction false} InSyncEffect(l: Live, effect: Effect)
    requires InSync(l)
    requires effect.Admit? ==> effect.who !in l.memory.members && effect.member.timeout.None?
    requires effect.Adjust? && !effect.edit.ClearTimeout? ==> effect.who in l.memory.members
    requires effect.AddRole? ==> effect.role !in l.tables.roles
    requires effect.ChangeRole? ==> effect.role in l.memory.roles
    requires effect.DropRole? ==> effect.role != ROLE_EVERYONE_ID
    requires effect.AddChannel? ==>
               effect.channel !in l.memory.channels && (effect.row.kind == "text" || effect.row.kind == "voice")
    ensures InSync(Performed(l, effect))
  {
    var c, t := l.memory, l.tables;
    hide Consistent, SameLedger, TimeoutsWritten, RolesWritten, SameChannels, SameMember, Apply, Persist;
    ConsistentEffect(t, c.generation, effect);
    LedgerEffect(c, t, effect);
    RosterEffect(c, t, effect);
    TimeoutsEffect(c, t, effect);
    RolesEffect(c, t, effect);
    ChannelsEffect(c, t, effect);
  }

  lemma {:induction false} WarrantedKeepsSync(l: Live, e: Event, effect: Effect)
    requires InSync(l) && e.Call? && Warranted(l.memory, e.sender, e.request, e.now, effect)
    requires effect.AddRole? ==> effect.role !in l.tables.roles
    ensures InSync(Performed(l, effect))
  {
    WarrantedFits(l.memory, e.sender, e.request, e.now, effect);
    hide Warranted, Performed, InSync;
    InSyncEffect(l, effect);
  }

  lemma {:induction false} WarrantedFits(c: Community, p: Pseudonym, r: Request, now: nat, effect: Effect)
    requires Warranted(c, p, r, now, effect)
    ensures effect.Admit? ==> effect.who !in c.members && effect.member.timeout.None?
    ensures effect.Adjust? && !effect.edit.ClearTimeout? ==> effect.who in c.members
    ensures effect.ChangeRole? ==> effect.role in c.roles
    ensures effect.DropRole? ==> effect.role != ROLE_EVERYONE_ID
    ensures effect.AddChannel? ==>
              effect.channel !in c.channels && (effect.row.kind == "text" || effect.row.kind == "voice")
  {
    hide Cleared, Outranks, MaySend, Rank, PositionOf, NextRoleId;
  }

  /** The roles memory has after a restart: those that read back, or the default ones when none does. */
  function RolesReloaded(rows: map<RoleId, Role>): map<RoleId, Role> {
    if ReadRoles(rows) == map[] then DefaultRoles() else ReadRoles(rows)
  }

  /** What memory holds after a restart, before a creator is registered: the tables' share that can be read back. */
  lemma {:induction false} ReloadIs(l: Live, freshKey: Key, now: nat)
    requires InSync(l)
    ensures var c, h := l.memory, Hosted(l.tables, freshKey, now);
      && h.creator == c.creator && h.bans == c.bans && h.log == c.log && h.keys == c.keys
      && h.generation == c.generation && h.members.Keys == c.members.Keys
      && (forall p :: p in c.members ==>
            h.members[p] == c.members[p].(timeout := TimeoutIn(l.tables.timeouts, p, now)))
      && h.roles == RolesReloaded(l.tables.roles)
      && h.channels == ReadChannels(l.tables.channels, l.tables.overwrites)
    ensures Provisioned(l.tables, freshKey) ==
            if ReadRoles(l.tables.roles) == map[] then l.tables.(roles := DefaultRoles() + l.tables.roles) else l.tables
  {
    hide ReadRoles, ReadChannels, LatestGeneration, RolesIn, DefaultRoles;
    var c, h := l.memory, Hosted(l.tables, freshKey, now);
    forall p | p in c.members
      ensures h.members[p] == c.members[p].(timeout := TimeoutIn(l.tables.timeouts, p, now))
    {
      assert SameMember(c, l.tables, p);
    }
  }

  lemma RehostMemory(l: Live, e: Event)
    requires e.Rehost?
    ensures Step(l, e).0.memory ==
            Register(Hosted(l.tables, e.freshKey, e.now), e.creatorKey, e.creatorName, e.now)
  {
    hide Hosted, Provisioned, Register, PersistRegister;
  }

  /** What memory holds after a restart, roster and roles. */
  lemma {:induction false} RestartIs(l: Live, e: Event)
    requires InSync(l) && e.Rehost?
    ensures var c, c' := l.memory, Step(l, e).0.memory;
      && c'.roles == RolesReloaded(l.tables.roles)
      && c'.members.Keys == (if Registers(c, e.creatorKey) then c.members.Keys + {e.creatorKey} else c.members.Keys)
      && (forall p :: p in c.members ==> c'.members[p].roles == c.members[p].roles)
      && (Registers(c, e.creatorKey) ==> c'.members[e.creatorKey].roles == OWNER_ROLES)
  {
    ReloadIs(l, e.freshKey, e.now);
    RehostMemory(l, e);
    hide Step, Hosted, Provisioned, InSync, RolesReloaded, ReadChannels, TimeoutIn;
  }

  /**
   All that memory holds after a restart, told from the memory before and the tables: creator, bans, keys and messages;
   every member with the timeout that is stored, still running and below 2^63; the readable roles, if there are any;
   the channels with their readable overwrites; and the creator named, as a member with roles 0 to 4, if none was.
   */
  lemma {:induction false} RestartFinds(l: Live, e: Event)
    requires InSync(l) && e.Rehost?
    ensures var c, t, c', key := l.memory, l.tables, Step(l, e).0.memory, e.creatorKey;
      var registers := key != "" && c.creator == "" && key !in c.members;
      && c'.creator == (if registers then key else c.creator)
      && c'.bans == c.bans && c'.log == c.log && c'.keys == c.keys && c'.generation == c.generation
      && c'.members.Keys == (if registers then c.members.Keys + {key} else c.members.Keys)
      && (registers ==> c'.members[key] == Member(e.creatorName, e.now, None, {0, 1, 2, 3, 4}, None))
      && (forall p :: p in c.members ==>
            c'.members[p] ==
              c.members[p].(timeout := if p in t.timeouts && e.now < t.timeouts[p] < 0x8000_0000_0000_0000
                                       then Some(t.timeouts[p]) else None))
  {
    hide Step, InSync, Hosted, Provisioned, RolesReloaded, ReadChannels;
    ReloadIs(l, e.freshKey, e.now);
    RehostMemory(l, e);
  }

  lemma {:induction false} RestartFindsRoles(l: Live, e: Event)
    requires InSync(l) && e.Rehost?
    ensures var rows, roles := l.tables.roles, Step(l, e).0.memory.roles;
      if exists r :: r in rows && 63 !in rows[r].permissions then
        && (forall r :: r in roles <==> r in rows && 63 !in rows[r].permissions)
        && (forall r :: r in roles ==> roles[r] == rows[r])
      else roles == DefaultRoles()
  {
    var rows := l.tables.roles;
    RestartIs(l, e);
    hide Step, InSync, DefaultRoles;
    if r :| r in rows && 63 !in rows[r].permissions { assert r in ReadRoles(rows); }
  }

  lemma {:induction false} RestartFindsChannels(l: Live, e: Event)
    requires InSync(l) && e.Rehost?
    ensures var rows, c, c' := l.tables.overwrites, l.memory, Step(l, e).0.memory;
      && c'.channels.Keys == c.channels.Keys
      && (forall id :: id in c.channels ==> c'.channels[id].row == c.channels[id].row)
      && (forall id, t: Target :: id in c.channels ==>
            var k := OverwriteKey(id, if t.kind == MemberTarget then "member" else "role", t.id);
            && (t in c'.channels[id].overwrites <==> k in rows && 63 !in rows[k].allow && 63 !in rows[k].deny)
            && (t in c'.channels[id].overwrites ==> c'.channels[id].overwrites[t] == rows[k]))
  {
    ReloadIs(l, e.freshKey, e.now);
    RehostMemory(l, e);
    ReadSameChannels(l.tables.channels, l.tables.overwrites);
    RegisteredElsewhere(Hosted(l.tables, e.freshKey, e.now), e.creatorKey, e.creatorName, e.now);
    hide Step, Hosted, Provisioned, Register, Consistent, SameLedger, SameRoster, TimeoutsWritten, RolesWritten;
  }

  lemma RegisteredElsewhere(c: Community, creatorKey: Pseudonym, name: string, now: nat)
    ensures Register(c, creatorKey, name, now).channels == c.channels
    ensures Register(c, creatorKey, name, now).roles == c.roles
  {
  }

  lemma {:induction false} ReloadRoles(rows: map<RoleId, Role>)
    requires ROLE_EVERYONE_ID in rows
    ensures if ReadRoles(rows) == map[] then RolesWritten(DefaultRoles(), DefaultRoles() + rows)
            else RolesWritten(ReadRoles(rows), rows)
  {
    if ReadRoles(rows) == map[] {
      forall r | r in rows ensures !ReadsBack(rows[r].permissions) {
        assert r !in ReadRoles(rows);
      }
    }
  }

  lemma ReadSameChannels(rows: map<ChannelId, ChannelRow>, overwrites: map<OverwriteKey, Overwrite>)
    ensures SameChannels(ReadChannels(rows, overwrites), rows)
  {
  }

  lemma {:induction false} ReloadInSync(l: Live, freshKey: Key, now: nat)
    requires InSync(l)
    ensures InSync(Reloaded(l.tables, freshKey, now))
  {
    ReloadIs(l, freshKey, now);
    ReloadRoles(l.tables.roles);
    var r := Reloaded(l.tables, freshKey, now);
    ReadSameChannels(l.tables.channels, l.tables.overwrites);
    hide Hosted, Provisioned, RolesWritten, ReadRoles, RolesIn, LatestGeneration, DefaultRoles, ReadChannels,
         SameChannels;
    assert Consistent(r.tables) && SameLedger(r.memory, r.tables);
    ReloadRoster(l, r.memory, r.tables, now);
  }

  lemma {:induction false} ReloadRoster(l: Live, c: Community, t: Tables, now: nat)
    requires SameRoster(l.memory, l.tables)
    requires t.members == l.tables.members && t.memberRoles == l.tables.memberRoles && t.timeouts == l.tables.timeouts
    requires c.members.Keys == l.memory.members.Keys
    requires forall p :: p in c.members ==>
               c.members[p] == l.memory.members[p].(timeout := TimeoutIn(l.tables.timeouts, p, now))
    ensures SameRoster(c, t) && TimeoutsWritten(c, t)
  {
    forall p | p in c.members ensures SameMember(c, t, p) { assert SameMember(l.memory, l.tables, p); }
  }

  /** The effect that registering a creator amounts to. */
  function RegisterEffect(c: Community, creatorKey: Pseudonym, name: string, now: nat): Effect {
    if Registers(c, creatorKey) then Admit(creatorKey, Member(name, now, None, OWNER_ROLES, None), true) else Nothing
  }

  lemma {:induction false} RegisterIs(l: Live, creatorKey: Pseudonym, name: string, now: nat)
    ensures Registering(l, creatorKey, name, now) == Performed(l, RegisterEffect(l.memory, creatorKey, name, now))
  {
    hide PersistAdmit;
  }

  lemma {:induction false} StepKeepsSync(l: Live, e: Event)
    requires InSync(l)
    ensures InSync(Step(l, e).0)
  {
    hide InSync, Performed, Reloaded, Registering, Resolve;
    if e.Call? {
      ResolvedIsWarranted(l, e);
      WarrantedKeepsSync(l, e, Resolve(l, e).0);
    } else {
      ReloadInSync(l, e.freshKey, e.now);
      var r := Reloaded(l.tables, e.freshKey, e.now);
      RegisterIs(r, e.creatorKey, e.creatorName, e.now);
      InSyncEffect(r, RegisterEffect(r.memory, e.creatorKey, e.creatorName, e.now));
    }
  }

  /** Foreign keys and CHECKs hold after any event, in sync or not. */
  lemma {:induction false} StepKeepsConsistent(l: Live, e: Event)
    requires Consistent(l.tables)
    ensures Consistent(Step(l, e).0.tables)
  {
    if e.Call? {
      hide Consistent, Resolve, Apply, Persist;
      ConsistentEffect(l.tables, l.memory.generation, Resolve(l, e).0);
    } else {
      hide Consistent, Hosted, Provisioned, Register, PersistAdmit;
      ProvisionedConsistent(l.tables, e.freshKey);
      AdmitConsistent(Provisioned(l.tables, e.freshKey), e.creatorKey,
                      Member(e.creatorName, e.now, None, OWNER_ROLES, None), true);
    }
  }

  lemma ProvisionedConsistent(t: Tables, freshKey: Key)
    requires Consistent(t)
    ensures Consistent(Provisioned(t, freshKey))
  {
    hide ReadRoles, DefaultRoles;
  }

  lemma {:induction false} RunKeepsSync(l: Live, events: seq<Event>)
    requires InSync(l)
    ensures InSync(Run(l, events))
    decreases events
  {
    hide InSync, Step;
    if events != [] {
      StepKeepsSync(l, events[0]);
      RunKeepsSync(Step(l, events[0]).0, events[1..]);
    }
  }

  lemma {:induction false} NewInSync(key: Key)
    ensures InSync(NewLive(key))
  {
    assert 1 in map[1 := key];
  }

  /**
   In every reachable state memory and tables share creator, bans, keys, messages, the roster with its roles, and the
   channels but for their overwrites; timeouts and roles in memory are written down, and roles that can be read back
   are in memory.
   */
  lemma {:induction false} EveryReachableServerIsInSync(key: Key, events: seq<Event>)
    ensures InSync(Run(NewLive(key), events))
  {
    NewInSync(key);
    RunKeepsSync(NewLive(key), events);
  }

  /** A member's leaving, as memory sees it. */
  lemma {:induction false} LeaveStep(l: Live, e: Event)
    requires e.Call? && e.request.Leave? && IsMember(l.memory, e.sender)
    ensures Step(l, e).0.memory == Departed(l.memory, e.sender, e.freshKey)
  {
    hide Persist, Departed;
  }
}
