/**
 What every reachable server satisfies, restarts included: its roster, roles, bans, keys and message log fit together.
 Each part is kept for itself, with the one event that can break it where there is one.
 */
module RosterIntegrity {
  import opened Common
  import opened Permissions
  import opened CommunityModel
  import opened Database
  import opened LiveServer
  import opened KeyFreshness

  // ---------------------------------------------------------------------------
  // Keys and messages
  // ---------------------------------------------------------------------------

  ghost predicate LogFits(c: Community) {
    // the current generation is the greatest stored one
    && c.generation in c.keys
    && (forall g :: g in c.keys ==> g <= c.generation)
    // messages carry non-decreasing generations, none from the future
    && (forall i, j :: 0 <= i < j < |c.log| ==> c.log[i].generation <= c.log[j].generation)
    && (forall i :: 0 <= i < |c.log| ==> c.log[i].generation <= c.generation)
  }

  lemma {:induction false} LogStep(l: Live, e: Event)
    requires InSync(l) && LogFits(l.memory)
    ensures LogFits(Step(l, e).0.memory)
  {
    hide *;
    StepKeepsSync(l, e);
    MessageStep(l, e);
    KeysFit(Step(l, e).0);
    LogGrows(l.memory, Step(l, e).0.memory);
  }

  lemma {:induction false} LogGrows(c: Community, c': Community)
    requires LogFits(c) && LogExtends(c, c')
    requires c'.generation in c'.keys && forall g :: g in c'.keys ==> g <= c'.generation
    ensures LogFits(c')
  {
  }

  lemma {:induction false} KeysFit(l: Live)
    requires InSync(l)
    ensures l.memory.generation in l.memory.keys
    ensures forall g :: g in l.memory.keys ==> g <= l.memory.generation
  {
  }

  lemma {:induction false} LogRun(l: Live, events: seq<Event>)
    requires InSync(l) && LogFits(l.memory)
    ensures LogFits(Run(l, events).memory)
    decreases events
  {
    hide Step, InSync, LogFits;
    if events != [] {
      LogStep(l, events[0]);
      StepKeepsSync(l, events[0]);
      LogRun(Step(l, events[0]).0, events[1..]);
    }
  }

  /** In every reachable state keys and messages fit, and the next rotation's generation has no row yet. */
  lemma {:induction false} EveryReachableLogFits(key: Key, events: seq<Event>)
    ensures var c := Run(NewLive(key), events).memory; LogFits(c) && c.generation + 1 !in c.keys
  {
    assert LogFits(NewLive(key).memory);
    NewInSync(key);
    hide NewLive, InSync, Run;
    LogRun(NewLive(key), events);
  }

  // ---------------------------------------------------------------------------
  // Roles
  // ---------------------------------------------------------------------------

  ghost predicate HoldEveryone(c: Community) {
    forall p :: p in c.members ==> ROLE_EVERYONE_ID in c.members[p].roles
  }

  /** A held role has a row, unless it is one of the default roles 1 to 4, which are given without a look. */
  ghost predicate RolesHaveRows(l: Live) {
    forall p, r :: p in l.memory.members && r in l.memory.members[p].roles ==> r in l.tables.roles || 1 <= r <= 4
  }

  ghost predicate RolesFit(l: Live) {
    HoldEveryone(l.memory) && RolesHaveRows(l)
  }

  lemma {:induction false} RolesFitEffect(l: Live, effect: Effect)
    requires InSync(l) && RolesFit(l)
    requires effect.Admit? ==> ROLE_EVERYONE_ID in effect.member.roles && effect.member.roles <= OWNER_ROLES
    requires effect.Adjust? && effect.edit.Grant? ==> effect.edit.role in l.memory.roles
    requires effect.Adjust? && effect.edit.Revoke? ==> effect.edit.role != ROLE_EVERYONE_ID
    requires effect.DropRole? ==> effect.role != ROLE_EVERYONE_ID
    ensures RolesFit(Performed(l, effect))
  {
    var c, c', t' := l.memory, Apply(l.memory, effect), Persist(l.tables, l.memory.generation, effect);
    RoleRows(c, l.tables, effect);
    hide Apply, Persist, Consistent, SameLedger, SameRoster, TimeoutsWritten, SameChannels;
    forall p | p in c'.members
      ensures ROLE_EVERYONE_ID in c'.members[p].roles
      ensures forall r :: r in c'.members[p].roles ==> r in t'.roles || 1 <= r <= 4
    {
      HeldIs(c, effect, p);
    }
  }

  lemma {:induction false} RolesFitStep(l: Live, e: Event)
    requires InSync(l) && RolesFit(l)
    ensures RolesFit(Step(l, e).0)
  {
    if e.Call? {
      ResolvedIsWarranted(l, e);
      WarrantedRolesFit(l.memory, e.sender, e.request, e.now, Resolve(l, e).0);
      hide Resolve, Performed, InSync, RolesFit;
      RolesFitEffect(l, Resolve(l, e).0);
    } else {
      var r := Reloaded(l.tables, e.freshKey, e.now);
      ReloadIs(l, e.freshKey, e.now);
      ReloadInSync(l, e.freshKey, e.now);
      ReloadRolesFit(l, r, e.freshKey, e.now);
      RegisterIs(r, e.creatorKey, e.creatorName, e.now);
      hide Reloaded, Registering, Performed, InSync, RolesFit;
      RolesFitEffect(r, RegisterEffect(r.memory, e.creatorKey, e.creatorName, e.now));
    }
  }

  lemma {:induction false} ReloadRolesFit(l: Live, r: Live, freshKey: Key, now: nat)
    requires InSync(l) && RolesFit(l) && r == Reloaded(l.tables, freshKey, now)
    ensures RolesFit(r)
  {
    ReloadIs(l, freshKey, now);
    hide Hosted, Provisioned, InSync, ReadRoles, ReadChannels, DefaultRoles;
  }

  lemma {:induction false} WarrantedRolesFit(c: Community, p: Pseudonym, r: Request, now: nat, effect: Effect)
    requires Warranted(c, p, r, now, effect)
    ensures effect.Admit? ==> ROLE_EVERYONE_ID in effect.member.roles && effect.member.roles <= OWNER_ROLES
    ensures effect.Adjust? && effect.edit.Grant? ==> effect.edit.role in c.roles
    ensures effect.Adjust? && effect.edit.Revoke? ==> effect.edit.role != ROLE_EVERYONE_ID
    ensures effect.DropRole? ==> effect.role != ROLE_EVERYONE_ID
  {
    hide Cleared, Outranks, MaySend, Rank, NextRoleId;
  }

  lemma {:induction false} RolesFitRun(l: Live, events: seq<Event>)
    requires InSync(l) && RolesFit(l)
    ensures RolesFit(Run(l, events))
    decreases events
  {
    hide Step, InSync, RolesFit;
    if events != [] {
      RolesFitStep(l, events[0]);
      StepKeepsSync(l, events[0]);
      RolesFitRun(Step(l, events[0]).0, events[1..]);
    }
  }

  /**
   In every reachable state every member holds @everyone, and a role it holds is defined, or is one of the default
   roles 1 to 4, or has a row that cannot be read back.
   */
  lemma {:induction false} EveryHeldRoleIsKnown(key: Key, events: seq<Event>)
    ensures var l := Run(NewLive(key), events);
      && (forall p :: p in l.memory.members ==> ROLE_EVERYONE_ID in l.memory.members[p].roles)
      && (forall p, r :: p in l.memory.members && r in l.memory.members[p].roles ==>
            || r in l.memory.roles || 1 <= r <= 4
            || (r in l.tables.roles && !ReadsBack(l.tables.roles[r].permissions)))
  {
    assert RolesFit(NewLive(key));
    EveryReachableServerIsInSync(key, events);
    NewInSync(key);
    RolesFitRun(NewLive(key), events);
    hide NewLive, Run, Consistent, SameLedger, SameRoster, TimeoutsWritten, SameChannels;
  }

  /** The stored mask of @everyone has bit 63 and some other role's has not. */
  predicate LosesEveryone(rows: map<RoleId, Role>) {
    ROLE_EVERYONE_ID in rows && !ReadsBack(rows[ROLE_EVERYONE_ID].permissions)
    && exists r :: r in rows && ReadsBack(rows[r].permissions)
  }

  /** No request undefines @everyone; a restart does if and only if its row is lost while another is not. */
  lemma {:induction false} EveryoneStaysDefinedIff(l: Live, e: Event)
    requires InSync(l)
    ensures ROLE_EVERYONE_ID in Step(l, e).0.memory.roles <==>
            if e.Rehost? then !LosesEveryone(l.tables.roles) else ROLE_EVERYONE_ID in l.memory.roles
  {
    if e.Call? {
      ResolvedIsWarranted(l, e);
      WarrantedRolesFit(l.memory, e.sender, e.request, e.now, Resolve(l, e).0);
      RolesAfter(l.memory, Resolve(l, e).0);
      var effect := Resolve(l, e).0;
      if effect.AddRole? { NewRoleIsNotEveryone(l.memory, e.sender, e.request, e.now, effect); }
      hide Resolve, Apply, Persist, InSync;
      if effect.ChangeRole? { WarrantedFits(l.memory, e.sender, e.request, e.now, effect); }
    } else {
      ReloadIs(l, e.freshKey, e.now);
      hide Hosted, Provisioned, PersistAdmit, SameLedger, SameRoster, TimeoutsWritten, SameChannels, Consistent;
      assert ReadRoles(l.tables.roles) == map[] <==>
          forall r :: r in l.tables.roles ==> !ReadsBack(l.tables.roles[r].permissions)
      by {
        if ReadRoles(l.tables.roles) == map[] {
          forall r | r in l.tables.roles ensures !ReadsBack(l.tables.roles[r].permissions) {
            assert r !in ReadRoles(l.tables.roles);
          }
        }
      }
    }
  }

  lemma {:induction false} NewRoleIsNotEveryone(c: Community, p: Pseudonym, r: Request, now: nat, effect: Effect)
    requires Warranted(c, p, r, now, effect) && effect.AddRole?
    ensures effect.role != ROLE_EVERYONE_ID
  {
  }

  /**
   A later joiner is given roles 0 and 1 unseen: the role list it ends up with names an undefined role exactly when
   one of the two is not defined at the time.
   */
  lemma {:induction false} JoinerHoldsUndefinedRole(c: Community, p: Pseudonym, name: string, now: nat)
    requires c.members != map[] && p !in c.members && p !in c.bans
    ensures var c' := Apply(c, DoJoin(c, p, name, None, now).0);
      p in c'.members && ((exists r :: r in c'.members[p].roles && r !in c'.roles) <==> !(0 in c.roles && 1 in c.roles))
  {
    var c' := Apply(c, DoJoin(c, p, name, None, now).0);
    assert c'.members[p].roles == {0, 1} && c'.roles == c.roles;
    assert 0 in c'.members[p].roles && 1 in c'.members[p].roles;
  }

  // ---------------------------------------------------------------------------
  // Members, bans and the creator
  // ---------------------------------------------------------------------------

  ghost predicate RosterFits(c: Community) {
    // nobody is both banned and a member
    && (forall p :: p in c.members ==> p !in c.bans)
    // until somebody founds the community there is no roster and no ban list
    && (c.creator == "" ==> c.members == map[] && c.bans == map[])
  }

  /** A join under the empty name into an empty roster: it makes "" the creator, which means "no creator". */
  predicate NamelessFounding(c: Community, e: Event) {
    e.Call? && e.request.Join? && e.sender == "" && c.members == map[] && "" !in c.bans
  }

  /** Without a creator on record nobody passes a permission check. */
  lemma {:induction false} NobodyCleared(c: Community, p: Pseudonym, required: nat, now: nat)
    requires c.creator == "" && c.members == map[]
    ensures !MayDo(c, p, required, now)
  {
  }

  lemma {:induction false} RosterKept(c: Community, p: Pseudonym, r: Request, now: nat, effect: Effect)
    requires RosterFits(c) && Warranted(c, p, r, now, effect) && TouchesRoster(effect) && !effect.Admit?
    requires c.creator == "" ==> !MayDo(c, p, BAN_MEMBERS, now)
    ensures RosterFits(Apply(c, effect))
  {
    hide MayDo, Outranks, PositionOf, Rank, Altered, Adjusted;
    if effect.Exile? {
      assert c.creator != "";
    } else {
      assert Apply(c, effect).bans == c.bans && Apply(c, effect).creator == c.creator;
      assert Apply(c, effect).members.Keys <= c.members.Keys;
    }
  }

  lemma {:induction false} RosterElsewhere(c: Community, effect: Effect)
    requires RosterFits(c) && !TouchesRoster(effect)
    ensures RosterFits(Apply(c, effect))
  {
    hide Altered, Stripped;
    assert Apply(c, effect).members == c.members && Apply(c, effect).creator == c.creator;
  }

  /** A warranted effect keeps the roster invariant exactly when it is not a nameless founding. */
  lemma {:induction false} RosterFitsEffect(c: Community, p: Pseudonym, r: Request, now: nat, effect: Effect)
    requires RosterFits(c) && Warranted(c, p, r, now, effect)
    ensures RosterFits(Apply(c, effect)) <==> !(effect.Admit? && effect.founds && p == "")
  {
    if effect.Admit? {
      hide Effective, TopPosition;
      assert p in Apply(c, effect).members;
    } else if TouchesRoster(effect) {
      hide RosterFits, Warranted, Apply;
      if c.creator == "" { NobodyCleared(c, p, BAN_MEMBERS, now); }
      RosterKept(c, p, r, now, effect);
    } else {
      hide RosterFits, Warranted, Apply;
      RosterElsewhere(c, effect);
    }
  }

  /** An event keeps the roster fitting if and only if it is not a nameless founding; a restart always does. */
  lemma {:induction false} RosterStep(l: Live, e: Event)
    requires InSync(l) && RosterFits(l.memory)
    ensures RosterFits(Step(l, e).0.memory) <==> !NamelessFounding(l.memory, e)
  {
    if e.Call? {
      ResolvedIsWarranted(l, e);
      FoundingIs(l, e);
      hide Resolve, Warranted, RosterFits, Apply, Persist, InSync, NamelessFounding;
      RosterFitsEffect(l.memory, e.sender, e.request, e.now, Resolve(l, e).0);
    } else {
      ReloadIs(l, e.freshKey, e.now);
      hide Hosted, Provisioned, PersistAdmit, InSync;
    }
  }

  lemma {:induction false} FoundingIs(l: Live, e: Event)
    requires e.Call?
    ensures var effect := Resolve(l, e).0;
      NamelessFounding(l.memory, e) <==> effect.Admit? && effect.founds && e.sender == ""
  {
    hide Effective, TopPosition;
  }

  ghost predicate NoNamelessFounding(l: Live, events: seq<Event>)
    decreases events
  {
    events == [] || (!NamelessFounding(l.memory, events[0]) && NoNamelessFounding(Step(l, events[0]).0, events[1..]))
  }

  lemma {:induction false} RosterRun(l: Live, events: seq<Event>)
    requires InSync(l) && RosterFits(l.memory) && NoNamelessFounding(l, events)
    ensures RosterFits(Run(l, events).memory)
    decreases events
  {
    hide Step, InSync, RosterFits, NamelessFounding;
    if events != [] {
      RosterStep(l, events[0]);
      StepKeepsSync(l, events[0]);
      RosterRun(Step(l, events[0]).0, events[1..]);
    }
  }

  /** Unless somebody founds the community under the empty name, roster, bans and creator always fit. */
  lemma {:induction false} EveryReachableRosterFits(key: Key, events: seq<Event>)
    requires NoNamelessFounding(NewLive(key), events)
    ensures RosterFits(Run(NewLive(key), events).memory)
  {
    assert RosterFits(NewLive(key).memory);
    NewInSync(key);
    hide NewLive, Run, InSync;
    RosterRun(NewLive(key), events);
  }
}
