/**
 The role hierarchy over whole runs, restarts included: who can come to hold the top rank, and who can take it away.
 */
module RankPreservation {
  import opened Common
  import opened Permissions
  import opened CommunityModel
  import opened Database
  import opened LiveServer

  /** Some defined role held here sits at position `u` or above. */
  ghost predicate Reaches(held: set<RoleId>, roles: map<RoleId, Role>, u: int) {
    exists r :: r in held && r in roles && roles[r].position >= u
  }

  /** A member whose rank is `u` or above. */
  ghost predicate Over(c: Community, p: Pseudonym, u: nat) {
    p in c.members && Reaches(c.members[p].roles, c.roles, u)
  }

  lemma {:induction false} OverIsRank(c: Community, p: Pseudonym, u: nat)
    ensures Over(c, p, u) <==> p in c.members && Rank(c, p) >= u
  {
    if p in c.members {
      var held := c.members[p].roles;
      if Rank(c, p) >= u {
        assert Rank(c, p) in HeldPositions(held, c.roles);
      }
    }
  }

  /** The two roles every joiner gets sit below `t`. */
  ghost predicate JoinersLow(roles: map<RoleId, Role>, t: nat) {
    forall r :: r in JOINER_ROLES && r in roles ==> roles[r].position < t
  }

  /** Nobody ranks above `t`, and joiners rank below it. */
  ghost predicate Capped(c: Community, t: nat) {
    2 <= t && (forall p :: p in c.members ==> Rank(c, p) <= t) && JoinersLow(c.roles, t)
  }

  ghost predicate NobodyOver(c: Community, u: nat) {
    forall p :: !Over(c, p, u)
  }

  lemma {:induction false} CappedIs(c: Community, t: nat)
    requires 2 <= t
    ensures Capped(c, t) <==> NobodyOver(c, t + 1) && JoinersLow(c.roles, t)
  {
    forall p ensures Over(c, p, t + 1) <==> p in c.members && Rank(c, p) >= t + 1 { OverIsRank(c, p, t + 1); }
  }

  // ---------------------------------------------------------------------------
  // Who goes up and who goes down
  // ---------------------------------------------------------------------------

  /** The sender may edit the role: permission, and a role below its own rank or the administrator bit. */
  ghost predicate MayEdit(c: Community, sender: Pseudonym, id: RoleId, now: nat) {
    && Cleared(c, sender, MANAGE_ROLES, now) && id in c.roles
    && (c.roles[id].position < Rank(c, sender) || IsAdministrator(BasePermissions(c, sender, now)))
  }

  /** The event founds the community: it admits somebody to an empty roster with the owner's roles. */
  ghost predicate Founds(c: Community, e: Event, p: Pseudonym) {
    match e
    case Call(sender, request, _, _, _) => request.Join? && sender == p && c.members == map[] && p !in c.bans
    case Rehost(creatorKey, _, _, _) => creatorKey == p && Registers(c, p)
  }

  /** The definitions after an edit that is granted. */
  function RolesEdited(c: Community, id: RoleId, edit: RoleEdit): map<RoleId, Role>
    requires id in c.roles
  {
    c.roles[id := Edited(c.roles[id], edit)]
  }

  /** The event brings `p`, not there before, to level `u`. */
  ghost predicate Promotes(l: Live, e: Event, u: nat, p: Pseudonym) {
    var c := l.memory;
    match e
    case Rehost(_, _, _, _) =>
      var roles := RolesReloaded(l.tables.roles);
      (p in c.members && Reaches(c.members[p].roles, roles, u)) || (Founds(c, e, p) && Reaches(OWNER_ROLES, roles, u))
    case Call(sender, request, now, _, _) =>
      match request
      case Join(_, _) => Founds(c, e, p) && Reaches(OWNER_ROLES, c.roles, u)
      case EditRole(id, edit) =>
        MayEdit(c, sender, id, now) && p in c.members && Reaches(c.members[p].roles, RolesEdited(c, id, edit), u)
      case _ => false
  }

  /** The event takes `p` from level `u`. */
  ghost predicate Demotes(l: Live, e: Event, u: nat, p: Pseudonym)
    requires p in l.memory.members
  {
    var c := l.memory;
    match e
    case Rehost(_, _, _, _) => !Reaches(c.members[p].roles, RolesReloaded(l.tables.roles), u)
    case Call(sender, request, now, _, _) =>
      match request
      case Leave => sender == p
      case Kick(target) => target == p && IsCreator(c, sender) && sender != p
      case Ban_(target) => target == p && IsCreator(c, sender) && sender != p
      case UnassignRole(target, id) =>
        target == p && IsCreator(c, sender) && id != ROLE_EVERYONE_ID && !Reaches(c.members[p].roles - {id}, c.roles, u)
      case EditRole(id, edit) =>
        MayEdit(c, sender, id, now) && !Reaches(c.members[p].roles, RolesEdited(c, id, edit), u)
      case _ => false
  }

  /** The event moves a role that joiners get to `t` or above. */
  ghost predicate RaisesJoiners(l: Live, e: Event, t: nat) {
    match e
    case Rehost(_, _, _, _) => !JoinersLow(RolesReloaded(l.tables.roles), t)
    case Call(sender, request, now, _, _) =>
      match request
      case EditRole(id, edit) => MayEdit(l.memory, sender, id, now) && !JoinersLow(RolesEdited(l.memory, id, edit), t)
      case _ => false
  }

  // ---------------------------------------------------------------------------
  // One event
  // ---------------------------------------------------------------------------

  lemma {:induction false} OverAfter(c: Community, effect: Effect, p: Pseudonym, u: nat)
    ensures Over(Apply(c, effect), p, u) <==>
            p in Apply(c, effect).members && Reaches(HeldAfter(c, effect, p), Apply(c, effect).roles, u)
  {
    if p in Apply(c, effect).members { HeldIs(c, effect, p); }
    hide Apply, HeldAfter;
  }

  /** What the granted requests other than edits, joins and removals rest on, as far as ranks go. */
  predicate Ordinary(r: Request) {
    !r.EditRole? && !r.Join? && !r.Leave? && !r.Kick? && !r.Ban_? && !r.UnassignRole?
  }

  lemma {:induction false} OrdinaryEffect(c: Community, e: Event, effect: Effect, t: nat)
    requires Capped(c, t) && e.Call? && Ordinary(e.request)
    requires Warranted(c, e.sender, e.request, e.now, effect)
    ensures !effect.Admit? && !effect.Depart? && !effect.Exile? && !effect.ChangeRole?
    ensures effect.Adjust? ==> !effect.edit.Revoke?
    ensures effect.Adjust? && effect.edit.Grant? ==> effect.edit.role in c.roles && c.roles[effect.edit.role].position < t
    ensures effect.AddRole? ==> effect.role !in c.roles && effect.definition.position < t
    ensures effect.DropRole? ==> effect.role in c.roles && c.roles[effect.role].position < t
  {
    assert Rank(c, e.sender) <= t;
    hide Effective, TopPosition, Rank, Cleared, Outranks, MaySend, Capped;
  }

  lemma {:induction false} OrdinaryLevel(c: Community, effect: Effect, t: nat, u: nat, p: Pseudonym)
    requires t <= u
    requires !effect.Admit? && !effect.Depart? && !effect.Exile? && !effect.ChangeRole?
    requires effect.Adjust? ==> !effect.edit.Revoke?
    requires effect.Adjust? && effect.edit.Grant? ==> effect.edit.role in c.roles && c.roles[effect.edit.role].position < t
    requires effect.AddRole? ==> effect.role !in c.roles && effect.definition.position < t
    requires effect.DropRole? ==> effect.role in c.roles && c.roles[effect.role].position < t
    ensures Over(Apply(c, effect), p, u) <==> Over(c, p, u)
    ensures JoinersLow(c.roles, t) ==> JoinersLow(Apply(c, effect).roles, t)
  {
    OverAfter(c, effect, p, u);
    RolesAfter(c, effect);
    MembersAfter(c, effect);
    hide Apply;
    if Over(c, p, u) {
      var r :| r in c.members[p].roles && r in c.roles && c.roles[r].position >= u;
      assert r in HeldAfter(c, effect, p) && r in Apply(c, effect).roles;
    }
  }

  lemma {:induction false} MembersAfter(c: Community, effect: Effect)
    requires !effect.Admit? && !effect.Depart? && !effect.Exile?
    ensures Apply(c, effect).members.Keys == c.members.Keys
  {
    hide Altered, Adjusted;
    if effect.DropRole? { assert Stripped(c.members, effect.role).Keys == c.members.Keys; }
  }

  lemma {:induction false} OrdinaryStep(l: Live, e: Event, t: nat, u: nat, p: Pseudonym)
    requires Capped(l.memory, t) && t <= u && e.Call? && Ordinary(e.request)
    ensures Over(Step(l, e).0.memory, p, u) <==> Over(l.memory, p, u)
    ensures JoinersLow(Step(l, e).0.memory.roles, t)
  {
    ResolvedIsWarranted(l, e);
    OrdinaryEffect(l.memory, e, Resolve(l, e).0, t);
    hide Resolve, Warranted, Apply, Persist, Over;
    OrdinaryLevel(l.memory, Resolve(l, e).0, t, u, p);
  }

  lemma {:induction false} EditResolves(l: Live, e: Event)
    requires e.Call? && e.request.EditRole?
    ensures var id, edit := e.request.id, e.request.edit;
      Resolve(l, e).0 ==
        if MayEdit(l.memory, e.sender, id, e.now) then ChangeRole(id, Edited(l.memory.roles[id], edit)) else Nothing
  {
    hide Cleared, Rank, BasePermissions;
  }

  lemma {:induction false} EditMemory(l: Live, e: Event)
    requires e.Call? && e.request.EditRole?
    ensures Step(l, e).0.memory ==
            if MayEdit(l.memory, e.sender, e.request.id, e.now)
            then l.memory.(roles := RolesEdited(l.memory, e.request.id, e.request.edit)) else l.memory
  {
    EditResolves(l, e);
    MemoryAfter(l, e);
    hide Step, Resolve, MayEdit, Edited;
    if MayEdit(l.memory, e.sender, e.request.id, e.now) {
      ChangeRoleIs(l.memory, e.request.id, Edited(l.memory.roles[e.request.id], e.request.edit));
      hide Apply;
    } else {
      hide MayEdit;
    }
  }

  lemma ChangeRoleIs(c: Community, id: RoleId, role: Role)
    ensures Apply(c, ChangeRole(id, role)) == c.(roles := c.roles[id := role])
  {
  }

  lemma {:induction false} EditStep(l: Live, e: Event, t: nat, u: nat, p: Pseudonym)
    requires e.Call? && e.request.EditRole? && JoinersLow(l.memory.roles, t)
    ensures Over(Step(l, e).0.memory, p, u) <==>
            if Over(l.memory, p, u) then !Demotes(l, e, u, p) else Promotes(l, e, u, p)
    ensures JoinersLow(Step(l, e).0.memory.roles, t) <==> !RaisesJoiners(l, e, t)
  {
    EditMemory(l, e);
    hide Step, MayEdit, Edited, Reaches, JoinersLow;
  }

  lemma {:induction false} RemovalResolves(l: Live, e: Event, t: nat, p: Pseudonym)
    requires Capped(l.memory, t) && Over(l.memory, p, t)
    requires e.Call? && (e.request.Leave? || e.request.Kick? || e.request.Ban_?)
    ensures (Removes(Resolve(l, e).0) && Resolve(l, e).0.who == p) <==> Demotes(l, e, t, p)
    ensures Resolve(l, e).0.Nothing? || Resolve(l, e).0.Depart? || Resolve(l, e).0.Exile?
  {
    OverIsRank(l.memory, p, t);
    assert Rank(l.memory, e.sender) <= t;
    hide Effective, Rank, Reaches, Capped;
  }

  /** Members keep the roles they have, and the definitions stay, when an event only takes members away. */
  lemma {:induction false} RemovalLevel(c: Community, effect: Effect, u: nat, p: Pseudonym)
    requires effect.Nothing? || effect.Depart? || effect.Exile?
    ensures Over(Apply(c, effect), p, u) <==> Over(c, p, u) && !(Removes(effect) && effect.who == p)
    ensures Apply(c, effect).roles == c.roles
  {
    OverAfter(c, effect, p, u);
    hide Reaches;
  }

  lemma {:induction false} RemovalStep(l: Live, e: Event, t: nat, u: nat, p: Pseudonym)
    requires Capped(l.memory, t) && t <= u
    requires e.Call? && (e.request.Leave? || e.request.Kick? || e.request.Ban_?)
    ensures Over(Step(l, e).0.memory, p, u) <==>
            if Over(l.memory, p, u) then !Demotes(l, e, u, p) else Promotes(l, e, u, p)
    ensures Step(l, e).0.memory.roles == l.memory.roles
  {
    RemovalIs(l, e);
    RemovalLevel(l.memory, Resolve(l, e).0, u, p);
    if Over(l.memory, p, u) {
      LowerLevel(l.memory, p, t, u);
      RemovalResolves(l, e, t, p);
      SameRemovals(l, e, t, u, p);
    }
    hide Resolve, Apply, Persist, Capped, Over, Removes, Reaches;
  }

  lemma {:induction false} RemovalIs(l: Live, e: Event)
    requires e.Call? && (e.request.Leave? || e.request.Kick? || e.request.Ban_?)
    ensures Resolve(l, e).0.Nothing? || Resolve(l, e).0.Depart? || Resolve(l, e).0.Exile?
  {
    hide Effective, Rank;
  }

  lemma LowerLevel(c: Community, p: Pseudonym, t: nat, u: nat)
    requires Over(c, p, u) && t <= u
    ensures Over(c, p, t)
  {
  }

  lemma SameRemovals(l: Live, e: Event, t: nat, u: nat, p: Pseudonym)
    requires p in l.memory.members && e.Call? && (e.request.Leave? || e.request.Kick? || e.request.Ban_?)
    ensures Demotes(l, e, t, p) <==> Demotes(l, e, u, p)
  {
  }

  lemma {:induction false} UnassignResolves(l: Live, e: Event, t: nat, p: Pseudonym)
    requires Capped(l.memory, t) && Over(l.memory, p, t)
    requires e.Call? && e.request.UnassignRole? && e.request.target == p
    ensures Resolve(l, e).0 ==
            if IsCreator(l.memory, e.sender) && e.request.id != ROLE_EVERYONE_ID
            then Adjust(p, Revoke(e.request.id)) else Nothing
  {
    OverIsRank(l.memory, p, t);
    assert Rank(l.memory, e.sender) <= t;
    hide Effective, Rank, Reaches, Capped, BasePermissions;
  }

  lemma {:induction false} UnassignIs(l: Live, e: Event)
    requires e.Call? && e.request.UnassignRole?
    ensures var effect := Resolve(l, e).0;
      effect.Nothing? || effect == Adjust(e.request.target, Revoke(e.request.id))
  {
    hide Effective, Rank;
  }

  lemma {:induction false} UnassignMemory(l: Live, e: Event, u: nat, p: Pseudonym)
    requires e.Call? && e.request.UnassignRole?
    ensures Step(l, e).0.memory.roles == l.memory.roles
    ensures var taken := !Resolve(l, e).0.Nothing? && e.request.target == p;
      Over(Step(l, e).0.memory, p, u) <==>
      Over(l.memory, p, u) &&
      (taken ==> Reaches(l.memory.members[p].roles - {e.request.id}, l.memory.roles, u))
  {
    UnassignIs(l, e);
    var id := e.request.id;
    hide Resolve, Persist, Reaches;
    if !Resolve(l, e).0.Nothing? {
      RevokeLevel(l.memory, e.request.target, id, u, p);
      if p in l.memory.members && Reaches(l.memory.members[p].roles - {id}, l.memory.roles, u) {
        FewerReach(l.memory, p, id, u);
      }
      hide Apply;
    }
  }

  lemma {:induction false} UnassignStep(l: Live, e: Event, t: nat, u: nat, p: Pseudonym)
    requires Capped(l.memory, t) && t <= u && e.Call? && e.request.UnassignRole?
    ensures Over(Step(l, e).0.memory, p, u) <==>
            if Over(l.memory, p, u) then !Demotes(l, e, u, p) else Promotes(l, e, u, p)
    ensures Step(l, e).0.memory.roles == l.memory.roles
  {
    UnassignMemory(l, e, u, p);
    if Over(l.memory, p, u) && e.request.target == p {
      LowerLevel(l.memory, p, t, u);
      UnassignResolves(l, e, t, p);
    }
    hide Step, Resolve, Capped, Reaches, IsCreator;
  }

  lemma {:induction false} RevokeLevel(c: Community, target: Pseudonym, id: RoleId, u: nat, p: Pseudonym)
    ensures var c' := Apply(c, Adjust(target, Revoke(id)));
      && c'.roles == c.roles
      && (Over(c', p, u) <==>
            p in c.members && Reaches(if p == target then c.members[p].roles - {id} else c.members[p].roles, c.roles, u))
  {
    hide Reaches;
  }

  lemma FewerReach(c: Community, p: Pseudonym, id: RoleId, u: nat)
    requires p in c.members && Reaches(c.members[p].roles - {id}, c.roles, u)
    ensures Over(c, p, u)
  {
  }

  lemma {:induction false} JoinResolves(l: Live, e: Event)
    requires e.Call? && e.request.Join?
    ensures var effect, c := Resolve(l, e).0, l.memory;
      && (effect.Admit? <==> e.sender !in c.bans && e.sender !in c.members)
      && (effect.Admit? ==> effect.who == e.sender)
      && (effect.Admit? ==> effect.member.roles == if c.members == map[] then OWNER_ROLES else JOINER_ROLES)
      && (!effect.Admit? ==> effect.Nothing? || (effect.Adjust? && effect.edit.Reroute?))
  {
  }

  lemma {:induction false} JoinStep(l: Live, e: Event, t: nat, u: nat, p: Pseudonym)
    requires Capped(l.memory, t) && t <= u && e.Call? && e.request.Join?
    ensures Over(Step(l, e).0.memory, p, u) <==>
            if Over(l.memory, p, u) then !Demotes(l, e, u, p) else Promotes(l, e, u, p)
    ensures Step(l, e).0.memory.roles == l.memory.roles
  {
    var effect := Resolve(l, e).0;
    JoinResolves(l, e);
    OverAfter(l.memory, effect, p, u);
    RolesAfter(l.memory, effect);
    if effect.Admit? {
      assert Apply(l.memory, effect).members.Keys == l.memory.members.Keys + {e.sender};
    } else {
      MembersAfter(l.memory, effect);
    }
    hide Resolve, Apply, Persist;
  }

  lemma {:induction false} RestartStep(l: Live, e: Event, t: nat, u: nat, p: Pseudonym)
    requires InSync(l) && e.Rehost?
    ensures Over(Step(l, e).0.memory, p, u) <==>
            if Over(l.memory, p, u) then !Demotes(l, e, u, p) else Promotes(l, e, u, p)
    ensures Step(l, e).0.memory.roles == RolesReloaded(l.tables.roles)
  {
    RestartIs(l, e);
    hide Step, InSync, Reaches, RolesReloaded;
  }

  /**
   One event on a capped community, whatever it is: who is at level `u`, the cap or above it, afterwards - exactly.
   */
  lemma {:induction false} LevelStep(l: Live, e: Event, t: nat, u: nat, p: Pseudonym)
    requires InSync(l) && Capped(l.memory, t) && t <= u
    ensures Over(Step(l, e).0.memory, p, u) <==>
            if Over(l.memory, p, u) then !Demotes(l, e, u, p) else Promotes(l, e, u, p)
    ensures JoinersLow(Step(l, e).0.memory.roles, t) <==> !RaisesJoiners(l, e, t)
  {
    if e.Rehost? {
      RestartStep(l, e, t, u, p);
    } else if e.request.EditRole? {
      EditStep(l, e, t, u, p);
    } else if e.request.Leave? || e.request.Kick? || e.request.Ban_? {
      RemovalStep(l, e, t, u, p);
    } else if e.request.UnassignRole? {
      UnassignStep(l, e, t, u, p);
    } else if e.request.Join? {
      JoinStep(l, e, t, u, p);
    } else {
      OrdinaryStep(l, e, t, u, p);
    }
    hide Step, InSync, Over, Rank, Reaches;
  }

  /** The event breaks the cap: it brings somebody above `t`, or a role of joiners to `t`. */
  ghost predicate Uncaps(l: Live, e: Event, t: nat) {
    var u := t + 1;
    (exists p :: Promotes(l, e, u, p)) || RaisesJoiners(l, e, t)
  }

  /** One event keeps the cap if and only if it does not break it. */
  lemma {:induction false} CapStepIff(l: Live, e: Event, t: nat)
    requires InSync(l) && Capped(l.memory, t)
    ensures Capped(Step(l, e).0.memory, t) <==> !Uncaps(l, e, t)
  {
    var u := t + 1;
    CappedIs(l.memory, t);
    CappedIs(Step(l, e).0.memory, t);
    LevelStep(l, e, t, u, "");
    forall p ensures Over(Step(l, e).0.memory, p, u) <==> Promotes(l, e, u, p) { LevelStep(l, e, t, u, p); }
    hide Step, InSync, Over, Promotes, RaisesJoiners, JoinersLow, Capped;
  }

  // ---------------------------------------------------------------------------
  // Moving a role
  // ---------------------------------------------------------------------------

  lemma {:induction false} EditedReaches(c: Community, id: RoleId, edit: RoleEdit, to: I32, t: nat, p: Pseudonym)
    requires Capped(c, t) && id in c.roles && edit.position == Some(to) && p in c.members
    ensures Reaches(c.members[p].roles, RolesEdited(c, id, edit), t + 1) <==> to > t && id in c.members[p].roles
  {
    var u := t + 1;
    OverIsRank(c, p, u);
    var roles := RolesEdited(c, id, edit);
    if to > t && id in c.members[p].roles { assert roles[id].position >= u; }
    if Reaches(c.members[p].roles, roles, u) {
      var r :| r in c.members[p].roles && r in roles && roles[r].position >= u;
      assert r == id;
    }
  }

  /**
   Moving a role: the new position is never checked. The cap survives if and only if the edit is refused, or the role
   goes no higher than `t` or is held by nobody, and a role of joiners stays below `t`.
   */
  lemma {:induction false} MovingARoleKeepsCapIff(l: Live, e: Event, t: nat, to: I32)
    requires InSync(l) && Capped(l.memory, t)
    requires e.Call? && e.request.EditRole? && e.request.edit.position == Some(to)
    ensures var c, id := l.memory, e.request.id;
      Capped(Step(l, e).0.memory, t) <==>
      !(MayEdit(c, e.sender, id, e.now)
        && ((to > t && exists p :: p in c.members && id in c.members[p].roles) || (id in JOINER_ROLES && to >= t)))
  {
    var c, id, edit := l.memory, e.request.id, e.request.edit;
    CapStepIff(l, e, t);
    assert JoinersLow(c.roles, t);
    hide Step, InSync, Capped;
    if MayEdit(c, e.sender, id, e.now) {
      JoinerMoved(c, id, edit, to, t);
      EditLiftsIff(l, e, t, to);
    }
    hide MayEdit, Promotes, JoinersLow;
  }

  lemma {:induction false} EditPromotes(l: Live, e: Event, u: nat, p: Pseudonym)
    requires e.Call? && e.request.EditRole? && MayEdit(l.memory, e.sender, e.request.id, e.now)
    ensures var c := l.memory;
      Promotes(l, e, u, p) <==>
      p in c.members && Reaches(c.members[p].roles, RolesEdited(c, e.request.id, e.request.edit), u)
  {
    hide Reaches, Cleared, Rank, BasePermissions, RolesEdited, RolesReloaded;
  }

  lemma {:induction false} EditLiftsIff(l: Live, e: Event, t: nat, to: I32)
    requires Capped(l.memory, t)
    requires e.Call? && e.request.EditRole? && e.request.edit.position == Some(to)
    requires MayEdit(l.memory, e.sender, e.request.id, e.now)
    ensures var u := t + 1;
      (exists p :: Promotes(l, e, u, p)) <==>
      to > t && exists p :: p in l.memory.members && e.request.id in l.memory.members[p].roles
  {
    hide Promotes, MayEdit, Capped, Reaches, RolesEdited;
    var c, id, edit, u := l.memory, e.request.id, e.request.edit, t + 1;
    assert id in c.roles by { EditsDefined(c, e.sender, id, e.now); }
    forall p ensures Promotes(l, e, u, p) <==> p in c.members && to > t && id in c.members[p].roles {
      EditPromotes(l, e, u, p);
      if p in c.members { EditedReaches(c, id, edit, to, t, p); }
    }
  }

  lemma EditsDefined(c: Community, sender: Pseudonym, id: RoleId, now: nat)
    requires MayEdit(c, sender, id, now)
    ensures id in c.roles
  {
  }

  lemma {:induction false} JoinerMoved(c: Community, id: RoleId, edit: RoleEdit, to: I32, t: nat)
    requires JoinersLow(c.roles, t) && id in c.roles && edit.position == Some(to)
    ensures !JoinersLow(RolesEdited(c, id, edit), t) <==> id in JOINER_ROLES && to >= t
  {
    var roles := RolesEdited(c, id, edit);
    assert roles[id].position == to;
    assert forall r :: r in c.roles && r != id ==> roles[r] == c.roles[r];
  }

  /** A new community with its owner "o" and a member "a" who holds the default Admin and Moderator roles. */
  function WithAdmin(key: Key): Community {
    NewCommunity(key).(creator := "o", members := map["o" := Member("", 0, None, OWNER_ROLES, None),
                                                      "a" := Member("", 0, None, {0, 1, 2, 3}, None)])
  }

  lemma DefaultRolesAre()
    ensures forall r: RoleId :: r < 5 ==> r in DefaultRoles() && DefaultRoles()[r] == DefaultRole(r)
  {
    hide DefaultRole;
  }

  lemma NoAdministratorBit(r: RoleId)
    requires r < 4
    ensures ADMINISTRATOR !in DefaultRole(r).permissions
  {
  }

  lemma {:induction false} AdminBits()
    ensures var bits := RoleBits({ROLE_EVERYONE_ID} + {0, 1, 2, 3}, DefaultRoles());
      MANAGE_ROLES in bits && VIEW_CHANNEL in bits && !IsAdministrator(bits)
  {
    DefaultRolesAre();
    assert VIEW_CHANNEL in DefaultRole(0).permissions && MANAGE_ROLES in DefaultRole(3).permissions;
    hide DefaultRole, DefaultRoles;
    var held: set<RoleId> := {ROLE_EVERYONE_ID} + {0, 1, 2, 3};
    assert 0 in held && 3 in held;
    forall r | r in held ensures ADMINISTRATOR !in DefaultRole(r).permissions { NoAdministratorBit(r); }
  }

  lemma {:induction false} AdminPermissions(key: Key, now: nat)
    ensures var perms := BasePermissions(WithAdmin(key), "a", now); MANAGE_ROLES in perms && !IsAdministrator(perms)
  {
    AdminBits();
    hide RoleBits, DefaultRoles;
    NoOverwrites({0, 1, 2, 3});
  }

  lemma {:induction false} NoOverwrites(held: set<RoleId>)
    ensures AllowBits(map[], held) == {} && DenyBits(map[], held) == {}
  {
  }

  lemma {:induction false} RankIs(c: Community, p: Pseudonym, id: RoleId)
    requires p in c.members && id in c.members[p].roles && id in c.roles
    requires forall r :: r in c.members[p].roles && r in c.roles ==> c.roles[r].position <= c.roles[id].position
    ensures Rank(c, p) == c.roles[id].position
  {
    assert c.roles[id].position in HeldPositions(c.members[p].roles, c.roles);
  }

  lemma {:induction false} AdminRanks(key: Key)
    ensures Rank(WithAdmin(key), "o") == 4 && Rank(WithAdmin(key), "a") == 3
    ensures forall r: RoleId :: r < 5 ==> r in WithAdmin(key).roles && WithAdmin(key).roles[r].position == r
  {
    DefaultRolesAre();
    hide DefaultRoles, Rank;
    RankIs(WithAdmin(key), "o", 4);
    RankIs(WithAdmin(key), "a", 3);
  }

  lemma {:induction false} AdminMayEdit(key: Key, now: nat)
    ensures MayEdit(WithAdmin(key), "a", 2, now)
  {
    AdminPermissions(key, now);
    AdminRanks(key);
    hide BasePermissions, Rank, DefaultRoles;
  }

  lemma {:induction false} MovedUp(c: Community, to: I32)
    requires to > 4 && 2 in c.roles && c.roles[2].position == to
    requires "a" in c.members && c.members["a"].roles == {0, 1, 2, 3}
    requires "o" in c.members && c.members["o"].roles == OWNER_ROLES
    requires forall r: RoleId :: r < 5 && r != 2 ==> r in c.roles && c.roles[r].position <= 4
    ensures Rank(c, "a") == to && Rank(c, "o") == to
  {
    hide Rank;
    RankIs(c, "a", 2);
    RankIs(c, "o", 2);
  }

  /**
   It takes no administrator: in a new community, somebody with the default Admin role, which lacks that bit, moves
   the Moderator role, which it holds too, and with it itself to any rank at all.
   */
  lemma {:induction false} OvertakingWithoutAdministrator(key: Key, to: I32, now: nat)
    requires to > 4
    ensures var c, move := WithAdmin(key), EditRole(2, RoleEdit(None, None, None, Some(to), None, None));
      var c' := Step(Live(c, NewTables(key)), Call("a", move, now, "", key)).0.memory;
      && !IsAdministrator(BasePermissions(c, "a", now))
      && Rank(c, "o") == 4 && Rank(c, "a") == 3 && Rank(c', "a") == to && Rank(c', "o") == to
  {
    var c, edit := WithAdmin(key), RoleEdit(None, None, None, Some(to), None, None);
    var e := Call("a", EditRole(2, edit), now, "", key);
    AdminPermissions(key, now);
    AdminRanks(key);
    hide Step, BasePermissions, Rank;
    EditMemory(Live(c, NewTables(key)), e);
    AdminMayEdit(key, now);
    hide MayEdit;
    MovedUp(c.(roles := RolesEdited(c, 2, edit)), to);
  }

  // ---------------------------------------------------------------------------
  // Whole runs
  // ---------------------------------------------------------------------------

  ghost predicate CapHolds(l: Live, events: seq<Event>, t: nat)
    decreases events
  {
    events == [] || (!Uncaps(l, events[0], t) && CapHolds(Step(l, events[0]).0, events[1..], t))
  }

  /** At event `i` somebody comes to the top, or leaves it. */
  ghost predicate PromotedAt(l: Live, events: seq<Event>, i: nat, t: nat, p: Pseudonym) {
    i < |events| && !Over(Before(l, events, i).memory, p, t) && Over(Before(l, events, i + 1).memory, p, t)
    && Promotes(Before(l, events, i), events[i], t, p)
  }

  ghost predicate DemotedAt(l: Live, events: seq<Event>, i: nat, t: nat, p: Pseudonym) {
    i < |events| && Over(Before(l, events, i).memory, p, t) && !Over(Before(l, events, i + 1).memory, p, t)
    && Demotes(Before(l, events, i), events[i], t, p)
  }

  lemma {:induction false} Later(l: Live, events: seq<Event>, i: nat, t: nat, p: Pseudonym)
    requires events != [] && i < |events| - 1
    ensures PromotedAt(Step(l, events[0]).0, events[1..], i, t, p) <==> PromotedAt(l, events, i + 1, t, p)
    ensures DemotedAt(Step(l, events[0]).0, events[1..], i, t, p) <==> DemotedAt(l, events, i + 1, t, p)
  {
    BeforeLater(l, events, i + 1);
    BeforeLater(l, events, i + 2);
    hide Before, Step, Over, Promotes, Demotes;
  }

  /**
   Rank preservation over whole runs, as long as no event breaks the cap: whoever has come to the top or left it did
   so at an event that promotes or demotes it.
   */
  lemma {:induction false} TopRankChangesHands(l: Live, events: seq<Event>, t: nat, p: Pseudonym)
    requires InSync(l) && Capped(l.memory, t) && CapHolds(l, events, t)
    ensures Capped(Run(l, events).memory, t)
    ensures Over(Run(l, events).memory, p, t) && !Over(l.memory, p, t) ==> exists i: nat :: PromotedAt(l, events, i, t, p)
    ensures Over(l.memory, p, t) && !Over(Run(l, events).memory, p, t) ==> exists i: nat :: DemotedAt(l, events, i, t, p)
    decreases events
  {
    hide Step, InSync, Capped, Over, Promotes, Demotes, Uncaps;
    if events != [] {
      var l' := Step(l, events[0]).0;
      CapStepIff(l, events[0], t);
      StepKeepsSync(l, events[0]);
      TopRankChangesHands(l', events[1..], t, p);
      LevelStep(l, events[0], t, t, p);
      FirstTwo(l, events);
      if i: nat :| PromotedAt(l', events[1..], i, t, p) { Later(l, events, i, t, p); }
      if i: nat :| DemotedAt(l', events[1..], i, t, p) { Later(l, events, i, t, p); }
      if !Over(l.memory, p, t) && Over(l'.memory, p, t) { assert PromotedAt(l, events, 0, t, p); }
      if Over(l.memory, p, t) && !Over(l'.memory, p, t) { assert DemotedAt(l, events, 0, t, p); }
    }
  }

  lemma {:induction false} FirstTwo(l: Live, events: seq<Event>)
    requires events != []
    ensures Before(l, events, 0) == l && Before(l, events, 1) == Step(l, events[0]).0
  {
    hide Step;
    BeforeLater(l, events, 1);
    assert events[1..][..0] == [];
  }

  /** No founding, no move of a role to or from the top, no restart that changes the roles. */
  ghost predicate Calm(l: Live, e: Event, t: nat) {
    var c := l.memory;
    match e
    case Rehost(creatorKey, _, _, _) => RolesReloaded(l.tables.roles) == c.roles && !Registers(c, creatorKey)
    case Call(sender, request, now, _, _) =>
      match request
      case Join(_, _) => c.members != map[] || sender in c.bans
      case EditRole(id, edit) =>
        MayEdit(c, sender, id, now) ==>
          Edited(c.roles[id], edit).position == c.roles[id].position
          || (Edited(c.roles[id], edit).position < t && c.roles[id].position < t)
      case _ => true
  }

  /** The event is the member's own departure, or the creator kicks or bans it or takes a role from it. */
  predicate OwnOrCreators(c: Community, e: Event, p: Pseudonym) {
    e.Call? &&
    match e.request
    case Leave => e.sender == p
    case Kick(target) => target == p && IsCreator(c, e.sender)
    case Ban_(target) => target == p && IsCreator(c, e.sender)
    case UnassignRole(target, _) => target == p && IsCreator(c, e.sender)
    case _ => false
  }

  lemma {:induction false} CalmEdit(c: Community, id: RoleId, edit: RoleEdit, t: nat, u: nat, held: set<RoleId>)
    requires id in c.roles && t <= u && JoinersLow(c.roles, t)
    requires var r := Edited(c.roles[id], edit);
      r.position == c.roles[id].position || (r.position < t && c.roles[id].position < t)
    ensures Reaches(held, RolesEdited(c, id, edit), u) <==> Reaches(held, c.roles, u)
    ensures JoinersLow(RolesEdited(c, id, edit), t)
  {
    var roles := RolesEdited(c, id, edit);
    hide Edited;
    if Reaches(held, c.roles, u) {
      var r :| r in held && r in c.roles && c.roles[r].position >= u;
      assert r in roles && roles[r].position >= u;
    }
  }

  lemma {:induction false} CalmLevel(l: Live, e: Event, t: nat, u: nat, p: Pseudonym)
    requires Capped(l.memory, t) && Calm(l, e, t) && t <= u
    ensures !Over(l.memory, p, u) ==> !Promotes(l, e, u, p)
    ensures Over(l.memory, p, u) && Demotes(l, e, u, p) ==> OwnOrCreators(l.memory, e, p)
    ensures !RaisesJoiners(l, e, t)
  {
    if e.Call? && e.request.EditRole? && MayEdit(l.memory, e.sender, e.request.id, e.now) {
      CalmEdit(l.memory, e.request.id, e.request.edit, t, u,
               if p in l.memory.members then l.memory.members[p].roles else {});
    }
    hide MayEdit, Edited, RolesEdited, RolesReloaded, Rank, Reaches;
  }

  lemma {:induction false} CalmStep(l: Live, e: Event, t: nat)
    requires InSync(l) && Capped(l.memory, t) && Calm(l, e, t)
    ensures Capped(Step(l, e).0.memory, t)
    ensures forall p :: Over(Step(l, e).0.memory, p, t) ==> Over(l.memory, p, t)
    ensures forall p :: Over(l.memory, p, t) && !Over(Step(l, e).0.memory, p, t) ==> OwnOrCreators(l.memory, e, p)
  {
    var u := t + 1;
    CapStepIff(l, e, t);
    CappedIs(l.memory, t);
    forall p ensures !Promotes(l, e, u, p) && !RaisesJoiners(l, e, t) { CalmLevel(l, e, t, u, p); }
    CalmLevel(l, e, t, u, "");
    hide Step, InSync, Capped, Calm, Over, Promotes, Demotes, RaisesJoiners, OwnOrCreators;
    forall p
      ensures Over(Step(l, e).0.memory, p, t) ==> Over(l.memory, p, t)
      ensures Over(l.memory, p, t) && !Over(Step(l, e).0.memory, p, t) ==> OwnOrCreators(l.memory, e, p)
    {
      LevelStep(l, e, t, t, p);
      CalmLevel(l, e, t, t, p);
    }
  }

  ghost predicate CalmRun(l: Live, events: seq<Event>, t: nat)
    decreases events
  {
    events == [] || (Calm(l, events[0], t) && CalmRun(Step(l, events[0]).0, events[1..], t))
  }

  /** At event `i` the member goes from the top, by its own departure or at the creator's hands. */
  ghost predicate GoesAt(l: Live, events: seq<Event>, i: nat, t: nat, p: Pseudonym) {
    i < |events| && Over(Before(l, events, i).memory, p, t) && !Over(Before(l, events, i + 1).memory, p, t)
    && OwnOrCreators(Before(l, events, i).memory, events[i], p)
  }

  /**
   Rank preservation over calm runs: no rank exceeds the top, nobody new reaches it, and whoever is no longer there
   went at an event that was its own departure, or the creator's kick, ban or removal of a role.
   */
  lemma {:induction false} TopRankIsSafe(l: Live, events: seq<Event>, t: nat, p: Pseudonym)
    requires InSync(l) && Capped(l.memory, t) && CalmRun(l, events, t)
    ensures Capped(Run(l, events).memory, t)
    ensures Over(Run(l, events).memory, p, t) ==> Over(l.memory, p, t)
    ensures Over(l.memory, p, t) && !Over(Run(l, events).memory, p, t) ==> exists i: nat :: GoesAt(l, events, i, t, p)
    decreases events
  {
    hide Step, InSync, Capped, Over, Calm, OwnOrCreators;
    if events != [] {
      var l' := Step(l, events[0]).0;
      CalmStep(l, events[0], t);
      StepKeepsSync(l, events[0]);
      TopRankIsSafe(l', events[1..], t, p);
      FirstTwo(l, events);
      if i: nat :| GoesAt(l', events[1..], i, t, p) {
        BeforeLater(l, events, i + 1);
        BeforeLater(l, events, i + 2);
        assert GoesAt(l, events, i + 1, t, p) by { hide Before; }
      }
      if Over(l.memory, p, t) && !Over(l'.memory, p, t) { assert GoesAt(l, events, 0, t, p); }
    }
  }

  /** The default roles and a founder meet the cap at the owner's position. */
  lemma {:induction false} FoundedCommunityIsCapped(key: Key, p: Pseudonym, now: nat)
    ensures var c := Apply(NewCommunity(key), DoJoin(NewCommunity(key), p, "", None, now).0);
      Capped(c, 4) && Over(c, p, 4)
  {
    hide Effective;
    Founding(key, p, now);
    var c := Apply(NewCommunity(key), DoJoin(NewCommunity(key), p, "", None, now).0);
    OverIsRank(c, p, 4);
    OverIsRank(c, p, 5);
  }
}
