/**
 Communities that differ only in timeouts that have run out: nobody can tell them apart by any request.
 */
module Likeness {
  import opened Common
  import opened Permissions
  import opened CommunityModel

  /** Alike up to timeouts that have run out by `now`. */
  ghost predicate Alike(c: Community, d: Community, now: nat) {
    Expire(c, now) == Expire(d, now)
  }

  lemma {:induction false} ExpireTwice(c: Community, earlier: nat, now: nat)
    requires earlier <= now
    ensures Expire(Expire(c, earlier), now) == Expire(c, now)
  {
  }

  lemma {:induction false} AlikeLater(c: Community, d: Community, earlier: nat, now: nat)
    requires Alike(c, d, earlier) && earlier <= now
    ensures Alike(c, d, now)
  {
  }

  lemma {:induction false} AlikeMembers(c: Community, d: Community, now: nat, p: Pseudonym)
    requires Alike(c, d, now)
    ensures c.members.Keys == d.members.Keys
    ensures p in c.members ==> Refreshed(c.members[p], now) == Refreshed(d.members[p], now)
  {
    assert Expire(c, now).members.Keys == c.members.Keys;
    assert Expire(d, now).members.Keys == d.members.Keys;
    if p in c.members {
      assert Expire(c, now).members[p] == Refreshed(c.members[p], now);
      assert Expire(d, now).members[p] == Refreshed(d.members[p], now);
    }
  }

  lemma {:induction false} AlikeTarget(c: Community, d: Community, now: nat, p: Pseudonym)
    requires Alike(c, d, now)
    ensures p in c.members <==> p in d.members
    ensures p in c.members ==> c.members[p].roles == d.members[p].roles && c.members[p].name == d.members[p].name
    ensures IsMember(c, p) == IsMember(d, p)
    ensures Rank(c, p) == Rank(d, p)
  {
    AlikeMembers(c, d, now, p);
  }

  /** Alike communities check permissions and ranks alike. */
  lemma {:induction false} AlikeChecks(c: Community, d: Community, p: Pseudonym, channel: ChannelId, now: nat)
    requires Alike(c, d, now)
    ensures BasePermissions(c, p, now) == BasePermissions(d, p, now)
    ensures MaySend(c, p, channel, now) == MaySend(d, p, channel, now)
  {
    AlikeMembers(c, d, now, p);
  }

  lemma {:induction false} AlikeModeration(c: Community, d: Community, p: Pseudonym, r: Request, now: nat,
                                           id: ChannelId, key: Key)
    requires Alike(c, d, now) && (r.Kick? || r.Ban_? || r.TimeoutMember?)
    ensures Decide(c, p, r, now, id, key) == Decide(d, p, r, now, id, key)
  {
    hide Effective, TopPosition;
    AlikeChecks(c, d, p, "", now);
    AlikeTarget(c, d, now, p);
    AlikeTarget(c, d, now, r.target);
  }

  lemma {:induction false} AlikeRoleChanges(c: Community, d: Community, p: Pseudonym, r: Request, now: nat,
                                            id: ChannelId, key: Key)
    requires Alike(c, d, now) && (r.AssignRole? || r.UnassignRole?)
    ensures Decide(c, p, r, now, id, key) == Decide(d, p, r, now, id, key)
  {
    hide Effective, TopPosition;
    AlikeChecks(c, d, p, "", now);
    AlikeTarget(c, d, now, p);
    AlikeTarget(c, d, now, r.target);
  }

  lemma {:induction false} AlikeJoins(c: Community, d: Community, p: Pseudonym, name: string, route: Option<Bytes>,
                                      now: nat)
    requires Alike(c, d, now)
    ensures DoJoin(c, p, name, route, now) == DoJoin(d, p, name, route, now)
  {
    AlikeMembers(c, d, now, p);
    assert c.members == map[] <==> c.members.Keys == {};
    assert d.members == map[] <==> d.members.Keys == {};
  }

  /** Alike communities decide alike: same effect, same answer. */
  lemma {:induction false} AlikeDecisions(c: Community, d: Community, p: Pseudonym, r: Request, now: nat,
                                          id: ChannelId, key: Key)
    requires Alike(c, d, now)
    ensures Decide(c, p, r, now, id, key) == Decide(d, p, r, now, id, key)
  {
    hide Decide, Alike;
    if r.Kick? || r.Ban_? || r.TimeoutMember? {
      AlikeModeration(c, d, p, r, now, id, key);
    } else if r.AssignRole? || r.UnassignRole? {
      AlikeRoleChanges(c, d, p, r, now, id, key);
    } else if r.CreateRole? || r.EditRole? || r.DeleteRole? || r.GetRoles? {
      AlikeDefinitions(c, d, p, r, now, id, key);
    } else {
      AlikeOthers(c, d, p, r, now, id, key);
    }
  }

  lemma {:induction false} AlikeDefinitions(c: Community, d: Community, p: Pseudonym, r: Request, now: nat,
                                            id: ChannelId, key: Key)
    requires Alike(c, d, now)
    requires r.CreateRole? || r.EditRole? || r.DeleteRole? || r.GetRoles?
    ensures Decide(c, p, r, now, id, key) == Decide(d, p, r, now, id, key)
  {
    hide Effective, TopPosition;
    AlikeTarget(c, d, now, p);
    AlikeChecks(c, d, p, "", now);
  }

  lemma {:induction false} AlikeOthers(c: Community, d: Community, p: Pseudonym, r: Request, now: nat,
                                       id: ChannelId, key: Key)
    requires Alike(c, d, now)
    requires !r.Kick? && !r.Ban_? && !r.TimeoutMember? && !r.AssignRole? && !r.UnassignRole?
    requires !r.CreateRole? && !r.EditRole? && !r.DeleteRole? && !r.GetRoles?
    ensures Decide(c, p, r, now, id, key) == Decide(d, p, r, now, id, key)
  {
    hide Effective, TopPosition;
    if r.Join? {
      AlikeJoins(c, d, p, r.name, r.route, now);
    } else {
      AlikeTarget(c, d, now, p);
      AlikeChecks(c, d, p, if r.SendMessage? then r.channel else "", now);
    }
  }

  lemma {:induction false} AlikePut(c: Community, d: Community, p: Pseudonym, m: Member, n: Member, now: nat)
    requires Alike(c, d, now) && Refreshed(m, now) == Refreshed(n, now)
    ensures Alike(Put(c, p, m), Put(d, p, n), now)
  {
    ExpirePut(c, p, m, now);
    ExpirePut(d, p, n, now);
  }

  lemma {:induction false} ExpirePut(c: Community, p: Pseudonym, m: Member, now: nat)
    ensures Expire(Put(c, p, m), now) == Put(Expire(c, now), p, Refreshed(m, now))
  {
  }

  lemma {:induction false} ExpireDeparted(c: Community, p: Pseudonym, key: Key, now: nat)
    ensures Expire(Departed(c, p, key), now) == Departed(Expire(c, now), p, key)
  {
  }

  lemma {:induction false} RefreshStripped(members: map<Pseudonym, Member>, id: RoleId, now: nat)
    ensures AllRefreshed(Stripped(members, id), now) == Stripped(AllRefreshed(members, now), id)
  {
  }

  lemma {:induction false} ExpireStripped(c: Community, id: RoleId, now: nat)
    ensures Expire(Apply(c, DropRole(id)), now) == Apply(Expire(c, now), DropRole(id))
  {
    hide AllRefreshed, Stripped;
    RefreshStripped(c.members, id, now);
  }

  lemma {:induction false} AlikeAdmit(c: Community, d: Community, p: Pseudonym, m: Member, founds: bool, now: nat)
    requires Alike(c, d, now)
    ensures Alike(Apply(c, Admit(p, m, founds)), Apply(d, Admit(p, m, founds)), now)
  {
    var c1, d1 := if founds then c.(creator := p) else c, if founds then d.(creator := p) else d;
    assert Expire(c1, now) == if founds then Expire(c, now).(creator := p) else Expire(c, now);
    assert Expire(d1, now) == if founds then Expire(d, now).(creator := p) else Expire(d, now);
    AlikePut(c1, d1, p, m, m, now);
  }

  lemma {:induction false} AlikeExile(c: Community, d: Community, p: Pseudonym, ban: Ban, departs: bool, key: Key,
                                      now: nat)
    requires Alike(c, d, now)
    ensures Alike(Apply(c, Exile(p, ban, departs, key)), Apply(d, Exile(p, ban, departs, key)), now)
  {
    var c1, d1 := c.(bans := c.bans[p := ban]), d.(bans := d.bans[p := ban]);
    assert Expire(c1, now) == Expire(c, now).(bans := c.bans[p := ban]);
    assert Expire(d1, now) == Expire(d, now).(bans := d.bans[p := ban]);
    ExpireDeparted(c1, p, key, now);
    ExpireDeparted(d1, p, key, now);
  }

  lemma {:induction false} AlikeElsewhere(c: Community, d: Community, effect: Effect, now: nat)
    requires Alike(c, d, now)
    requires !effect.Admit? && !effect.Adjust? && !effect.Depart? && !effect.Exile? && !effect.DropRole?
    ensures Alike(Apply(c, effect), Apply(d, effect), now)
  {
  }

  /** An effect leaves alike communities alike. */
  lemma {:induction false} AlikeEffects(c: Community, d: Community, effect: Effect, now: nat)
    requires Alike(c, d, now)
    ensures Alike(Apply(c, effect), Apply(d, effect), now)
  {
    match effect {
      case Admit(p, m, founds) =>
        AlikeAdmit(c, d, p, m, founds, now);
      case Adjust(p, edit) =>
        AlikeMembers(c, d, now, p);
        if p in c.members {
          AlikePut(c, d, p, Adjusted(c.members[p], edit), Adjusted(d.members[p], edit), now);
        }
      case Depart(p, key) =>
        ExpireDeparted(c, p, key, now);
        ExpireDeparted(d, p, key, now);
      case Exile(p, ban, departs, key) =>
        AlikeExile(c, d, p, ban, departs, key, now);
      case DropRole(id) =>
        ExpireStripped(c, id, now);
        ExpireStripped(d, id, now);
      case _ =>
        AlikeElsewhere(c, d, effect, now);
    }
  }
}
