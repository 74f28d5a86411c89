/**
 What a member sees of the server: for every request, when it is granted, what memory holds afterwards, and which
 error answers it otherwise. Everything is said in terms of the records and the event, whichever way the handlers
 arrive at it.
 */
module Requests {
  import opened Common
  import opened Permissions
  import opened RoleIdTexts
  import opened CommunityModel
  import opened LiveServer
  import opened Sorting

  // ---------------------------------------------------------------------------
  // Who may do what
  // ---------------------------------------------------------------------------

  /** @everyone or a role the member holds has the bit. */
  ghost predicate HasBit(c: Community, p: Pseudonym, b: nat) {
    p in c.members &&
    exists r :: (r == 0 || r in c.members[p].roles) && r in c.roles && b in c.roles[r].permissions
  }

  /** A timeout is running, and the bit is one of those it takes: writing, reacting, speaking, streaming, inviting. */
  ghost predicate Silenced(c: Community, p: Pseudonym, b: nat, now: nat) {
    && p in c.members && c.members[p].timeout.Some? && now < c.members[p].timeout.value
    && (b == SEND_MESSAGES || b == ADD_REACTIONS || b == SPEAK || b == STREAM || b == CREATE_INSTANT_INVITE)
  }

  ghost predicate IsNamedCreator(c: Community, p: Pseudonym) {
    c.creator != "" && p == c.creator
  }

  /** The creator may do anything, as may an administrator; any other member needs this bit and the view bit. */
  ghost predicate Can(c: Community, p: Pseudonym, b: nat, now: nat) {
    || IsNamedCreator(c, p)
    || HasBit(c, p, ADMINISTRATOR)
    || (HasBit(c, p, VIEW_CHANNEL) && HasBit(c, p, b) && !Silenced(c, p, b, now))
  }

  lemma {:induction false} RoleBitsAre(c: Community, p: Pseudonym, b: nat)
    requires p in c.members
    ensures b in RoleBits({ROLE_EVERYONE_ID} + c.members[p].roles, c.roles) <==> HasBit(c, p, b)
  {
    var held := {ROLE_EVERYONE_ID} + c.members[p].roles;
    if HasBit(c, p, b) {
      var r :| (r == 0 || r in c.members[p].roles) && r in c.roles && b in c.roles[r].permissions;
      assert r in held;
    }
  }

  lemma {:induction false} NoOverwriteBits(held: set<RoleId>)
    ensures AllowBits(map[], held) == {} && DenyBits(map[], held) == {}
  {
  }

  lemma {:induction false} SurvivesIs(c: Community, p: Pseudonym, b: nat, now: nat)
    requires p in c.members
    ensures var m := c.members[p];
      Survives(m.roles, c.roles, map[], p, m.timeout, now, b) <==> HasBit(c, p, b) && !Silenced(c, p, b, now)
  {
    RoleBitsAre(c, p, b);
    NoOverwriteBits(c.members[p].roles);
    hide HasBit, RoleBits, AllowBits, DenyBits;
  }

  lemma {:induction false} BasePermissionsAre(c: Community, p: Pseudonym, b: nat, now: nat)
    ensures HasPermission(BasePermissions(c, p, now), b) <==>
            HasBit(c, p, ADMINISTRATOR) ||
            (HasBit(c, p, VIEW_CHANNEL) && HasBit(c, p, b) && !Silenced(c, p, b, now))
    ensures IsAdministrator(BasePermissions(c, p, now)) <==> HasBit(c, p, ADMINISTRATOR)
  {
    if p in c.members {
      var m := c.members[p];
      RoleBitsAre(c, p, ADMINISTRATOR);
      if !HasBit(c, p, ADMINISTRATOR) {
        forall k ensures k in BasePermissions(c, p, now) <==>
                         HasBit(c, p, VIEW_CHANNEL) && HasBit(c, p, k) && !Silenced(c, p, k, now)
        {
          SurvivesIs(c, p, k, now);
          SurvivesIs(c, p, VIEW_CHANNEL, now);
          EffectiveBit(m.roles, c.roles, map[], p, m.timeout, now, k);
          hide HasBit, RoleBits, Survives, Effective;
        }
      } else {
        assert ADMINISTRATOR in ALL_PERMISSIONS;
        hide HasBit, RoleBits;
      }
    }
  }

  /** The permission check of the handlers, member or creator. */
  lemma {:induction false} ClearedIs(c: Community, p: Pseudonym, b: nat, now: nat)
    ensures MayDo(c, p, b, now) <==> Can(c, p, b, now)
    ensures Cleared(c, p, b, now) <==> Can(c, p, b, now)
  {
    BasePermissionsAre(c, p, b, now);
    hide BasePermissions;
  }

  ghost predicate Allows(o: map<Target, Overwrite>, t: Target, b: nat) {
    t in o && b in o[t].allow
  }

  ghost predicate Denies(o: map<Target, Overwrite>, t: Target, b: nat) {
    t in o && b in o[t].deny
  }

  /**
   Who has the last word on a bit in a channel: a running timeout; the member's overwrite; the overwrites of the roles
   it holds, one that allows before one that denies; the overwrite for @everyone; the roles themselves.
   */
  ghost predicate Passes(c: Community, p: Pseudonym, channel: ChannelId, b: nat, now: nat)
    requires p in c.members
  {
    var o := if channel in c.channels then c.channels[channel].overwrites else map[];
    var held := c.members[p].roles;
    && !Silenced(c, p, b, now)
    && if Allows(o, Target(MemberTarget, p), b) then true
       else if Denies(o, Target(MemberTarget, p), b) then false
       else if exists t :: Allows(o, t, b) && ForHeldRole(t, held) then true
       else if exists t :: Denies(o, t, b) && ForHeldRole(t, held) then false
       else if Allows(o, Target(RoleTarget, "0"), b) then true
       else if Denies(o, Target(RoleTarget, "0"), b) then false
       else HasBit(c, p, b)
  }

  /**
   Writing in a channel takes the administrator bit in a role, or both the view bit and the writing or administrator
   bit in the channel. A creator off the roster may always write.
   */
  ghost predicate CanWrite(c: Community, p: Pseudonym, channel: ChannelId, now: nat) {
    if p !in c.members then p == c.creator
    else
      || HasBit(c, p, ADMINISTRATOR)
      || (Passes(c, p, channel, VIEW_CHANNEL, now)
          && (Passes(c, p, channel, SEND_MESSAGES, now) || Passes(c, p, channel, ADMINISTRATOR, now)))
  }

  lemma {:induction false} PassesIs(c: Community, p: Pseudonym, channel: ChannelId, b: nat, now: nat)
    requires p in c.members
    ensures var m := c.members[p];
      Survives(m.roles, c.roles, OverwritesOf(c, channel), p, m.timeout, now, b) <==> Passes(c, p, channel, b, now)
  {
    var o, held := OverwritesOf(c, channel), c.members[p].roles;
    RoleBitsAre(c, p, b);
    HeldRolesBits(o, held, b);
    hide HasBit, RoleBits, AllowBits, DenyBits, ForHeldRole;
    assert b in AllowBits(o, held) <==> exists t :: Allows(o, t, b) && ForHeldRole(t, held);
    assert b in DenyBits(o, held) <==> exists t :: Denies(o, t, b) && ForHeldRole(t, held);
  }

  lemma {:induction false} MaySendIs(c: Community, p: Pseudonym, channel: ChannelId, now: nat)
    ensures IsMember(c, p) && MaySend(c, p, channel, now) <==> CanWrite(c, p, channel, now)
  {
    if p in c.members {
      var m := c.members[p];
      RoleBitsAre(c, p, ADMINISTRATOR);
      if HasBit(c, p, ADMINISTRATOR) {
        assert ADMINISTRATOR in ALL_PERMISSIONS;
      } else {
        var overwrites := OverwritesOf(c, channel);
        EffectiveBit(m.roles, c.roles, overwrites, p, m.timeout, now, SEND_MESSAGES);
        EffectiveBit(m.roles, c.roles, overwrites, p, m.timeout, now, ADMINISTRATOR);
        PassesIs(c, p, channel, VIEW_CHANNEL, now);
        PassesIs(c, p, channel, SEND_MESSAGES, now);
        PassesIs(c, p, channel, ADMINISTRATOR, now);
        hide Effective, OverwritesOf;
      }
      hide HasBit, RoleBits, Survives, Passes;
    }
  }

  /** The greatest position among the roles the member holds, -1 without any. */
  ghost predicate RanksAt(c: Community, p: Pseudonym, top: int) {
    if p in c.members && exists r :: r in c.members[p].roles && r in c.roles then
      && (exists r :: r in c.members[p].roles && r in c.roles && c.roles[r].position == top)
      && (forall r :: r in c.members[p].roles && r in c.roles ==> c.roles[r].position <= top)
    else top == -1
  }

  lemma {:induction false} RankIs(c: Community, p: Pseudonym, top: int)
    ensures Rank(c, p) == top <==> RanksAt(c, p, top)
  {
    if p in c.members {
      var held := c.members[p].roles;
      if r :| r in held && r in c.roles { assert c.roles[r].position in HeldPositions(held, c.roles); }
    }
  }

  /** The creator is above everybody; anybody else needs the strictly greater rank. */
  ghost predicate Above(c: Community, p: Pseudonym, target: Pseudonym) {
    IsNamedCreator(c, p) || exists i, j :: RanksAt(c, p, i) && RanksAt(c, target, j) && i > j
  }

  /** The role is defined, below the rank of `p`. */
  ghost predicate RoleBelow(c: Community, p: Pseudonym, id: RoleId) {
    id in c.roles && exists i :: RanksAt(c, p, i) && c.roles[id].position < i
  }

  lemma {:induction false} AboveIs(c: Community, p: Pseudonym, target: Pseudonym)
    ensures Outranks(c, p, target) <==> Above(c, p, target)
  {
    RankIs(c, p, Rank(c, p));
    RankIs(c, target, Rank(c, target));
    forall i | RanksAt(c, p, i) ensures i == Rank(c, p) { RankIs(c, p, i); }
    forall i | RanksAt(c, target, i) ensures i == Rank(c, target) { RankIs(c, target, i); }
    hide Rank, RanksAt;
  }

  lemma {:induction false} RoleBelowIs(c: Community, p: Pseudonym, id: RoleId)
    ensures PositionOf(c.roles, id) < Rank(c, p) <==> RoleBelow(c, p, id)
  {
    RankIs(c, p, Rank(c, p));
    forall i | RanksAt(c, p, i) ensures i == Rank(c, p) { RankIs(c, p, i); }
    hide Rank, RanksAt;
  }

  // ---------------------------------------------------------------------------
  // What each request does
  // ---------------------------------------------------------------------------

  /** Memory and tables stay as they are, and the answer is an error. */
  ghost predicate Refused(l: Live, e: Event, code: nat) {
    Step(l, e) == (l, Error(code))
  }

  ghost predicate Does(l: Live, e: Event, after: Community, answer: Response) {
    Step(l, e).0.memory == after && Step(l, e).1 == answer
  }

  /** What a request comes to, once it is known what was decided. */
  lemma {:induction false} Outcome(l: Live, e: Event, decided: (Effect, Response))
    requires e.Call? && !decided.0.AddRole?
    requires Decide(l.memory, e.sender, e.request, e.now, e.freshId, e.freshKey) == decided
    ensures Step(l, e).1 == decided.1
    ensures Step(l, e).0.memory == Apply(l.memory, decided.0)
    ensures decided.0.Nothing? ==> Step(l, e).0 == l
  {
    hide Decide;
  }

  /** Without the departed member, under the next generation, whose key is the event's. */
  ghost function Without(c: Community, p: Pseudonym, key: Key): Community {
    c.(members := c.members - {p}, generation := c.generation + 1, keys := c.keys[c.generation + 1 := key])
  }

  /** What a joiner is told: the current generation and its key, the channels' names and kinds, and the roles. */
  ghost predicate Welcomes(answer: Response, c: Community, held: set<RoleId>) {
    && answer.Joined?
    && answer.generation == c.generation
    && (c.generation in c.keys ==> answer.key == c.keys[c.generation])
    && answer.channels.Keys == c.channels.Keys
    && (forall id :: id in c.channels ==>
          answer.channels[id] == ChannelInfo(c.channels[id].row.name, c.channels[id].row.kind))
    && answer.roleIds == held
    && answer.roles == c.roles
  }

  lemma {:induction false} JoinDoes(l: Live, e: Event)
    requires e.Call? && e.request.Join?
    ensures var c, p := l.memory, e.sender;
      var (l', answer) := Step(l, e);
      if p in c.bans then Refused(l, e, 403)
      else if p in c.members then
        && Welcomes(answer, c, c.members[p].roles)
        && l'.memory == if e.request.route.None? then c
                        else c.(members := c.members[p := c.members[p].(route := e.request.route)])
      else
        var first := c.members == map[];
        var roles: set<RoleId> := if first then {0, 1, 2, 3, 4} else {0, 1};
        && Welcomes(answer, c, roles)
        && l'.memory == c.(creator := if first then p else c.creator,
                           members := c.members[p := Member(e.request.name, e.now, e.request.route, roles, None)])
  {
    hide Step, Resolve;
    Outcome(l, e, DoJoin(l.memory, e.sender, e.request.name, e.request.route, e.now));
  }

  /** A message is accepted from whoever may write in the channel and used the current generation. */
  lemma {:induction false} SendMessageDoes(l: Live, e: Event)
    requires e.Call? && e.request.SendMessage?
    ensures var c, p, m := l.memory, e.sender, e.request;
      if !CanWrite(c, p, m.channel, e.now) then Refused(l, e, 403)
      else if m.generation != c.generation then Refused(l, e, 409)
      else
        Does(l, e, c.(log := c.log + [Message(m.channel, p, m.ciphertext, c.generation, e.now)]), Ok)
  {
    hide CanWrite, MaySend, Step, Resolve;
    Outcome(l, e, DoSend(l.memory, e.sender, e.request.channel, e.request.ciphertext, e.request.generation, e.now));
    MaySendIs(l.memory, e.sender, e.request.channel, e.now);
  }

  /** Reading changes nothing. What the lists hold is the state itself. */
  lemma {:induction false} ReadingDoes(l: Live, e: Event)
    requires e.Call?
    requires e.request.GetMessages? || e.request.RequestMek? || e.request.GetBanList? || e.request.GetRoles?
    ensures var c, p, answer := l.memory, e.sender, Step(l, e).1;
      && Step(l, e).0 == l
      && (answer == Error(403) <==>
            if e.request.GetBanList? then !Can(c, p, BAN_MEMBERS, e.now) else p != c.creator && p !in c.members)
      && (answer != Error(403) ==>
            match e.request
            case GetMessages(_, _, _) => answer.Messages?
            case RequestMek =>
              answer.Mek? && answer.generation == c.generation
              && (c.generation in c.keys ==> answer.key == c.keys[c.generation])
            case GetBanList => answer == BanList(c.bans)
            case _ => answer == RolesList(c.roles))
  {
    hide Can, Cleared, Step, Resolve;
    Outcome(l, e, Decide(l.memory, e.sender, e.request, e.now, e.freshId, e.freshKey));
    ClearedIs(l.memory, e.sender, BAN_MEMBERS, e.now);
  }

  lemma {:induction false} LeaveDoes(l: Live, e: Event)
    requires e.Call? && e.request.Leave?
    ensures var c, p := l.memory, e.sender;
      if p != c.creator && p !in c.members then Refused(l, e, 403) else Does(l, e, Without(c, p, e.freshKey), Ok)
  {
    hide Step, Resolve;
    Outcome(l, e, DoLeave(l.memory, e.sender, e.freshKey));
  }

  lemma {:induction false} KickDoes(l: Live, e: Event)
    requires e.Call? && e.request.Kick?
    ensures var c, p, target := l.memory, e.sender, e.request.target;
      if !Can(c, p, KICK_MEMBERS, e.now) then Refused(l, e, 403)
      else if p == target then Refused(l, e, 400)
      else if !Above(c, p, target) || (target != c.creator && target !in c.members) then Refused(l, e, 403)
      else Does(l, e, Without(c, target, e.freshKey), Ok)
  {
    hide Can, MayDo, Above, Outranks, Step, Resolve;
    Outcome(l, e, DoKick(l.memory, e.sender, e.request.target, e.now, e.freshKey));
    ClearedIs(l.memory, e.sender, KICK_MEMBERS, e.now);
    AboveIs(l.memory, e.sender, e.request.target);
  }

  /** The ban comes first; without a member to remove it stays and the answer is 403 all the same. */
  lemma {:induction false} BanDoes(l: Live, e: Event)
    requires e.Call? && e.request.Ban_?
    ensures var c, p, target := l.memory, e.sender, e.request.target;
      if !Can(c, p, BAN_MEMBERS, e.now) then Refused(l, e, 403)
      else if p == target then Refused(l, e, 400)
      else if !Above(c, p, target) then Refused(l, e, 403)
      else
        var name := if target in c.members then c.members[target].name else "";
        var banned := c.(bans := c.bans[target := Ban(name, e.now)]);
        if target == c.creator || target in c.members then Does(l, e, Without(banned, target, e.freshKey), Ok)
        else Does(l, e, banned, Error(403))
  {
    hide Can, Cleared, Above, Outranks, Step, Resolve;
    Outcome(l, e, DoBan(l.memory, e.sender, e.request.target, e.now, e.freshKey));
    ClearedIs(l.memory, e.sender, BAN_MEMBERS, e.now);
    AboveIs(l.memory, e.sender, e.request.target);
  }

  lemma {:induction false} UnbanDoes(l: Live, e: Event)
    requires e.Call? && e.request.Unban?
    ensures var c := l.memory;
      if !Can(c, e.sender, BAN_MEMBERS, e.now) then Refused(l, e, 403)
      else Does(l, e, c.(bans := c.bans - {e.request.target}), Ok)
  {
    hide Can, Cleared, Step, Resolve;
    Outcome(l, e, DoUnban(l.memory, e.sender, e.request.target, e.now));
    ClearedIs(l.memory, e.sender, BAN_MEMBERS, e.now);
  }

  lemma {:induction false} RotateMekDoes(l: Live, e: Event)
    requires e.Call? && e.request.RotateMek?
    ensures var c := l.memory;
      if !Can(c, e.sender, MANAGE_COMMUNITY, e.now) then Refused(l, e, 403)
      else Does(l, e, c.(generation := c.generation + 1, keys := c.keys[c.generation + 1 := e.freshKey]), Ok)
  {
    hide Can, Cleared, Step, Resolve;
    Outcome(l, e, DoRotate(l.memory, e.sender, e.now, e.freshKey));
    ClearedIs(l.memory, e.sender, MANAGE_COMMUNITY, e.now);
  }

  // --- channels ---

  lemma {:induction false} CreateChannelDoes(l: Live, e: Event)
    requires e.Call? && e.request.CreateChannel?
    ensures var c, kind := l.memory, e.request.kind;
      if !Can(c, e.sender, MANAGE_CHANNELS, e.now) then Refused(l, e, 403)
      else if kind != "text" && kind != "voice" then Refused(l, e, 400)
      else if e.freshId in c.channels then Refused(l, e, 500)
      else
        var order := if |c.channels| < 0x7FFF_FFFF then |c.channels| else 0x7FFF_FFFF;
        var channel := Channel(ChannelRow(e.request.name, kind, order), map[]);
        Does(l, e, c.(channels := c.channels[e.freshId := channel]), ChannelCreated(e.freshId))
  {
    hide Can, Cleared, Step, Resolve;
    Outcome(l, e, DoCreateChannel(l.memory, e.sender, e.request.name, e.request.kind, e.now, e.freshId));
    ClearedIs(l.memory, e.sender, MANAGE_CHANNELS, e.now);
  }

  lemma {:induction false} DeleteChannelDoes(l: Live, e: Event)
    requires e.Call? && e.request.DeleteChannel?
    ensures var c := l.memory;
      if !Can(c, e.sender, MANAGE_CHANNELS, e.now) then Refused(l, e, 403)
      else Does(l, e, c.(channels := c.channels - {e.request.channel}), Ok)
  {
    hide Can, Cleared, Step, Resolve;
    Outcome(l, e, DoDeleteChannel(l.memory, e.sender, e.request.channel, e.now));
    ClearedIs(l.memory, e.sender, MANAGE_CHANNELS, e.now);
  }

  lemma {:induction false} RenameChannelDoes(l: Live, e: Event)
    requires e.Call? && e.request.RenameChannel?
    ensures var c, id := l.memory, e.request.channel;
      if !Can(c, e.sender, MANAGE_CHANNELS, e.now) then Refused(l, e, 403)
      else if id !in c.channels then Refused(l, e, 404)
      else
        var ch := c.channels[id];
        var renamed := Channel(ChannelRow(e.request.name, ch.row.kind, ch.row.sortOrder), ch.overwrites);
        Does(l, e, c.(channels := c.channels[id := renamed]), Ok)
  {
    hide Can, Cleared, Step, Resolve;
    Outcome(l, e, DoRenameChannel(l.memory, e.sender, e.request.channel, e.request.name, e.now));
    ClearedIs(l.memory, e.sender, MANAGE_CHANNELS, e.now);
  }

  /** In memory anything that is not "member" names a role. */
  function TargetOf(targetType: string, id: string): Target {
    Target(if targetType == "member" then MemberTarget else RoleTarget, id)
  }

  lemma {:induction false} SetOverwriteDoes(l: Live, e: Event)
    requires e.Call? && e.request.SetOverwrite?
    ensures var c, id := l.memory, e.request.channel;
      if !Can(c, e.sender, MANAGE_ROLES, e.now) then Refused(l, e, 403)
      else if id !in c.channels then Refused(l, e, 404)
      else
        var t, ch := TargetOf(e.request.targetType, e.request.targetId), c.channels[id];
        var o := e.request.overwrite;
        var changed := Channel(ch.row, ch.overwrites[t := Overwrite(o.allow, o.deny)]);
        Does(l, e, c.(channels := c.channels[id := changed]), Ok)
  {
    hide Can, Cleared, Step, Resolve;
    Outcome(l, e, DoSetOverwrite(l.memory, e.sender, e.request.channel, e.request.targetType, e.request.targetId,
                           e.request.overwrite, e.now));
    ClearedIs(l.memory, e.sender, MANAGE_ROLES, e.now);
  }

  lemma {:induction false} DeleteOverwriteDoes(l: Live, e: Event)
    requires e.Call? && e.request.DeleteOverwrite?
    ensures var c, id := l.memory, e.request.channel;
      if !Can(c, e.sender, MANAGE_ROLES, e.now) then Refused(l, e, 403)
      else if id !in c.channels then Does(l, e, c, Ok)
      else
        var t, ch := TargetOf(e.request.targetType, e.request.targetId), c.channels[id];
        Does(l, e, c.(channels := c.channels[id := Channel(ch.row, ch.overwrites - {t})]), Ok)
  {
    hide Can, Cleared, Step, Resolve;
    Outcome(l, e, DoDeleteOverwrite(l.memory, e.sender, e.request.channel, e.request.targetType,
                              e.request.targetId, e.now));
    ClearedIs(l.memory, e.sender, MANAGE_ROLES, e.now);
  }

  // --- roles ---

  /** The id is above every one in use; the place is just below the sender, but at 1 or above. */
  lemma {:induction false} CreateRoleDoes(l: Live, e: Event)
    requires e.Call? && e.request.CreateRole?
    ensures var c, r, answer := l.memory, e.request, Step(l, e).1;
      if !Can(c, e.sender, MANAGE_ROLES, e.now) then Refused(l, e, 403)
      else
        exists id: RoleId, top: I32 ::
          && RanksAt(c, e.sender, top)
          && (forall k :: k in c.roles ==> k < id)
          && (if c.roles == map[] then id == 1 else id - 1 in c.roles)
          && if id in l.tables.roles then Refused(l, e, 500)
             else
               var place := if top <= 2 then 1 else top - 1;
               var role := Role(r.name, r.color, r.permissions, place, r.hoist, r.mentionable);
               Does(l, e, c.(roles := c.roles[id := role]), RoleCreated(id))
  {
    hide Can, Cleared, Rank, RanksAt, NextRoleId, Step, Resolve;
    var c, r := l.memory, e.request;
    ClearedIs(c, e.sender, MANAGE_ROLES, e.now);
    if Cleared(c, e.sender, MANAGE_ROLES, e.now) {
      RankIs(c, e.sender, Rank(c, e.sender));
      NextIdIs(c.roles);
      NewRoleOutcome(l, e, DoCreateRole(c, e.sender, r.name, r.color, r.permissions, r.hoist, r.mentionable, e.now));
    } else {
      Outcome(l, e, DoCreateRole(c, e.sender, r.name, r.color, r.permissions, r.hoist, r.mentionable, e.now));
    }
  }

  lemma {:induction false} NewRoleOutcome(l: Live, e: Event, decided: (Effect, Response))
    requires e.Call? && decided.0.AddRole?
    requires Decide(l.memory, e.sender, e.request, e.now, e.freshId, e.freshKey) == decided
    ensures if decided.0.role in l.tables.roles then Refused(l, e, 500)
            else Does(l, e, Apply(l.memory, decided.0), decided.1)
  {
    hide Decide;
  }

  lemma {:induction false} NextIdIs(roles: map<RoleId, Role>)
    ensures if roles == map[] then NextRoleId(roles) == 1 else NextRoleId(roles) - 1 in roles
  {
    if r :| r in roles { assert r in (set k | k in roles :: k); }
  }

  function Chosen<T>(new_: Option<T>, current: T): T {
    if new_.Some? then new_.value else current
  }

  lemma {:induction false} EditRoleDoes(l: Live, e: Event)
    requires e.Call? && e.request.EditRole?
    ensures var c, id, edit := l.memory, e.request.id, e.request.edit;
      if !Can(c, e.sender, MANAGE_ROLES, e.now) then Refused(l, e, 403)
      else if id !in c.roles then Refused(l, e, 404)
      else if !RoleBelow(c, e.sender, id) && !HasBit(c, e.sender, ADMINISTRATOR) then Refused(l, e, 403)
      else
        var r := c.roles[id];
        var edited := Role(Chosen(edit.name, r.name), Chosen(edit.color, r.color),
                           Chosen(edit.permissions, r.permissions), Chosen(edit.position, r.position),
                           Chosen(edit.hoist, r.hoist), Chosen(edit.mentionable, r.mentionable));
        Does(l, e, c.(roles := c.roles[id := edited]), Ok)
  {
    hide Can, Cleared, RoleBelow, HasBit, Rank, BasePermissions, Step, Resolve;
    Outcome(l, e, DoEditRole(l.memory, e.sender, e.request.id, e.request.edit, e.now));
    ClearedIs(l.memory, e.sender, MANAGE_ROLES, e.now);
    BasePermissionsAre(l.memory, e.sender, MANAGE_ROLES, e.now);
    RoleBelowIs(l.memory, e.sender, e.request.id);
  }

  lemma {:induction false} DeleteRoleDoes(l: Live, e: Event)
    requires e.Call? && e.request.DeleteRole?
    ensures var c, id, c' := l.memory, e.request.id, Step(l, e).0.memory;
      if id == 0 then Refused(l, e, 400)
      else if !Can(c, e.sender, MANAGE_ROLES, e.now) || !RoleBelow(c, e.sender, id) then Refused(l, e, 403)
      else
        && Step(l, e).1 == Ok
        && c' == c.(roles := c.roles - {id}, members := c'.members)
        && c'.members.Keys == c.members.Keys
        && (forall p :: p in c.members ==> c'.members[p] == c.members[p].(roles := c.members[p].roles - {id}))
  {
    hide Can, Cleared, RoleBelow, PositionOf, Rank, Step, Resolve;
    Outcome(l, e, DoDeleteRole(l.memory, e.sender, e.request.id, e.now));
    ClearedIs(l.memory, e.sender, MANAGE_ROLES, e.now);
    RoleBelowIs(l.memory, e.sender, e.request.id);
  }

  /** Granted, the target holds the role afterwards; everybody and everything else is as before. */
  lemma {:induction false} AssignRoleDoes(l: Live, e: Event)
    requires e.Call? && e.request.AssignRole?
    ensures var c, p, target, id := l.memory, e.sender, e.request.target, e.request.id;
      if !Can(c, p, MANAGE_ROLES, e.now) || !Above(c, p, target) || !RoleBelow(c, p, id) then Refused(l, e, 403)
      else if target !in c.members then Refused(l, e, 404)
      else
        var m := c.members[target];
        Does(l, e, c.(members := c.members[target := m.(roles := m.roles + {id})]), Ok)
  {
    hide Can, Cleared, Above, Outranks, RoleBelow, PositionOf, Rank, Step, Resolve;
    Outcome(l, e, DoAssignRole(l.memory, e.sender, e.request.target, e.request.id, e.now));
    ClearedIs(l.memory, e.sender, MANAGE_ROLES, e.now);
    AboveIs(l.memory, e.sender, e.request.target);
    RoleBelowIs(l.memory, e.sender, e.request.id);
    var c, target, id := l.memory, e.request.target, e.request.id;
    if target in c.members && id in c.members[target].roles {
      assert c.members[target].roles + {id} == c.members[target].roles;
      assert c.members[target := c.members[target]] == c.members;
    }
  }

  lemma {:induction false} UnassignRoleDoes(l: Live, e: Event)
    requires e.Call? && e.request.UnassignRole?
    ensures var c, p, target, id := l.memory, e.sender, e.request.target, e.request.id;
      if id == 0 then Refused(l, e, 400)
      else if !Can(c, p, MANAGE_ROLES, e.now) || !Above(c, p, target) then Refused(l, e, 403)
      else if target !in c.members then Refused(l, e, 404)
      else
        var m := c.members[target];
        Does(l, e, c.(members := c.members[target := m.(roles := m.roles - {id})]), Ok)
  {
    hide Can, Cleared, Above, Outranks, Step, Resolve;
    Outcome(l, e, DoUnassignRole(l.memory, e.sender, e.request.target, e.request.id, e.now));
    ClearedIs(l.memory, e.sender, MANAGE_ROLES, e.now);
    AboveIs(l.memory, e.sender, e.request.target);
  }

  // --- timeouts ---

  /** The end of a timeout: the sum of two 64-bit numbers, wrapped when it has more than 64 bits. */
  lemma {:induction false} UntilIs(now: nat, duration: nat)
    requires now < 0x1_0000_0000_0000_0000 && duration < 0x1_0000_0000_0000_0000
    ensures Until(now, duration) == if now + duration < 0x1_0000_0000_0000_0000 then now + duration
                                    else now + duration - 0x1_0000_0000_0000_0000
  {
  }

  lemma {:induction false} TimeoutMemberDoes(l: Live, e: Event)
    requires e.Call? && e.request.TimeoutMember?
    requires e.now < 0x1_0000_0000_0000_0000 && e.request.duration < 0x1_0000_0000_0000_0000
    ensures var c, p, target := l.memory, e.sender, e.request.target;
      if !Can(c, p, MODERATE_MEMBERS, e.now) || !Above(c, p, target) then Refused(l, e, 403)
      else if target !in c.members then Refused(l, e, 404)
      else
        var m, sum := c.members[target], e.now + e.request.duration;
        var end := if sum < 0x1_0000_0000_0000_0000 then sum else sum - 0x1_0000_0000_0000_0000;
        Does(l, e, c.(members := c.members[target := m.(timeout := Some(end))]), Ok)
  {
    hide Can, Cleared, Above, Outranks, Until, Step, Resolve;
    Outcome(l, e, DoTimeout(l.memory, e.sender, e.request.target, e.request.duration, e.now));
    ClearedIs(l.memory, e.sender, MODERATE_MEMBERS, e.now);
    AboveIs(l.memory, e.sender, e.request.target);
    UntilIs(e.now, e.request.duration);
  }

  lemma {:induction false} RemoveTimeoutDoes(l: Live, e: Event)
    requires e.Call? && e.request.RemoveTimeout?
    ensures var c, target := l.memory, e.request.target;
      if !Can(c, e.sender, MODERATE_MEMBERS, e.now) then Refused(l, e, 403)
      else if target !in c.members then Does(l, e, c, Ok)
      else Does(l, e, c.(members := c.members[target := c.members[target].(timeout := None)]), Ok)
  {
    hide Can, Cleared, Step, Resolve;
    Outcome(l, e, DoRemoveTimeout(l.memory, e.sender, e.request.target, e.now));
    ClearedIs(l.memory, e.sender, MODERATE_MEMBERS, e.now);
  }

  // ---------------------------------------------------------------------------
  // Together
  // ---------------------------------------------------------------------------

  lemma {:induction false} DeniedRoleFails(c: Community, p: Pseudonym, channel: ChannelId, r: RoleId, b: nat, now: nat)
    requires p in c.members && r in c.members[p].roles && 0 < r < TWO_TO_THE_32 && channel in c.channels
    requires c.channels[channel].overwrites == map[Target(RoleTarget, Decimal(r)) := Overwrite({}, {SEND_MESSAGES})]
    requires b == SEND_MESSAGES || !HasBit(c, p, b)
    ensures !Passes(c, p, channel, b, now)
  {
    hide HasBit, Silenced, Spells;
    var t := Target(RoleTarget, Decimal(r));
    assert Spells(Decimal(r), r) by { Spelled(r); }
    assert ForHeldRole(t, c.members[p].roles);
    assert b == SEND_MESSAGES ==> Denies(c.channels[channel].overwrites, t, b);
  }

  lemma Spelled(n: nat)
    ensures Spells(Decimal(n), n)
  {
    assert Zeros(0) + Decimal(n) == Decimal(n);
  }

  /** One overwrite that denies writing to a role keeps its holders from writing, whatever the role's id. */
  lemma {:induction false} DeniedRoleCannotWrite(l: Live, e: Event, r: RoleId)
    requires e.Call? && e.request.SendMessage? && 0 < r < TWO_TO_THE_32
    requires var c, p := l.memory, e.sender;
      && p in c.members && r in c.members[p].roles && !HasBit(c, p, ADMINISTRATOR)
      && e.request.channel in c.channels
      && c.channels[e.request.channel].overwrites ==
           map[Target(RoleTarget, Decimal(r)) := Overwrite({}, {SEND_MESSAGES})]
    ensures Refused(l, e, 403)
  {
    hide HasBit, Refused, Does, Passes, Decimal;
    SendMessageDoes(l, e);
    DeniedRoleFails(l.memory, e.sender, e.request.channel, r, SEND_MESSAGES, e.now);
    DeniedRoleFails(l.memory, e.sender, e.request.channel, r, ADMINISTRATOR, e.now);
  }

  lemma {:induction false} LastSorted(rows: seq<Message>, m: Message)
    requires forall n :: n in rows ==> n.timestamp <= m.timestamp
    ensures SortBy(rows + [m], BY_TIME) == SortBy(rows, BY_TIME) + [m]
  {
    SortPush(rows, m, BY_TIME);
    SortKeeps(rows, BY_TIME);
    var sorted := SortBy(rows, BY_TIME);
    if sorted != [] {
      var last := sorted[|sorted| - 1];
      assert last in multiset(rows);
      var i :| 0 <= i < |rows| && rows[i] == last;
    }
  }

  ghost predicate NoneLater(rows: seq<Message>, channel: ChannelId, now: nat) {
    forall m :: m in rows && m.channel == channel ==> m.timestamp <= now
  }

  lemma {:induction false} ChannelTimes(log: seq<Message>, channel: ChannelId, now: nat)
    requires NoneLater(log, channel, now)
    ensures forall m :: m in InChannel(log, channel) ==> m.timestamp <= now
  {
    if log != [] { ChannelTimes(log[..|log| - 1], channel, now); }
  }

  /** What is sent is what is read: a message just accepted is the last of the page that any member asks for next. */
  lemma {:induction false} SentIsRead(l: Live, e: Event, ask: Event)
    requires e.Call? && e.request.SendMessage? && Step(l, e).1 == Ok
    requires NoneLater(l.memory.log, e.request.channel, e.now)
    requires ask.Call? && ask.request.GetMessages? && ask.request.channel == e.request.channel
    requires ask.request.before == None && ask.request.limit >= 1 && ask.sender in l.memory.members
    ensures var answer := Step(Step(l, e).0, ask).1;
      && answer.Messages? && answer.messages != []
      && answer.messages[|answer.messages| - 1] ==
           Message(e.request.channel, e.sender, e.request.ciphertext, e.request.generation, e.now)
  {
    var c, channel := l.memory, e.request.channel;
    var m := Message(channel, e.sender, e.request.ciphertext, e.request.generation, e.now);
    SendMessageDoes(l, e);
    assert Step(l, e).0.memory == c.(log := c.log + [m]) by { hide Step, CanWrite; }
    ChannelTimes(c.log, channel, e.now);
    assert (c.log + [m])[..|c.log|] == c.log;
    assert InChannel(c.log + [m], channel) == InChannel(c.log, channel) + [m];
    LastSorted(InChannel(c.log, channel), m);
    var after := Step(l, e).0;
    hide Step, Resolve, CanWrite, SortBy;
    Outcome(after, ask, Decide(after.memory, ask.sender, ask.request, ask.now, ask.freshId, ask.freshKey));
  }

  // ---------------------------------------------------------------------------
  // A new community
  // ---------------------------------------------------------------------------

  /** The default roles form a ladder: each grants what the one below does, and these bits besides. */
  lemma {:induction false} DefaultRolesGrant(id: RoleId, b: nat)
    requires id < 5
    ensures b in DefaultRole(id).permissions <==>
            || b in {6, 10, 11, 14, 15, 16, 18, 20, 21, 25, 26}
            || (id >= 1 && b == 0)
            || (id >= 2 && b in {1, 13, 22, 23, 40})
            || (id >= 3 && b in {2, 4, 5, 7, 27, 28})
            || (id == 4 && b in {3, 8, 9, 17, 24, 34, 35, 36})
    ensures DefaultRole(id).position == id
  {
  }

  /** Hosting starts with the default roles, the first key under generation 1, and nobody. */
  lemma {:induction false} NewMemoryIs(key: Key)
    ensures var c := NewLive(key).memory;
      && c.creator == "" && c.members == map[] && c.channels == map[] && c.bans == map[] && c.log == []
      && c.generation == 1 && c.keys == map[1 := key]
      && (forall id: RoleId :: id in c.roles <==> id < 5)
      && (forall id: RoleId :: id < 5 ==> c.roles[id] == DefaultRole(id))
  {
    hide DefaultRole;
  }
}
