/**
 The server's handlers over its in-memory vectors and its tables. Each one answers as `CommunityModel` says, changes
 memory by the effect the model decides on, and writes the statements that stand for that effect.
 */
module Server {
  import opened Common
  import opened KeyedVec
  import opened Permissions
  import opened CommunityModel
  import opened Database
  import opened MessagePaging
  import opened ServerState
  import opened Sorting

  class CommunityServer {
    var creator: Pseudonym
    var members: Roster
    var channels: Channels
    var roles: RoleList
    var generation: nat
    var key: Key
    var db: Tables

    ghost predicate Valid()
      reads this
    {
      && ProperRoster(members)
      && ProperChannels(channels)
      && Distinct(roles)
      && db.channels.Keys == ChannelMap(channels).Keys
      && generation in db.keys && db.keys[generation] == key
      && (forall g :: g in db.keys ==> g <= generation)
    }

    /** The community this server holds: memory, with bans, key history and messages from the tables. */
    ghost function View(): Community
      reads this
    {
      Community(creator, RosterMap(members), ToMap(roles), ChannelMap(channels), db.bans, db.keys, generation,
                db.messages)
    }

    /** Memory and tables have gone through `effect` since they were `c` and `t`. */
    ghost predicate Performed(c: Community, t: Tables, effect: Effect)
      reads this
    {
      Valid() && View() == Apply(c, effect) && db == Persist(t, c.generation, effect)
    }

    // -------------------------------------------------------------------------
    // Checks
    // -------------------------------------------------------------------------

    predicate VerifyMembership(sender: Pseudonym)
      reads this
    {
      creator == sender || Contains(members, sender)
    }

    method MemberBasePermissions(p: Pseudonym, now: nat) returns (perms: Mask)
      ensures perms == BasePermissions(View(), p, now)
    {
      if !Contains(members, p) {
        return {};
      }
      var m := Get(members, p);
      var none: seq<Entry<Target, Overwrite>> := [];
      assert ToMap(none) == map[];
      perms := CalculatePermissions(m.roleIds, roles, none, p, m.timeout, now);
    }

    method CheckPermission(sender: Pseudonym, required: nat, now: nat) returns (ok: bool)
      ensures ok == MayDo(View(), sender, required, now)
    {
      if creator != "" && creator == sender {
        return true;
      }
      var perms := MemberBasePermissions(sender, now);
      return HasPermission(perms, required);
    }

    method VerifyAndCheck(sender: Pseudonym, required: nat, now: nat) returns (ok: bool)
      ensures ok == Cleared(View(), sender, required, now)
    {
      if !VerifyMembership(sender) {
        return false;
      }
      ok := CheckPermission(sender, required, now);
    }

    method HighestRolePosition(p: Pseudonym) returns (top: I32)
      ensures top == Rank(View(), p)
    {
      if !Contains(members, p) {
        return -1;
      }
      HighestIsTop(Get(members, p).roleIds, roles);
      return HighestPosition(Get(members, p).roleIds, roles);
    }

    method CheckHierarchy(sender: Pseudonym, target: Pseudonym) returns (ok: bool)
      ensures ok == Outranks(View(), sender, target)
    {
      if creator != "" && creator == sender {
        return true;
      }
      var mine := HighestRolePosition(sender);
      var theirs := HighestRolePosition(target);
      return mine > theirs;
    }

    method RolePosition(id: RoleId) returns (position: I32)
      ensures position == PositionOf(View().roles, id)
    {
      position := if Contains(roles, id) then Get(roles, id).position else I32_MAX;
    }

    // -------------------------------------------------------------------------
    // Leave, kick, ban, rotation
    // -------------------------------------------------------------------------

    /** `rotate_mek`, with the new key as current one. */
    method RotateKey(freshKey: Key)
      requires Valid()
      modifies this`generation, this`key, this`db
      ensures Performed(old(View()), old(db), Rotate(freshKey))
    {
      hide ToMap, RosterMap, ChannelMap, ProperRoster, ProperChannels, Distinct;
      var next := generation + 1;
      db := InsertKey(db, next, freshKey);
      generation, key := next, freshKey;
    }

    method RemoveAndRotate(p: Pseudonym, freshKey: Key)
      requires Valid()
      modifies this
      ensures Performed(old(View()), old(db), Depart(p, freshKey))
    {
      hide ToMap, RosterMap, ChannelMap, DeleteMember, ProperRoster, ProperChannels, Distinct;
      ghost var before, tables := View(), db;
      DeleteMemberTouches(db, p);
      db := DeleteMember(db, p);
      RemoveMember(members, p);
      members := Without(members, p);
      assert View() == before.(members := before.members - {p});
      RotateKey(freshKey);
    }

    method HandleLeave(sender: Pseudonym, freshKey: Key) returns (r: Response)
      requires Valid()
      modifies this
      ensures var (effect, answer) := DoLeave(old(View()), sender, freshKey);
        r == answer && Performed(old(View()), old(db), effect)
    {
      if !VerifyMembership(sender) {
        return Error(403);
      }
      RemoveAndRotate(sender, freshKey);
      return Ok;
    }

    method HandleKick(sender: Pseudonym, target: Pseudonym, now: nat, freshKey: Key) returns (r: Response)
      requires Valid()
      modifies this
      ensures var (effect, answer) := DoKick(old(View()), sender, target, now, freshKey);
        r == answer && Performed(old(View()), old(db), effect)
    {
      var allowed := CheckPermission(sender, KICK_MEMBERS, now);
      if !allowed {
        return Error(403);
      }
      if sender == target {
        return Error(400);
      }
      var outranks := CheckHierarchy(sender, target);
      if !outranks {
        return Error(403);
      }
      r := HandleLeave(target, freshKey);
    }

    method RecordBanAndLeave(target: Pseudonym, ban: Ban, freshKey: Key) returns (r: Response)
      requires Valid()
      modifies this
      ensures var c := old(View());
        r == DoLeave(c, target, freshKey).1
        && Performed(c, old(db), Exile(target, ban, IsMember(c, target), freshKey))
    {
      hide ToMap, RosterMap, ChannelMap, DeleteMember, ProperRoster, ProperChannels, Distinct;
      ghost var before, tables := View(), db;
      db := db.(bans := db.bans[target := ban]);
      assert View() == before.(bans := before.bans[target := ban]);
      assert Valid();
      r := HandleLeave(target, freshKey);
    }

    method HandleBan(sender: Pseudonym, target: Pseudonym, now: nat, freshKey: Key) returns (r: Response)
      requires Valid()
      modifies this
      ensures var (effect, answer) := DoBan(old(View()), sender, target, now, freshKey);
        r == answer && Performed(old(View()), old(db), effect)
    {
      var allowed := VerifyAndCheck(sender, BAN_MEMBERS, now);
      if !allowed {
        return Error(403);
      }
      if sender == target {
        return Error(400);
      }
      var outranks := CheckHierarchy(sender, target);
      if !outranks {
        return Error(403);
      }
      var ban := Ban(if Contains(members, target) then Get(members, target).name else "", now);
      r := RecordBanAndLeave(target, ban, freshKey);
    }

    method HandleUnban(sender: Pseudonym, target: Pseudonym, now: nat) returns (r: Response)
      requires Valid()
      modifies this
      ensures var (effect, answer) := DoUnban(old(View()), sender, target, now);
        r == answer && Performed(old(View()), old(db), effect)
    {
      var allowed := VerifyAndCheck(sender, BAN_MEMBERS, now);
      if !allowed {
        return Error(403);
      }
      db := db.(bans := db.bans - {target});
      return Ok;
    }

    method HandleRotateMek(sender: Pseudonym, now: nat, freshKey: Key) returns (r: Response)
      requires Valid()
      modifies this
      ensures var (effect, answer) := DoRotate(old(View()), sender, now, freshKey);
        r == answer && Performed(old(View()), old(db), effect)
    {
      var allowed := VerifyAndCheck(sender, MANAGE_COMMUNITY, now);
      if !allowed {
        return Error(403);
      }
      RotateKey(freshKey);
      return Ok;
    }

    // -------------------------------------------------------------------------
    // Join and rejoin
    // -------------------------------------------------------------------------

    method BuildJoined(roleIds: seq<RoleId>) returns (r: Response)
      requires Valid()
      ensures r == Welcome(View(), ElementsOf(roleIds))
    {
      var infos := ListChannels(channels);
      var defs := ListRoles(roles);
      return Joined(generation, key, infos, (set i | i in roleIds), defs);
    }

    /** The entry of a member, if it is on the roster. */
    method FindMember(p: Pseudonym) returns (m: Option<ServerMember>)
      requires Valid()
      ensures m.Some? <==> p in View().members
      ensures m.Some? ==> MemberOf(m.value) == View().members[p] && NoRepeats(m.value.roleIds)
    {
      hide ToMap, RosterMap, ChannelMap, ProperRoster, ProperChannels, Distinct;
      RosterHas(members, p);
      if !Contains(members, p) {
        return None;
      }
      return Some(Get(members, p));
    }

    /** Overwrite one member's record in the roster. */
    method SetMember(p: Pseudonym, m: ServerMember, ghost edit: MemberEdit)
      requires Valid() && p in View().members && NoRepeats(m.roleIds)
      requires MemberOf(m) == Adjusted(View().members[p], edit)
      modifies this`members
      ensures Valid()
      ensures View() == Apply(old(View()), Adjust(p, edit))
    {
      hide ToMap, RosterMap, ChannelMap, ProperRoster, ProperChannels, Adjusted, MemberOf, Distinct;
      RosterHas(members, p);
      UpdateMember(members, p, m);
      members := members[Find(members, p) := Entry(p, m)];
    }

    /** The edit of a member's record followed by its statement. */
    method AdjustMember(p: Pseudonym, m: ServerMember, edit: MemberEdit)
      requires Valid() && p in View().members && NoRepeats(m.roleIds)
      requires MemberOf(m) == Adjusted(View().members[p], edit)
      modifies this
      ensures Performed(old(View()), old(db), Adjust(p, edit))
    {
      hide ToMap, RosterMap, ChannelMap, ProperRoster, ProperChannels, Adjusted, MemberOf, Distinct;
      SetMember(p, m, edit);
      EditTouches(db, p, edit);
      match edit {
        case Reroute(route) => db := UpdateRoute(db, p, route);
        case Grant(id) => db := InsertMemberRole(db, p, id);
        case Revoke(id) => db := DeleteMemberRole(db, p, id);
        case SetTimeout(until) => db := ReplaceTimeout(db, p, until);
        case ClearTimeout => db := DeleteTimeout(db, p);
      }
    }

    method HandleRejoin(p: Pseudonym, route: Option<Bytes>) returns (r: Option<Response>)
      requires Valid()
      modifies this
      ensures r.None? <==> p !in old(View()).members
      ensures r.None? ==> View() == old(View()) && db == old(db) && Valid()
      ensures r.Some? ==>
                var c := old(View());
                r.value == Welcome(c, c.members[p].roles)
                && Performed(c, old(db), if route.Some? then Adjust(p, Reroute(route.value)) else Nothing)
    {
      hide View, Valid;
      var m := FindMember(p);
      if m.None? {
        return None;
      }
      var joined := BuildJoined(m.value.roleIds);
      if route.Some? {
        AdjustMember(p, m.value.(route := route), Reroute(route.value));
      }
      return Some(joined);
    }

    /** The member's row and its role rows, each unless it is there already. */
    method InsertRows(p: Pseudonym, name: string, roleIds: seq<RoleId>, now: nat)
      modifies this`db
      ensures db == InsertMemberAndRoles(old(db), p, name, now, ElementsOf(roleIds))
    {
      db := InsertMember(db, p, MemberRow(name, now, None));
      ghost var inserted := db;
      for i := 0 to |roleIds|
        invariant db == inserted.(memberRoles :=
                          inserted.memberRoles + (set x | x in ElementsOf(roleIds[..i]) :: (p, x)))
      {
        assert roleIds[..i + 1] == roleIds[..i] + [roleIds[i]];
        ElementsPush(roleIds[..i], roleIds[i]);
        db := InsertMemberRole(db, p, roleIds[i]);
      }
      assert roleIds[..|roleIds|] == roleIds;
    }

    /** Append the new member in memory, as creator if the roster was empty. */
    method PushNewMember(p: Pseudonym, m: ServerMember, founds: bool)
      requires Valid() && p !in View().members && NoRepeats(m.roleIds)
      modifies this`members, this`creator
      ensures Valid() && View() == Apply(old(View()), Admit(p, MemberOf(m), founds))
    {
      hide ToMap, RosterMap, ChannelMap, ProperRoster, ProperChannels, Distinct, MemberOf;
      RosterHas(members, p);
      if founds {
        creator := p;
      }
      PushMember(members, p, m);
      members := members + [Entry(p, m)];
    }

    /** The rows of a new member, the creator if the roster was empty, and the route if one was given. */
    method InsertNewMember(p: Pseudonym, m: ServerMember, founds: bool, now: nat)
      requires m.joinedAt == now
      modifies this`db
      ensures db == PersistAdmit(old(db), p, MemberOf(m), founds)
    {
      hide InsertMemberAndRoles;
      InsertRows(p, m.name, m.roleIds, now);
      if founds {
        db := UpdateCreator(db, p);
      }
      if m.route.Some? {
        db := UpdateRoute(db, p, m.route.value);
      }
    }

    /** A new member in memory and in the tables. */
    method Enroll(p: Pseudonym, m: ServerMember, founds: bool, now: nat)
      requires Valid() && p !in View().members && NoRepeats(m.roleIds) && m.joinedAt == now
      modifies this`members, this`creator, this`db
      ensures Performed(old(View()), old(db), Admit(p, MemberOf(m), founds))
    {
      hide ToMap, ChannelMap, RosterMap, ProperRoster, ProperChannels, Distinct, PersistAdmit, ElementsOf, NoRepeats;
      PushNewMember(p, m, founds);
      AdmitTouches(db, p, MemberOf(m), founds);
      InsertNewMember(p, m, founds, now);
    }

    method AddNewMember(p: Pseudonym, name: string, route: Option<Bytes>, now: nat) returns (r: Response)
      requires Valid() && p !in View().members
      modifies this
      ensures var c := old(View());
        var first := c.members == map[];
        var held := if first then OWNER_ROLES else JOINER_ROLES;
        r == Welcome(c, held)
        && Performed(c, old(db), Admit(p, Member(name, now, route, held, None), first))
    {
      hide ToMap, ChannelMap, RosterMap, ProperRoster, ProperChannels, Distinct, PersistAdmit, Welcome, ElementsOf,
           NoRepeats;
      var first := |members| == 0;
      EmptyRoster(members);
      var roleIds: seq<RoleId> := if first then [0, 1, 2, 3, 4] else [0, 1];
      DefaultIds(roleIds);
      r := BuildJoined(roleIds);
      var m := ServerMember(name, now, route, roleIds, None);
      Enroll(p, m, first, now);
    }

    method HandleJoin(p: Pseudonym, name: string, route: Option<Bytes>, now: nat) returns (r: Response)
      requires Valid()
      modifies this
      ensures var (effect, answer) := DoJoin(old(View()), p, name, route, now);
        r == answer && Performed(old(View()), old(db), effect)
    {
      hide Valid;
      if p in db.bans {
        return Error(403);
      }
      var again := HandleRejoin(p, route);
      if again.Some? {
        return again.value;
      }
      r := AddNewMember(p, name, route, now);
    }

    // -------------------------------------------------------------------------
    // Messages and keys
    // -------------------------------------------------------------------------

    /** SEND_MESSAGES in a channel; somebody off the roster is not asked for it. */
    method CheckSend(sender: Pseudonym, channel: ChannelId, now: nat) returns (ok: bool)
      requires Valid()
      ensures ok == MaySend(View(), sender, channel, now)
    {
      hide Effective;
      if !Contains(members, sender) {
        return true;
      }
      var m := Get(members, sender);
      var overwrites: seq<Entry<Target, Overwrite>> := [];
      assert ToMap(overwrites) == map[];
      if Contains(channels, channel) {
        overwrites := Get(channels, channel).overwrites;
        assert channels[Find(channels, channel)].val.overwrites == overwrites;
      }
      var perms := CalculatePermissions(m.roleIds, roles, overwrites, sender, m.timeout, now);
      return HasPermission(perms, SEND_MESSAGES);
    }

    method HandleSendMessage(sender: Pseudonym, channel: ChannelId, text: Bytes, sentGeneration: nat, now: nat)
      returns (r: Response)
      requires Valid()
      modifies this
      ensures var (effect, answer) := DoSend(old(View()), sender, channel, text, sentGeneration, now);
        r == answer && Performed(old(View()), old(db), effect)
    {
      hide MaySend;
      if !VerifyMembership(sender) {
        return Error(403);
      }
      var allowed := CheckSend(sender, channel, now);
      if !allowed {
        return Error(403);
      }
      if sentGeneration != generation {
        return Error(409);
      }
      db := db.(messages := db.messages + [Message(channel, sender, text, sentGeneration, now)]);
      return Ok;
    }

    /** The rows a query selects, in insertion order. */
    method SelectRows(channel: ChannelId, before: Option<nat>) returns (rows: seq<Message>)
      ensures rows == Matching(db.messages, channel, before)
    {
      rows := [];
      for i := 0 to |db.messages|
        invariant rows == Matching(db.messages[..i], channel, before)
      {
        var m := db.messages[i];
        assert db.messages[..i + 1] == db.messages[..i] + [m];
        MatchingPush(db.messages[..i], m, channel, before);
        if m.channel == channel && (before.None? || m.timestamp < ToI64(before.value)) {
          rows := rows + [m];
        }
      }
      assert db.messages[..|db.messages|] == db.messages;
    }

    /** The rows sorted newest first, cut to `limit`, and turned round for the reader. */
    static method NewestRows(rows: seq<Message>, limit: nat) returns (page: seq<Message>)
      ensures page == Newest(SortBy(rows, BY_TIME), limit) && IsNewestPage(page, rows, limit)
    {
      NewestIsNewestPage(rows, limit);
      hide SortBy, IsNewestPage, Reversed;
      var newestFirst := Reversed(SortBy(rows, BY_TIME));
      if |newestFirst| > limit {
        newestFirst := newestFirst[..limit];
      }
      ReversedFront(SortBy(rows, BY_TIME), |newestFirst|);
      assert newestFirst == Reversed(SortBy(rows, BY_TIME))[..|newestFirst|];
      return Reversed(newestFirst);
    }

    method HandleGetMessages(sender: Pseudonym, channel: ChannelId, before: Option<nat>, limit: nat)
      returns (r: Response)
      requires Valid()
      ensures r == DoGetMessages(View(), sender, channel, before, limit)
      ensures r.Messages? ==>
                IsNewestPage(r.messages, Matching(View().log, channel, before), Min(limit, 500))
      ensures Performed(View(), db, Nothing)
    {
      hide Matching, SortBy, IsNewestPage, Newest;
      if !VerifyMembership(sender) {
        return Error(403);
      }
      var rows := SelectRows(channel, before);
      var page := NewestRows(rows, Min(limit, PAGE_LIMIT));
      return Messages(page);
    }

    method HandleRequestMek(sender: Pseudonym) returns (r: Response)
      requires Valid()
      ensures r == DoRequestMek(View(), sender)
      ensures Performed(View(), db, Nothing)
    {
      if !VerifyMembership(sender) {
        return Error(403);
      }
      return Mek(generation, key);
    }

    method HandleGetBanList(sender: Pseudonym, now: nat) returns (r: Response)
      requires Valid()
      ensures r == if Cleared(View(), sender, BAN_MEMBERS, now) then BanList(View().bans) else Error(403)
      ensures Performed(View(), db, Nothing)
    {
      var allowed := VerifyAndCheck(sender, BAN_MEMBERS, now);
      if !allowed {
        return Error(403);
      }
      return BanList(db.bans);
    }

    method HandleGetRoles(sender: Pseudonym) returns (r: Response)
      requires Valid()
      ensures r == if IsMember(View(), sender) then RolesList(View().roles) else Error(403)
      ensures Performed(View(), db, Nothing)
    {
      if !VerifyMembership(sender) {
        return Error(403);
      }
      var defs := ListRoles(roles);
      return RolesList(defs);
    }

    // -------------------------------------------------------------------------
    // Channels
    // -------------------------------------------------------------------------

    method HandleCreateChannel(sender: Pseudonym, name: string, kind: string, now: nat, id: ChannelId)
      returns (r: Response)
      requires Valid()
      modifies this
      ensures var (effect, answer) := DoCreateChannel(old(View()), sender, name, kind, now, id);
        r == answer && Performed(old(View()), old(db), effect)
    {
      var allowed := VerifyAndCheck(sender, MANAGE_CHANNELS, now);
      hide ToMap, RosterMap, ChannelMap, ProperRoster, ProperChannels, Cleared;
      if !allowed {
        return Error(403);
      }
      if kind != "text" && kind != "voice" {
        return Error(400);
      }
      ChannelsHave(channels, id);
      ChannelCount(channels);
      var row := ChannelRow(name, kind, Min(|channels|, I32_MAX));
      if id in db.channels {
        return Error(500);
      }
      db := InsertChannel(db, id, row);
      var added := ServerChannel(row, []);
      FreshChannel(added);
      PushChannel(channels, id, added);
      channels := channels + [Entry(id, added)];
      return ChannelCreated(id);
    }

    method HandleDeleteChannel(sender: Pseudonym, id: ChannelId, now: nat) returns (r: Response)
      requires Valid()
      modifies this
      ensures var (effect, answer) := DoDeleteChannel(old(View()), sender, id, now);
        r == answer && Performed(old(View()), old(db), effect)
    {
      hide ToMap, RosterMap, ChannelMap, ProperRoster, ProperChannels, Distinct, MayDo;
      var allowed := VerifyAndCheck(sender, MANAGE_CHANNELS, now);
      if !allowed {
        return Error(403);
      }
      RemoveChannel(channels, id);
      channels := Without(channels, id);
      db := DeleteChannelRow(db, id);
      return Ok;
    }

    /** The entry of a channel, if there is one. */
    method FindChannel(id: ChannelId) returns (ch: Option<ServerChannel>)
      requires Valid()
      ensures ch.Some? <==> id in View().channels
      ensures ch.Some? ==> ChannelOf(ch.value) == View().channels[id] && Distinct(ch.value.overwrites)
    {
      hide ToMap, RosterMap, ChannelMap, ProperRoster, ProperChannels, Distinct;
      ChannelsHave(channels, id);
      if !Contains(channels, id) {
        return None;
      }
      return Some(Get(channels, id));
    }

    /** Overwrite one channel's record. */
    method SetChannel(id: ChannelId, ch: ServerChannel, ghost change: ChannelEdit)
      requires Valid() && id in View().channels && Distinct(ch.overwrites)
      requires ChannelOf(ch) == Altered(View().channels[id], change)
      modifies this`channels
      ensures Valid()
      ensures View() == Apply(old(View()), Alter(id, change))
    {
      hide ToMap, RosterMap, ChannelMap, ProperRoster, ProperChannels, ChannelOf, Altered, Distinct;
      ChannelsHave(channels, id);
      UpdateChannel(channels, id, ch);
      channels := channels[Find(channels, id) := Entry(id, ch)];
    }

    /** The edit of a channel's record followed by its statement. */
    method AlterChannel(id: ChannelId, ch: ServerChannel, change: ChannelEdit)
      requires Valid() && id in View().channels && Distinct(ch.overwrites)
      requires ChannelOf(ch) == Altered(View().channels[id], change)
      modifies this
      ensures Performed(old(View()), old(db), Alter(id, change))
    {
      hide ToMap, RosterMap, ChannelMap, ProperRoster, ProperChannels, Altered, ChannelOf, Distinct;
      SetChannel(id, ch, change);
      AlterTouches(db, id, change);
      match change {
        case Retitle(name) => db := UpdateChannelName(db, id, name);
        case PutOverwrite(targetType, targetId, o) =>
          db := ReplaceOverwrite(db, OverwriteKey(id, targetType, targetId), o);
        case DropOverwrite(targetType, targetId) =>
          db := DeleteOverwriteRow(db, OverwriteKey(id, targetType, targetId));
      }
    }

    method HandleRenameChannel(sender: Pseudonym, id: ChannelId, name: string, now: nat) returns (r: Response)
      requires Valid()
      modifies this
      ensures var (effect, answer) := DoRenameChannel(old(View()), sender, id, name, now);
        r == answer && Performed(old(View()), old(db), effect)
    {
      hide Valid, View, Cleared;
      var allowed := VerifyAndCheck(sender, MANAGE_CHANNELS, now);
      if !allowed {
        return Error(403);
      }
      var ch := FindChannel(id);
      if ch.None? {
        return Error(404);
      }
      AlterChannel(id, ch.value.(row := ch.value.row.(name := name)), Retitle(name));
      return Ok;
    }

    method HandleSetOverwrite(sender: Pseudonym, id: ChannelId, targetType: string, targetId: string, o: Overwrite,
                              now: nat) returns (r: Response)
      requires Valid()
      modifies this
      ensures var (effect, answer) := DoSetOverwrite(old(View()), sender, id, targetType, targetId, o, now);
        r == answer && Performed(old(View()), old(db), effect)
    {
      hide Valid, View, Cleared;
      var allowed := VerifyAndCheck(sender, MANAGE_ROLES, now);
      if !allowed {
        return Error(403);
      }
      var ch := FindChannel(id);
      if ch.None? {
        return Error(404);
      }
      var upserted := Upsert(ch.value.overwrites, Target(KindOf(targetType), targetId), o);
      AlterChannel(id, ch.value.(overwrites := upserted), PutOverwrite(targetType, targetId, o));
      return Ok;
    }

    method HandleDeleteOverwrite(sender: Pseudonym, id: ChannelId, targetType: string, targetId: string, now: nat)
      returns (r: Response)
      requires Valid()
      modifies this
      ensures var (effect, answer) := DoDeleteOverwrite(old(View()), sender, id, targetType, targetId, now);
        r == answer && Performed(old(View()), old(db), effect)
    {
      hide Cleared;
      var allowed := VerifyAndCheck(sender, MANAGE_ROLES, now);
      if !allowed {
        return Error(403);
      }
      var ch := FindChannel(id);
      hide ToMap, RosterMap, ChannelMap, ProperRoster, ProperChannels;
      if ch.None? {
        AlterTouches(db, id, DropOverwrite(targetType, targetId));
        db := DeleteOverwriteRow(db, OverwriteKey(id, targetType, targetId));
        return Ok;
      }
      var t := Target(KindOf(targetType), targetId);
      WithoutMap(ch.value.overwrites, t);
      AlterChannel(id, ch.value.(overwrites := Without(ch.value.overwrites, t)), DropOverwrite(targetType, targetId));
      return Ok;
    }

    // -------------------------------------------------------------------------
    // Roles
    // -------------------------------------------------------------------------

    /** One above the greatest id in use; 1 when there are no roles. */
    method NextId() returns (id: RoleId)
      ensures id == NextRoleId(View().roles)
    {
      NextIdIsFresh(roles);
      return MaxId(roles) + 1;
    }

    /** Insert a role's row and append its definition. */
    method AppendRole(id: RoleId, role: Role)
      requires Valid() && id !in View().roles && id !in db.roles
      modifies this
      ensures Performed(old(View()), old(db), AddRole(id, role))
    {
      hide ToMap, RosterMap, ChannelMap, ProperRoster, ProperChannels, Distinct;
      db := InsertRole(db, id, role);
      PushMap(roles, id, role);
      roles := roles + [Entry(id, role)];
    }

    /** A stored row with the new id that memory does not know makes the insert fail; memory is then left alone. */
    method HandleCreateRole(sender: Pseudonym, name: string, color: nat, perms: Mask, hoist: bool, mentionable: bool,
                            now: nat) returns (r: Response)
      requires Valid()
      modifies this
      ensures var c := old(View());
        var (effect, answer) := DoCreateRole(c, sender, name, color, perms, hoist, mentionable, now);
        if effect.AddRole? && effect.role in old(db).roles
        then r == Error(500) && Performed(c, old(db), Nothing)
        else r == answer && Performed(c, old(db), effect)
    {
      hide Valid, View, Cleared, Rank;
      var allowed := VerifyAndCheck(sender, MANAGE_ROLES, now);
      if !allowed {
        return Error(403);
      }
      var id := NextId();
      var mine := HighestRolePosition(sender);
      var role := Role(name, color, perms, if mine > 1 then mine - 1 else 1, hoist, mentionable);
      if id in db.roles {
        return Error(500);
      }
      AppendRole(id, role);
      return RoleCreated(id);
    }

    /** The definition of a role, if there is one. */
    method FindRole(id: RoleId) returns (role: Option<Role>)
      ensures role == if id in View().roles then Some(View().roles[id]) else None
    {
      return if Contains(roles, id) then Some(Get(roles, id)) else None;
    }

    /** Replace a role's definition in memory and in its row. */
    method ReplaceRole(id: RoleId, role: Role)
      requires Valid() && id in View().roles
      modifies this
      ensures Performed(old(View()), old(db), ChangeRole(id, role))
    {
      hide ToMap, RosterMap, ChannelMap, ProperRoster, ProperChannels, Distinct;
      ghost var before, tables := View(), db;
      assert Contains(roles, id);
      UpdateMap(roles, id, role);
      roles := roles[Find(roles, id) := Entry(id, role)];
      db := UpdateRole(db, id, role);
      assert db == tables.(roles := db.roles);
      assert View() == before.(roles := before.roles[id := role]);
    }

    method HandleEditRole(sender: Pseudonym, id: RoleId, e: RoleEdit, now: nat) returns (r: Response)
      requires Valid()
      modifies this
      ensures var (effect, answer) := DoEditRole(old(View()), sender, id, e, now);
        r == answer && Performed(old(View()), old(db), effect)
    {
      hide Valid, View, Cleared, Rank, BasePermissions, Edited;
      var allowed := VerifyAndCheck(sender, MANAGE_ROLES, now);
      if !allowed {
        return Error(403);
      }
      var mine := HighestRolePosition(sender);
      var perms := MemberBasePermissions(sender, now);
      var found := FindRole(id);
      if found.None? {
        return Error(404);
      }
      if found.value.position >= mine && !IsAdministrator(perms) {
        return Error(403);
      }
      var role := Amend(found.value, e);
      ReplaceRole(id, role);
      return Ok;
    }

    /** Remove a role from the definitions and from every member. */
    method RemoveRole(id: RoleId)
      requires Valid()
      modifies this
      ensures Performed(old(View()), old(db), DropRole(id))
    {
      hide ToMap, RosterMap, ChannelMap, ProperRoster, ProperChannels, Stripped, Distinct;
      WithoutMap(roles, id);
      roles := Without(roles, id);
      members := StripRole(members, id);
      db := DeleteRoleRow(db, id);
      db := DeleteRoleAssignments(db, id);
    }

    method HandleDeleteRole(sender: Pseudonym, id: RoleId, now: nat) returns (r: Response)
      requires Valid()
      modifies this
      ensures var (effect, answer) := DoDeleteRole(old(View()), sender, id, now);
        r == answer && Performed(old(View()), old(db), effect)
    {
      hide Valid, View, Cleared, Rank;
      if id == ROLE_EVERYONE_ID {
        return Error(400);
      }
      var allowed := VerifyAndCheck(sender, MANAGE_ROLES, now);
      if !allowed {
        return Error(403);
      }
      var mine := HighestRolePosition(sender);
      var position := RolePosition(id);
      if position >= mine {
        return Error(403);
      }
      RemoveRole(id);
      return Ok;
    }

    /** Assigning a role that is already held writes nothing. */
    method HandleAssignRole(sender: Pseudonym, target: Pseudonym, id: RoleId, now: nat) returns (r: Response)
      requires Valid()
      modifies this
      ensures var c := old(View());
        var (effect, answer) := DoAssignRole(c, sender, target, id, now);
        r == answer && Performed(c, old(db), effect)
    {
      hide Valid, View, Cleared, Rank, Outranks;
      var allowed := VerifyAndCheck(sender, MANAGE_ROLES, now);
      if !allowed {
        return Error(403);
      }
      var outranks := CheckHierarchy(sender, target);
      if !outranks {
        return Error(403);
      }
      var mine := HighestRolePosition(sender);
      var position := RolePosition(id);
      if position >= mine {
        return Error(403);
      }
      var m := FindMember(target);
      if m.None? {
        return Error(404);
      }
      if id !in m.value.roleIds {
        ElementsPush(m.value.roleIds, id);
        AdjustMember(target, m.value.(roleIds := m.value.roleIds + [id]), Grant(id));
      }
      return Ok;
    }

    method HandleUnassignRole(sender: Pseudonym, target: Pseudonym, id: RoleId, now: nat) returns (r: Response)
      requires Valid()
      modifies this
      ensures var (effect, answer) := DoUnassignRole(old(View()), sender, target, id, now);
        r == answer && Performed(old(View()), old(db), effect)
    {
      hide Valid, View, Cleared, Rank, Outranks;
      if id == ROLE_EVERYONE_ID {
        return Error(400);
      }
      var allowed := VerifyAndCheck(sender, MANAGE_ROLES, now);
      if !allowed {
        return Error(403);
      }
      var outranks := CheckHierarchy(sender, target);
      if !outranks {
        return Error(403);
      }
      var m := FindMember(target);
      if m.None? {
        return Error(404);
      }
      DropIdProper(m.value.roleIds, id);
      AdjustMember(target, m.value.(roleIds := DropId(m.value.roleIds, id)), Revoke(id));
      return Ok;
    }

    // -------------------------------------------------------------------------
    // Timeouts
    // -------------------------------------------------------------------------

    method HandleTimeoutMember(sender: Pseudonym, target: Pseudonym, duration: nat, now: nat) returns (r: Response)
      requires Valid()
      modifies this
      ensures var (effect, answer) := DoTimeout(old(View()), sender, target, duration, now);
        r == answer && Performed(old(View()), old(db), effect)
    {
      hide Valid, View, Cleared, Rank, Outranks;
      var allowed := VerifyAndCheck(sender, MODERATE_MEMBERS, now);
      if !allowed {
        return Error(403);
      }
      var outranks := CheckHierarchy(sender, target);
      if !outranks {
        return Error(403);
      }
      var until := Until(now, duration);
      var m := FindMember(target);
      if m.None? {
        return Error(404);
      }
      AdjustMember(target, m.value.(timeout := Some(until)), SetTimeout(until));
      return Ok;
    }

    method HandleRemoveTimeout(sender: Pseudonym, target: Pseudonym, now: nat) returns (r: Response)
      requires Valid()
      modifies this
      ensures var (effect, answer) := DoRemoveTimeout(old(View()), sender, target, now);
        r == answer && Performed(old(View()), old(db), effect)
    {
      hide Cleared;
      var allowed := VerifyAndCheck(sender, MODERATE_MEMBERS, now);
      if !allowed {
        return Error(403);
      }
      var m := FindMember(target);
      hide ToMap, RosterMap, ChannelMap, ProperRoster, ProperChannels;
      if m.None? {
        db := DeleteTimeout(db, target);
      } else {
        AdjustMember(target, m.value.(timeout := None), ClearTimeout);
      }
      return Ok;
    }
  }

  lemma {:induction false} FreshChannel(ch: ServerChannel)
    requires ch.overwrites == []
    ensures ChannelOf(ch) == Channel(ch.row, map[]) && Distinct(ch.overwrites)
  {
  }

  /** The fields of a role that the request names, one after the other. */
  method Amend(role: Role, e: RoleEdit) returns (r: Role)
    ensures r == Edited(role, e)
  {
    r := role;
    if e.name.Some? { r := r.(name := e.name.value); }
    if e.color.Some? { r := r.(color := e.color.value); }
    if e.permissions.Some? { r := r.(permissions := e.permissions.value); }
    if e.position.Some? { r := r.(position := e.position.value); }
    if e.hoist.Some? { r := r.(hoist := e.hoist.value); }
    if e.mentionable.Some? { r := r.(mentionable := e.mentionable.value); }
  }

  /** Replace the overwrite for `t`, or append one. */
  method Upsert(overwrites: seq<Entry<Target, Overwrite>>, t: Target, o: Overwrite)
    returns (r: seq<Entry<Target, Overwrite>>)
    requires Distinct(overwrites)
    ensures Distinct(r) && ToMap(r) == ToMap(overwrites)[t := o]
  {
    hide ToMap;
    if Contains(overwrites, t) {
      UpdateMap(overwrites, t, o);
      r := overwrites[Find(overwrites, t) := Entry(t, o)];
    } else {
      PushMap(overwrites, t, o);
      r := overwrites + [Entry(t, o)];
    }
  }

  /** Every member loses the role, in one pass over the roster. */
  method StripRole(ms: Roster, id: RoleId) returns (r: Roster)
    requires ProperRoster(ms)
    ensures ProperRoster(r)
    ensures RosterMap(r) == Stripped(RosterMap(ms), id)
  {
    r := ms;
    for i := 0 to |r|
      invariant |r| == |ms|
      invariant forall j :: 0 <= j < |ms| ==> r[j] == if j < i then StrippedEntry(ms[j], id) else ms[j]
    {
      r := r[i := StrippedEntry(r[i], id)];
    }
    StrippedRoster(ms, r, id);
  }

  function StrippedEntry(e: Entry<Pseudonym, ServerMember>, id: RoleId): Entry<Pseudonym, ServerMember> {
    Entry(e.key, e.val.(roleIds := DropId(e.val.roleIds, id)))
  }

  lemma {:induction false} SameKeysFind<V, W>(a: seq<Entry<Pseudonym, V>>, b: seq<Entry<Pseudonym, W>>, p: Pseudonym)
    requires |a| == |b| && forall j :: 0 <= j < |a| ==> a[j].key == b[j].key
    ensures Find(a, p) == Find(b, p)
  {
  }

  lemma {:induction false} StrippedRoster(ms: Roster, r: Roster, id: RoleId)
    requires ProperRoster(ms) && |r| == |ms|
    requires forall j :: 0 <= j < |ms| ==> r[j] == StrippedEntry(ms[j], id)
    ensures ProperRoster(r) && RosterMap(r) == Stripped(RosterMap(ms), id)
  {
    hide MemberOf, ToMap, RosterMap, NoRepeats;
    forall j | 0 <= j < |ms| ensures NoRepeats(r[j].val.roleIds) { DropIdProper(ms[j].val.roleIds, id); }
    var a, b := RosterMap(r), Stripped(RosterMap(ms), id);
    forall p ensures (p in a <==> p in b) && (p in a ==> a[p] == b[p]) {
      SameKeysFind(r, ms, p);
      RosterHas(r, p);
      RosterHas(ms, p);
      if Contains(ms, p) { StrippedMember(ms[Find(ms, p)].val, id); }
    }
  }

  lemma {:induction false} StrippedMember(m: ServerMember, id: RoleId)
    ensures var m' := m.(roleIds := DropId(m.roleIds, id));
      MemberOf(m') == MemberOf(m).(roles := MemberOf(m).roles - {id})
  {
  }

  lemma {:induction false} EmptyRoster(ms: Roster)
    ensures |ms| == 0 <==> RosterMap(ms) == map[]
  {
    if |ms| > 0 {
      assert Contains(ms, ms[0].key);
      assert ms[0].key in RosterMap(ms);
    }
  }

  lemma {:induction false} DefaultIds(ids: seq<RoleId>)
    requires ids == [0, 1, 2, 3, 4] || ids == [0, 1]
    ensures ElementsOf(ids) == (if |ids| == 5 then OWNER_ROLES else JOINER_ROLES) && NoRepeats(ids)
  {
  }

  /** The channels as a joiner is told about them. */
  method ListChannels(chs: Channels) returns (infos: map<ChannelId, ChannelInfo>)
    requires Distinct(chs)
    ensures infos == InfosOf(ChannelMap(chs))
  {
    hide ChannelMap;
    infos := map[];
    ListedNone();
    for i := 0 to |chs|
      invariant infos == InfosOf(ChannelMap(chs[..i]))
    {
      ListedOne(chs, i);
      infos := infos[chs[i].key := InfoOf(chs[i].val.row)];
    }
    assert chs[..|chs|] == chs;
  }

  lemma {:induction false} ListedNone()
    ensures InfosOf(ChannelMap([])) == map[]
  {
  }

  lemma {:induction false} ListedOne(chs: Channels, i: nat)
    requires Distinct(chs) && i < |chs|
    ensures InfosOf(ChannelMap(chs[..i + 1])) == InfosOf(ChannelMap(chs[..i]))[chs[i].key := InfoOf(chs[i].val.row)]
  {
    hide ToMap;
    var e := chs[i];
    assert chs[..i + 1] == chs[..i] + [Entry(e.key, e.val)];
    PushMap(chs[..i], e.key, e.val);
    ChannelsPut(ToMap(chs[..i]), e.key, e.val);
  }

  method ListRoles(roles: RoleList) returns (m: map<RoleId, Role>)
    requires Distinct(roles)
    ensures m == ToMap(roles)
  {
    m := map[];
    for i := 0 to |roles|
      invariant m == ToMap(roles[..i])
    {
      assert roles[..i + 1] == roles[..i] + [Entry(roles[i].key, roles[i].val)];
      PushMap(roles[..i], roles[i].key, roles[i].val);
      m := m[roles[i].key := roles[i].val];
    }
    assert roles[..|roles|] == roles;
  }
}
