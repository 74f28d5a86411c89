/**
 Hosting a community: the loaders rebuild the in-memory vectors from the tables, in whatever order rows come.
 */
module Hosting {
  import opened Common
  import opened KeyedVec
  import opened Permissions
  import opened CommunityModel
  import opened Database
  import opened ServerState
  import opened Server

  // ---------------------------------------------------------------------------
  // Loading members
  // ---------------------------------------------------------------------------

  /** One record per member row, with roles and timeout still to be filled in. */
  method LoadMemberRows(rows: map<Pseudonym, MemberRow>) returns (ms: Roster)
    ensures ProperRoster(ms)
    ensures RosterMap(ms) == ReadMembers(rows, {}, map[], 0)
  {
    hide ToMap, NoRepeats;
    ms := [];
    var todo := rows.Keys;
    NothingLoaded();
    while todo != {}
      invariant todo <= rows.Keys
      invariant ProperRoster(ms)
      invariant RosterMap(ms) == ReadMembers(rows - todo, {}, map[], 0)
      decreases todo
    {
      var p :| p in todo;
      var m := ServerMember(rows[p].name, rows[p].joinedAt, rows[p].route, [], None);
      BareMember(m);
      RosterHas(ms, p);
      PushMember(ms, p, m);
      ms := ms + [Entry(p, m)];
      OneMoreRow(rows, todo, p);
      todo := todo - {p};
    }
    assert rows - {} == rows;
  }

  lemma {:induction false} NothingLoaded()
    ensures ProperRoster([]) && RosterMap([]) == map[]
    ensures forall rows: map<Pseudonym, MemberRow> :: ReadMembers(rows - rows.Keys, {}, map[], 0) == map[]
  {
  }

  lemma {:induction false} BareMember(m: ServerMember)
    requires m.roleIds == [] && m.timeout == None
    ensures NoRepeats(m.roleIds)
    ensures MemberOf(m) == ReadMember(MemberRow(m.name, m.joinedAt, m.route), {}, None)
  {
  }

  lemma {:induction false} OneMoreRow(rows: map<Pseudonym, MemberRow>, todo: set<Pseudonym>, p: Pseudonym)
    requires p in todo && p in rows
    ensures ReadMembers(rows - (todo - {p}), {}, map[], 0) ==
            ReadMembers(rows - todo, {}, map[], 0)[p := ReadMember(rows[p], {}, None)]
  {
    assert RolesIn({}, p) == {};
  }

  /** Role rows are pushed onto their member's list. */
  method LoadMemberRoles(bare: Roster, rows: map<Pseudonym, MemberRow>, roleRows: set<(Pseudonym, RoleId)>)
    returns (ms: Roster)
    requires ProperRoster(bare) && RosterMap(bare) == ReadMembers(rows, {}, map[], 0)
    ensures ProperRoster(ms) && RosterMap(ms) == ReadMembers(rows, roleRows, map[], 0)
  {
    hide ToMap, NoRepeats, RosterMap, ReadMembers, MemberOf;
    ms := bare;
    var todo := roleRows;
    assert roleRows - roleRows == {};
    while todo != {}
      invariant todo <= roleRows
      invariant ProperRoster(ms) && RosterMap(ms) == ReadMembers(rows, roleRows - todo, map[], 0)
      decreases todo
    {
      var row :| row in todo;
      RosterHas(ms, row.0);
      if Contains(ms, row.0) {
        var m := Get(ms, row.0);
        RoleRow(rows, roleRows - todo, row, m);
        UpdateMember(ms, row.0, m.(roleIds := m.roleIds + [row.1]));
        ms := ms[Find(ms, row.0) := Entry(row.0, m.(roleIds := m.roleIds + [row.1]))];
      } else {
        StrayRow(rows, roleRows - todo, row);
      }
      assert roleRows - (todo - {row}) == roleRows - todo + {row};
      todo := todo - {row};
    }
    assert roleRows - {} == roleRows;
  }

  /** Reading one more role row adds that role to its member. */
  lemma {:induction false} RoleRow(rows: map<Pseudonym, MemberRow>, seen: set<(Pseudonym, RoleId)>,
                                   row: (Pseudonym, RoleId), m: ServerMember)
    requires row !in seen && NoRepeats(m.roleIds)
    requires var read := ReadMembers(rows, seen, map[], 0); row.0 in read && MemberOf(m) == read[row.0]
    ensures var m' := m.(roleIds := m.roleIds + [row.1]);
      NoRepeats(m'.roleIds) &&
      ReadMembers(rows, seen + {row}, map[], 0) == ReadMembers(rows, seen, map[], 0)[row.0 := MemberOf(m')]
  {
    assert row == (row.0, row.1);
    assert ElementsOf(m.roleIds) == RolesIn(seen, row.0);
    assert row.1 !in ElementsOf(m.roleIds);
    ElementsPush(m.roleIds, row.1);
    assert RolesIn(seen + {row}, row.0) == RolesIn(seen, row.0) + {row.1};
    forall q | q != row.0 ensures RolesIn(seen + {row}, q) == RolesIn(seen, q) {
    }
    var m' := m.(roleIds := m.roleIds + [row.1]);
    assert MemberOf(m') == MemberOf(m).(roles := RolesIn(seen + {row}, row.0));
  }

  lemma {:induction false} StrayRow(rows: map<Pseudonym, MemberRow>, seen: set<(Pseudonym, RoleId)>,
                                    row: (Pseudonym, RoleId))
    requires row.0 !in ReadMembers(rows, seen, map[], 0)
    ensures ReadMembers(rows, seen + {row}, map[], 0) == ReadMembers(rows, seen, map[], 0)
  {
    forall q | q != row.0 ensures RolesIn(seen + {row}, q) == RolesIn(seen, q) {
    }
  }

  /** Timeouts that read back and have not run out are set on their member. */
  method LoadTimeouts(held: Roster, rows: map<Pseudonym, MemberRow>, roleRows: set<(Pseudonym, RoleId)>,
                      timeouts: map<Pseudonym, nat>, now: nat) returns (ms: Roster)
    requires ProperRoster(held) && RosterMap(held) == ReadMembers(rows, roleRows, map[], 0)
    ensures ProperRoster(ms) && RosterMap(ms) == ReadMembers(rows, roleRows, timeouts, now)
  {
    hide ToMap, NoRepeats, RosterMap, ReadMembers, MemberOf;
    ms := held;
    var todo := timeouts.Keys;
    NoTimeouts(rows, roleRows, now);
    assert timeouts - timeouts.Keys == map[];
    while todo != {}
      invariant todo <= timeouts.Keys
      invariant ProperRoster(ms) && RosterMap(ms) == ReadMembers(rows, roleRows, timeouts - todo, now)
      decreases todo
    {
      var p :| p in todo;
      var until := timeouts[p];
      RosterHas(ms, p);
      TimeoutRow(rows, roleRows, timeouts - todo, p, until, now);
      if until < TWO_TO_THE_63 && until > now && Contains(ms, p) {
        var m := Get(ms, p);
        TimedMember(m, until);
        UpdateMember(ms, p, m.(timeout := Some(until)));
        ms := ms[Find(ms, p) := Entry(p, m.(timeout := Some(until)))];
      }
      assert timeouts - (todo - {p}) == (timeouts - todo)[p := until];
      todo := todo - {p};
    }
    assert timeouts - {} == timeouts;
  }

  lemma {:induction false} NoTimeouts(rows: map<Pseudonym, MemberRow>, roleRows: set<(Pseudonym, RoleId)>, now: nat)
    ensures ReadMembers(rows, roleRows, map[], now) == ReadMembers(rows, roleRows, map[], 0)
  {
  }

  lemma {:induction false} TimedMember(m: ServerMember, until: nat)
    ensures MemberOf(m.(timeout := Some(until))) == MemberOf(m).(timeout := Some(until))
  {
  }

  lemma {:induction false} TimeoutRow(rows: map<Pseudonym, MemberRow>, roleRows: set<(Pseudonym, RoleId)>,
                                      seen: map<Pseudonym, nat>, p: Pseudonym, until: nat, now: nat)
    requires p !in seen
    ensures var before := ReadMembers(rows, roleRows, seen, now);
      ReadMembers(rows, roleRows, seen[p := until], now) ==
      if until < TWO_TO_THE_63 && until > now && p in before then before[p := before[p].(timeout := Some(until))]
      else before
  {
  }

  method LoadMembers(t: Tables, now: nat) returns (ms: Roster)
    ensures ProperRoster(ms) && RosterMap(ms) == Load(t, now).members
  {
    hide RosterMap, ProperRoster, ReadMembers, LatestGeneration, ReadChannels;
    ms := LoadMemberRows(t.members);
    ms := LoadMemberRoles(ms, t.members, t.memberRoles);
    ms := LoadTimeouts(ms, t.members, t.memberRoles, t.timeouts, now);
  }

  // ---------------------------------------------------------------------------
  // Loading channels and roles
  // ---------------------------------------------------------------------------

  method LoadChannelRows(rows: map<ChannelId, ChannelRow>) returns (chs: Channels)
    ensures ProperChannels(chs) && ChannelMap(chs) == ReadChannels(rows, map[])
  {
    hide ToMap;
    chs := [];
    var todo := rows.Keys;
    NoChannels();
    assert rows - rows.Keys == map[];
    while todo != {}
      invariant todo <= rows.Keys
      invariant ProperChannels(chs) && ChannelMap(chs) == ReadChannels(rows - todo, map[])
      decreases todo
    {
      var id :| id in todo;
      var ch := ServerChannel(rows[id], []);
      FreshChannel(ch);
      ChannelsHave(chs, id);
      PushChannel(chs, id, ch);
      chs := chs + [Entry(id, ch)];
      OneMoreChannel(rows, todo, id);
      todo := todo - {id};
    }
    assert rows - {} == rows;
  }

  lemma {:induction false} NoChannels()
    ensures ProperChannels([]) && ChannelMap([]) == ReadChannels(map[], map[])
  {
  }

  lemma {:induction false} OneMoreChannel(rows: map<ChannelId, ChannelRow>, todo: set<ChannelId>, id: ChannelId)
    requires id in todo && id in rows
    ensures ReadChannels(rows - (todo - {id}), map[]) ==
            ReadChannels(rows - todo, map[])[id := Channel(rows[id], map[])]
  {
  }

  /** Overwrite rows that read back are pushed onto their channel. */
  method LoadOverwrites(bare: Channels, rows: map<ChannelId, ChannelRow>, overwrites: map<OverwriteKey, Overwrite>)
    returns (chs: Channels)
    requires ProperChannels(bare) && ChannelMap(bare) == ReadChannels(rows, map[])
    requires forall k :: k in overwrites ==> k.channel in rows && k.targetType in TARGET_TYPES
    ensures ProperChannels(chs) && ChannelMap(chs) == ReadChannels(rows, overwrites)
  {
    hide ToMap, ChannelMap, ReadChannels, ChannelOf, Distinct;
    chs := bare;
    var todo := overwrites.Keys;
    assert overwrites - overwrites.Keys == map[];
    while todo != {}
      invariant todo <= overwrites.Keys
      invariant ProperChannels(chs) && ChannelMap(chs) == ReadChannels(rows, overwrites - todo)
      decreases todo
    {
      var k :| k in todo;
      ChannelsHave(chs, k.channel);
      if Contains(chs, k.channel) && Readable(overwrites[k]) {
        var ch := Get(chs, k.channel);
        var ch' := ch.(overwrites := ch.overwrites + [Entry(Target(KindOf(k.targetType), k.targetId), overwrites[k])]);
        OverwriteRow(rows, overwrites - todo, k, overwrites[k], ch, ch');
        UpdateChannel(chs, k.channel, ch');
        chs := chs[Find(chs, k.channel) := Entry(k.channel, ch')];
      } else {
        SkippedRow(rows, overwrites - todo, k, overwrites[k]);
      }
      assert overwrites - (todo - {k}) == (overwrites - todo)[k := overwrites[k]];
      todo := todo - {k};
    }
    assert overwrites - {} == overwrites;
  }

  lemma {:induction false} OneTarget(seen: map<OverwriteKey, Overwrite>, k: OverwriteKey, o: Overwrite, ch: ChannelId)
    requires k !in seen && k.targetType in TARGET_TYPES
    ensures OverwritesIn(seen[k := o], ch) ==
            if ch == k.channel && Readable(o)
            then OverwritesIn(seen, ch)[Target(KindOf(k.targetType), k.targetId) := o]
            else OverwritesIn(seen, ch)
  {
  }

  lemma {:induction false} OverwriteRow(rows: map<ChannelId, ChannelRow>, seen: map<OverwriteKey, Overwrite>,
                                        k: OverwriteKey, o: Overwrite, ch: ServerChannel, ch': ServerChannel)
    requires k !in seen && k.targetType in TARGET_TYPES && Readable(o) && Distinct(ch.overwrites)
    requires var read := ReadChannels(rows, seen); k.channel in read && ChannelOf(ch) == read[k.channel]
    requires ch' == ch.(overwrites := ch.overwrites + [Entry(Target(KindOf(k.targetType), k.targetId), o)])
    ensures Distinct(ch'.overwrites)
    ensures ReadChannels(rows, seen[k := o]) == ReadChannels(rows, seen)[k.channel := ChannelOf(ch')]
  {
    hide OverwritesIn, ToMap;
    var g := Target(KindOf(k.targetType), k.targetId);
    assert ToMap(ch.overwrites) == OverwritesIn(seen, k.channel);
    assert KeyFor(k.channel, g) == k;
    PushMap(ch.overwrites, g, o);
    forall id { OneTarget(seen, k, o, id); }
  }

  lemma {:induction false} SkippedRow(rows: map<ChannelId, ChannelRow>, seen: map<OverwriteKey, Overwrite>,
                                      k: OverwriteKey, o: Overwrite)
    requires k !in seen && k.targetType in TARGET_TYPES
    requires k.channel !in ReadChannels(rows, seen) || !Readable(o)
    ensures ReadChannels(rows, seen[k := o]) == ReadChannels(rows, seen)
  {
    hide OverwritesIn;
    forall id { OneTarget(seen, k, o, id); }
  }

  method LoadChannels(t: Tables) returns (chs: Channels)
    requires Consistent(t)
    ensures ProperChannels(chs) && ChannelMap(chs) == ReadChannels(t.channels, t.overwrites)
  {
    chs := LoadChannelRows(t.channels);
    chs := LoadOverwrites(chs, t.channels, t.overwrites);
  }

  /** Role rows whose mask reads back. */
  method LoadRoles(rows: map<RoleId, Role>) returns (roles: RoleList)
    ensures Distinct(roles) && ToMap(roles) == ReadRoles(rows)
  {
    hide ToMap, ReadRoles, Distinct;
    roles := [];
    var todo := rows.Keys;
    NoRoles();
    assert rows - rows.Keys == map[];
    while todo != {}
      invariant todo <= rows.Keys
      invariant Distinct(roles) && ToMap(roles) == ReadRoles(rows - todo)
      decreases todo
    {
      var r: RoleId :| r in todo;
      ReadOneMore(rows, todo, r);
      if ReadsBack(rows[r].permissions) {
        assert r !in ToMap(roles);
        PushMap(roles, r, rows[r]);
        roles := roles + [Entry(r, rows[r])];
      }
      todo := todo - {r};
    }
    assert rows - {} == rows;
  }

  lemma {:induction false} ReadOneMore(rows: map<RoleId, Role>, todo: set<RoleId>, r: RoleId)
    requires r in todo && todo <= rows.Keys
    ensures r !in ReadRoles(rows - todo)
    ensures ReadRoles(rows - (todo - {r})) ==
            if ReadsBack(rows[r].permissions) then ReadRoles(rows - todo)[r := rows[r]] else ReadRoles(rows - todo)
  {
  }

  lemma {:induction false} NoRoles()
    ensures ToMap<RoleId, Role>([]) == ReadRoles(map[]) && Distinct<RoleId, Role>([])
  {
  }

  // ---------------------------------------------------------------------------
  // Hosting
  // ---------------------------------------------------------------------------

  /** The greatest generation stored, found by going through the rows. */
  method LatestKey(keys: map<nat, Key>) returns (latest: Option<nat>)
    ensures latest == if keys == map[] then None else Some(LatestGeneration(keys))
  {
    latest := None;
    var todo := keys.Keys;
    while todo != {}
      invariant todo <= keys.Keys
      invariant latest.None? <==> todo == keys.Keys
      invariant latest.Some? ==> latest.value in keys && forall g :: g in keys && g !in todo ==> g <= latest.value
      decreases todo
    {
      var g: nat :| g in todo;
      if latest.None? || latest.value < g {
        latest := Some(g);
      }
      todo := todo - {g};
    }
    assert keys == map[] <==> keys.Keys == {};
  }

  function DefaultRoleList(): RoleList {
    seq(5, (i: nat) requires i < 5 => Entry(i, DefaultRole(i)))
  }

  lemma {:induction false} DefaultListMeans()
    ensures Distinct(DefaultRoleList()) && ToMap(DefaultRoleList()) == DefaultRoles()
  {
    hide ToMap, DefaultRole;
    var l := DefaultRoleList();
    forall i: nat | i < 5 ensures Find(l, i) == i { FindsItself(l, i); }
    forall k ensures Contains(l, k) <==> k < 5 {
      if Contains(l, k) { assert l[Find(l, k)].key == k; }
    }
  }

  lemma {:induction false} InsertedOrIgnored(inserted: map<RoleId, Role>, stored: map<RoleId, Role>, id: RoleId,
                                             role: Role)
    requires id !in inserted
    ensures inserted[id := role] + stored ==
            if id in inserted + stored then inserted + stored else (inserted + stored)[id := role]
  {
  }

  /** What is stored once entry `i` of the list has been inserted after those before it. */
  lemma {:induction false} OneMoreInserted(roles: RoleList, i: nat, stored: map<RoleId, Role>)
    requires Distinct(roles) && i < |roles|
    ensures var before, e := ToMap(roles[..i]) + stored, roles[i];
      ToMap(roles[..i + 1]) + stored == if e.key in before then before else before[e.key := e.val]
  {
    var e := roles[i];
    assert roles[..i + 1] == roles[..i] + [Entry(e.key, e.val)];
    PushMap(roles[..i], e.key, e.val);
    hide ToMap, Distinct;
    InsertedOrIgnored(ToMap(roles[..i]), stored, e.key, e.val);
  }

  /** The five default roles, inserted where no row has the id yet. */
  method CreateDefaultRoles(t: Tables) returns (roles: RoleList, t': Tables)
    ensures Distinct(roles) && ToMap(roles) == DefaultRoles()
    ensures t' == t.(roles := DefaultRoles() + t.roles)
  {
    hide ToMap, DefaultRole, DefaultRoles, Distinct;
    roles, t' := DefaultRoleList(), t;
    DefaultListMeans();
    for i := 0 to |roles|
      invariant t' == t.(roles := ToMap(roles[..i]) + t.roles)
    {
      var e := roles[i];
      OneMoreInserted(roles, i, t.roles);
      t' := InsertRole(t', e.key, e.val);
    }
    assert roles[..|roles|] == roles;
  }

  lemma {:induction false} ChannelNames(t: Tables)
    ensures ReadChannels(t.channels, t.overwrites).Keys == t.channels.Keys
  {
  }

  /** `host_community`, from the key to the loaded vectors. */
  method LoadCommunity(s: CommunityServer, now: nat, freshKey: Key)
    requires Consistent(s.db)
    modifies s
    ensures s.Valid() && s.db == Provisioned(old(s.db), freshKey)
    ensures s.View() == Hosted(old(s.db), freshKey, now)
  {
    hide ToMap, RosterMap, ChannelMap, ProperRoster, ProperChannels, ReadMembers, ReadChannels, Distinct, DefaultRoles;
    ghost var t := s.db;
    var latest := LatestKey(s.db.keys);
    if latest.None? {
      s.db := s.db.(keys := s.db.keys[1 := freshKey]);
      s.generation, s.key := 1, freshKey;
      FirstKey(freshKey);
      assert s.db.keys == map[1 := freshKey];
    } else {
      s.generation, s.key := latest.value, s.db.keys[latest.value];
    }
    s.channels := LoadChannels(s.db);
    ChannelNames(s.db);
    s.roles := LoadRoles(s.db.roles);
    NoneFound(s.roles);
    if |s.roles| == 0 {
      var defaults, withRoles := CreateDefaultRoles(s.db);
      s.roles, s.db := defaults, withRoles;
    }
    s.members := LoadMembers(s.db, now);
    s.creator := s.db.creator;
  }

  lemma {:induction false} NoneFound(roles: RoleList)
    ensures |roles| == 0 <==> ToMap(roles) == map[]
  {
    if |roles| > 0 { assert Contains(roles, roles[0].key); }
  }

  /** `host_community`: load everything, then register the creator if none is on record. */
  method HostCommunity(s: CommunityServer, creatorKey: Pseudonym, name: string, now: nat, freshKey: Key)
    requires Consistent(s.db)
    modifies s
    ensures s.Valid()
    ensures var loaded := Hosted(old(s.db), freshKey, now);
      s.View() == Register(loaded, creatorKey, name, now)
      && s.db == PersistRegister(loaded, Provisioned(old(s.db), freshKey), creatorKey, name, now)
  {
    hide Hosted, Provisioned, PersistAdmit, Apply, ElementsOf, NoRepeats, CommunityServer.Valid;
    LoadCommunity(s, now, freshKey);
    var known := s.FindMember(creatorKey);
    if creatorKey != "" && s.creator == "" && known.None? {
      var m := ServerMember(name, now, None, [0, 1, 2, 3, 4], None);
      DefaultIds(m.roleIds);
      s.Enroll(creatorKey, m, true, now);
    }
  }
}
