/**
 The vectors a running server keeps, and the maps they stand for.
 */
module ServerState {
  import opened Common
  import opened KeyedVec
  import opened Permissions
  import opened CommunityModel

  datatype ServerMember = ServerMember(
    name: string, joinedAt: nat, route: Option<Bytes>, roleIds: seq<RoleId>, timeout: Option<nat>)
  datatype ServerChannel = ServerChannel(row: ChannelRow, overwrites: seq<Entry<Target, Overwrite>>)

  type Roster = seq<Entry<Pseudonym, ServerMember>>
  type Channels = seq<Entry<ChannelId, ServerChannel>>
  type RoleList = seq<Entry<RoleId, Role>>

  /** Pseudonyms are unique and no member lists a role twice. */
  ghost predicate ProperRoster(ms: Roster) {
    Distinct(ms) && forall i :: 0 <= i < |ms| ==> NoRepeats(ms[i].val.roleIds)
  }

  /** Channel ids are unique, and so are each channel's overwrite targets. */
  ghost predicate ProperChannels(chs: Channels) {
    Distinct(chs) && forall i :: 0 <= i < |chs| ==> Distinct(chs[i].val.overwrites)
  }

  ghost function MemberOf(m: ServerMember): Member {
    Member(m.name, m.joinedAt, m.route, ElementsOf(m.roleIds), m.timeout)
  }

  ghost function ChannelOf(ch: ServerChannel): Channel {
    Channel(ch.row, ToMap(ch.overwrites))
  }

  ghost function MembersOf(m: map<Pseudonym, ServerMember>): map<Pseudonym, Member> {
    map p | p in m :: MemberOf(m[p])
  }

  ghost function ChannelsOf(m: map<ChannelId, ServerChannel>): map<ChannelId, Channel> {
    map id | id in m :: ChannelOf(m[id])
  }

  ghost function RosterMap(ms: Roster): map<Pseudonym, Member> {
    MembersOf(ToMap(ms))
  }

  ghost function ChannelMap(chs: Channels): map<ChannelId, Channel> {
    ChannelsOf(ToMap(chs))
  }

  lemma {:induction false} RosterHas(ms: Roster, p: Pseudonym)
    requires ProperRoster(ms)
    ensures p in RosterMap(ms) <==> Contains(ms, p)
    ensures Contains(ms, p) ==> RosterMap(ms)[p] == MemberOf(Get(ms, p)) && NoRepeats(Get(ms, p).roleIds)
  {
  }

  lemma {:induction false} ChannelsHave(chs: Channels, id: ChannelId)
    requires ProperChannels(chs)
    ensures Distinct(chs)
    ensures id in ChannelMap(chs) <==> Contains(chs, id)
    ensures Contains(chs, id) ==> ChannelMap(chs)[id] == ChannelOf(Get(chs, id)) && Distinct(Get(chs, id).overwrites)
  {
  }

  // ---------------------------------------------------------------------------
  // Vector operations on the roster
  // ---------------------------------------------------------------------------

  lemma {:induction false} MembersPut(m: map<Pseudonym, ServerMember>, p: Pseudonym, x: ServerMember)
    ensures MembersOf(m[p := x]) == MembersOf(m)[p := MemberOf(x)]
  {
  }

  lemma {:induction false} MembersDrop(m: map<Pseudonym, ServerMember>, p: Pseudonym)
    ensures MembersOf(m - {p}) == MembersOf(m) - {p}
  {
  }

  lemma {:induction false} PushMember(ms: Roster, p: Pseudonym, m: ServerMember)
    requires !Contains(ms, p) && ProperRoster(ms) && NoRepeats(m.roleIds)
    ensures RosterMap(ms + [Entry(p, m)]) == RosterMap(ms)[p := MemberOf(m)]
    ensures ProperRoster(ms + [Entry(p, m)])
  {
    hide MemberOf, MembersOf, ToMap, NoRepeats;
    PushMap(ms, p, m);
    MembersPut(ToMap(ms), p, m);
  }

  lemma {:induction false} UpdateMember(ms: Roster, p: Pseudonym, m: ServerMember)
    requires Contains(ms, p) && ProperRoster(ms) && NoRepeats(m.roleIds)
    ensures RosterMap(ms[Find(ms, p) := Entry(p, m)]) == RosterMap(ms)[p := MemberOf(m)]
    ensures ProperRoster(ms[Find(ms, p) := Entry(p, m)])
  {
    hide MemberOf, MembersOf, ToMap, NoRepeats;
    UpdateMap(ms, p, m);
    MembersPut(ToMap(ms), p, m);
  }

  lemma {:induction false} RemoveMember(ms: Roster, p: Pseudonym)
    requires ProperRoster(ms)
    ensures RosterMap(Without(ms, p)) == RosterMap(ms) - {p}
    ensures ProperRoster(Without(ms, p))
  {
    hide MemberOf, MembersOf, ToMap, NoRepeats;
    WithoutMap(ms, p);
    var r := Without(ms, p);
    MembersDrop(ToMap(ms), p);
    assert forall i :: 0 <= i < |r| ==> r[i] in ms;
  }

  // ---------------------------------------------------------------------------
  // Vector operations on channels
  // ---------------------------------------------------------------------------

  lemma {:induction false} ChannelsPut(m: map<ChannelId, ServerChannel>, id: ChannelId, x: ServerChannel)
    ensures ChannelsOf(m[id := x]) == ChannelsOf(m)[id := ChannelOf(x)]
  {
  }

  lemma {:induction false} ChannelsDrop(m: map<ChannelId, ServerChannel>, id: ChannelId)
    ensures ChannelsOf(m - {id}) == ChannelsOf(m) - {id}
  {
  }

  lemma {:induction false} PushChannel(chs: Channels, id: ChannelId, ch: ServerChannel)
    requires !Contains(chs, id) && ProperChannels(chs) && Distinct(ch.overwrites)
    ensures ChannelMap(chs + [Entry(id, ch)]) == ChannelMap(chs)[id := ChannelOf(ch)]
    ensures ProperChannels(chs + [Entry(id, ch)])
  {
    hide ChannelOf, ChannelsOf, ToMap;
    PushMap(chs, id, ch);
    ChannelsPut(ToMap(chs), id, ch);
  }

  lemma {:induction false} UpdateChannel(chs: Channels, id: ChannelId, ch: ServerChannel)
    requires Contains(chs, id) && ProperChannels(chs) && Distinct(ch.overwrites)
    ensures ChannelMap(chs[Find(chs, id) := Entry(id, ch)]) == ChannelMap(chs)[id := ChannelOf(ch)]
    ensures ProperChannels(chs[Find(chs, id) := Entry(id, ch)])
  {
    hide ChannelOf, ChannelsOf, ToMap;
    UpdateMap(chs, id, ch);
    ChannelsPut(ToMap(chs), id, ch);
  }

  lemma {:induction false} RemoveChannel(chs: Channels, id: ChannelId)
    requires ProperChannels(chs)
    ensures ChannelMap(Without(chs, id)) == ChannelMap(chs) - {id}
    ensures ProperChannels(Without(chs, id))
  {
    hide ChannelOf, ChannelsOf, ToMap;
    WithoutMap(chs, id);
    var r := Without(chs, id);
    ChannelsDrop(ToMap(chs), id);
    assert forall i :: 0 <= i < |r| ==> r[i] in chs;
  }

  lemma {:induction false} ChannelCount(chs: Channels)
    requires Distinct(chs)
    ensures |ChannelMap(chs)| == |chs|
  {
    MapSize(chs);
    assert ChannelMap(chs).Keys == ToMap(chs).Keys;
    assert |ChannelMap(chs)| == |ChannelMap(chs).Keys| && |ToMap(chs)| == |ToMap(chs).Keys|;
  }

  // ---------------------------------------------------------------------------
  // Role lists
  // ---------------------------------------------------------------------------

  /** Every occurrence of `id` goes, the others keep their order. */
  function DropId(ids: seq<RoleId>, id: RoleId): (r: seq<RoleId>)
    ensures forall x :: x in r <==> x in ids && x != id
  {
    if ids == [] then []
    else if ids[0] == id then DropId(ids[1..], id)
    else [ids[0]] + DropId(ids[1..], id)
  }

  lemma {:induction false} DropIdProper(ids: seq<RoleId>, id: RoleId)
    ensures ElementsOf(DropId(ids, id)) == ElementsOf(ids) - {id}
    ensures NoRepeats(ids) ==> NoRepeats(DropId(ids, id))
  {
    if ids != [] && NoRepeats(ids) {
      DropIdProper(ids[1..], id);
      var rest := DropId(ids[1..], id);
      assert forall j :: 0 <= j < |rest| ==> rest[j] in ids[1..];
    }
  }

  /** The highest position among the defined roles in a list; nothing when none is defined. */
  function HighestFound(ids: seq<RoleId>, roles: RoleList): Option<I32> {
    if ids == [] then None
    else
      var rest := HighestFound(ids[1..], roles);
      if !Contains(roles, ids[0]) then rest
      else
        var here := Get(roles, ids[0]).position;
        Some(if rest.Some? && rest.value > here then rest.value else here)
  }

  function HighestPosition(ids: seq<RoleId>, roles: RoleList): I32 {
    match HighestFound(ids, roles)
    case Some(top) => top
    case None => -1
  }

  lemma {:induction false} HighestFoundIsTop(ids: seq<RoleId>, roles: RoleList)
    ensures var top := HighestFound(ids, roles);
      && (top == None <==> forall r :: r in ids ==> !Contains(roles, r))
      && (top.Some? ==>
            (forall r :: r in ids && Contains(roles, r) ==> Get(roles, r).position <= top.value) &&
            exists r :: r in ids && Contains(roles, r) && Get(roles, r).position == top.value)
  {
    if ids != [] {
      HighestFoundIsTop(ids[1..], roles);
      assert ids == [ids[0]] + ids[1..];
      var rest := HighestFound(ids[1..], roles);
      if rest.Some? {
        var r :| r in ids[1..] && Contains(roles, r) && Get(roles, r).position == rest.value;
        assert r in ids;
      }
      assert ids[0] in ids;
    }
  }

  /** Ranks do not depend on the order in which roles are listed or stored. */
  lemma {:induction false} HighestIsTop(ids: seq<RoleId>, roles: RoleList)
    ensures HighestPosition(ids, roles) == TopPosition(ElementsOf(ids), ToMap(roles))
  {
    HighestFoundIsTop(ids, roles);
    var held, m := ElementsOf(ids), ToMap(roles);
    var top := HighestFound(ids, roles);
    if top.Some? {
      var r :| r in ids && Contains(roles, r) && Get(roles, r).position == top.value;
      assert r in held && r in m && m[r].position in HeldPositions(held, m);
      var q := TopPosition(held, m);
      assert q in HeldPositions(held, m);
    } else {
      assert HeldPositions(held, m) == {};
    }
  }

  /** The next role id: one above the greatest in use. */
  function MaxId(roles: RoleList): (id: RoleId)
    ensures forall i :: 0 <= i < |roles| ==> roles[i].key <= id
    ensures roles != [] ==> exists i :: 0 <= i < |roles| && roles[i].key == id
  {
    if roles == [] then 0
    else
      var rest := MaxId(roles[1..]);
      if roles[0].key < rest then
        var i :| 0 <= i < |roles[1..]| && roles[1..][i].key == rest;
        assert roles[i + 1].key == rest;
        rest
      else roles[0].key
  }

  lemma {:induction false} NextIdIsFresh(roles: RoleList)
    ensures MaxId(roles) + 1 == NextRoleId(ToMap(roles))
  {
    var m := ToMap(roles);
    var ids: set<int> := set r | r in m :: r;
    if roles != [] {
      var i :| 0 <= i < |roles| && roles[i].key == MaxId(roles);
      assert Contains(roles, roles[i].key);
      assert MaxId(roles) in m;
      assert MaxId(roles) in ids;
      forall r | r in m ensures r <= MaxId(roles) { assert roles[Find(roles, r)].key == r; }
      assert MaxOf(ids) in ids;
    } else {
      assert ids == {};
    }
  }
}
