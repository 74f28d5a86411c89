/**
 The server's SQLite tables for one community, the statements the handlers issue, and what hosting reads back.

 A table is a map from its primary key, or a set where the key is the whole row. A statement that violates a key, a
 CHECK or a foreign key leaves the tables as they are: the handlers ignore the error. Deleting a parent row cascades.
 */
module Database {
  import opened Common
  import opened Permissions
  import opened CommunityModel

  datatype MemberRow = MemberRow(name: string, joinedAt: nat, route: Option<Bytes>)
  datatype OverwriteKey = OverwriteKey(channel: ChannelId, targetType: string, targetId: string)

  datatype Tables = Tables(
    creator: Pseudonym,
    members: map<Pseudonym, MemberRow>,
    memberRoles: set<(Pseudonym, RoleId)>,
    timeouts: map<Pseudonym, nat>,
    roles: map<RoleId, Role>,
    channels: map<ChannelId, ChannelRow>,
    overwrites: map<OverwriteKey, Overwrite>,
    bans: map<Pseudonym, Ban>,
    keys: map<nat, Key>,
    messages: seq<Message>)

  const TARGET_TYPES: set<string> := {"role", "member"}

  /** Foreign keys and CHECKs. */
  ghost predicate Consistent(t: Tables) {
    && (forall row :: row in t.memberRoles ==> row.0 in t.members)
    && (forall p :: p in t.timeouts ==> p in t.members)
    && (forall k :: k in t.overwrites ==> k.channel in t.channels && k.targetType in TARGET_TYPES)
  }

  // ---------------------------------------------------------------------------
  // Statements
  // ---------------------------------------------------------------------------

  function InsertMember(t: Tables, p: Pseudonym, row: MemberRow): Tables {
    if p in t.members then t else t.(members := t.members[p := row])
  }

  function InsertMemberRole(t: Tables, p: Pseudonym, r: RoleId): Tables {
    if p in t.members then t.(memberRoles := t.memberRoles + {(p, r)}) else t
  }

  function UpdateRoute(t: Tables, p: Pseudonym, route: Bytes): Tables {
    if p in t.members then t.(members := t.members[p := t.members[p].(route := Some(route))]) else t
  }

  function DeleteMember(t: Tables, p: Pseudonym): Tables {
    t.(members := t.members - {p},
       memberRoles := (set row | row in t.memberRoles && row.0 != p),
       timeouts := t.timeouts - {p})
  }

  lemma DeleteMemberTouches(t: Tables, p: Pseudonym)
    ensures var t' := DeleteMember(t, p);
      t' == t.(members := t'.members, memberRoles := t'.memberRoles, timeouts := t'.timeouts)
  {
  }

  function DeleteMemberRole(t: Tables, p: Pseudonym, r: RoleId): Tables {
    t.(memberRoles := t.memberRoles - {(p, r)})
  }

  function DeleteRoleAssignments(t: Tables, r: RoleId): Tables {
    t.(memberRoles := set row | row in t.memberRoles && row.1 != r)
  }

  function ReplaceTimeout(t: Tables, p: Pseudonym, until: nat): Tables {
    if p in t.members then t.(timeouts := t.timeouts[p := until]) else t
  }

  function DeleteTimeout(t: Tables, p: Pseudonym): Tables {
    t.(timeouts := t.timeouts - {p})
  }

  function DeleteRoleRow(t: Tables, r: RoleId): Tables {
    t.(roles := t.roles - {r})
  }

  function InsertRole(t: Tables, r: RoleId, role: Role): Tables {
    if r in t.roles then t else t.(roles := t.roles[r := role])
  }

  function UpdateRole(t: Tables, r: RoleId, role: Role): Tables {
    if r in t.roles then t.(roles := t.roles[r := role]) else t
  }

  function InsertChannel(t: Tables, id: ChannelId, row: ChannelRow): Tables {
    if id in t.channels || (row.kind != "text" && row.kind != "voice") then t
    else t.(channels := t.channels[id := row])
  }

  function UpdateChannelName(t: Tables, id: ChannelId, name: string): Tables {
    if id in t.channels then t.(channels := t.channels[id := t.channels[id].(name := name)]) else t
  }

  function DeleteChannelRow(t: Tables, id: ChannelId): Tables {
    t.(channels := t.channels - {id},
       overwrites := (map k | k in t.overwrites && k.channel != id :: t.overwrites[k]))
  }

  function ReplaceOverwrite(t: Tables, k: OverwriteKey, o: Overwrite): Tables {
    if k.channel in t.channels && k.targetType in TARGET_TYPES then t.(overwrites := t.overwrites[k := o]) else t
  }

  function DeleteOverwriteRow(t: Tables, k: OverwriteKey): Tables {
    t.(overwrites := t.overwrites - {k})
  }

  function InsertKey(t: Tables, generation: nat, key: Key): Tables {
    if generation in t.keys then t else t.(keys := t.keys[generation := key])
  }

  // ---------------------------------------------------------------------------
  // Reading back
  // ---------------------------------------------------------------------------

  /**
   Masks and timeouts are `u64`s stored in signed columns. A value with bit 63 set comes back negative, the
   conversion to `u64` fails, and the loader skips the row.
   */
  predicate ReadsBack(mask: Mask) {
    63 !in mask
  }

  function TypeName(kind: OverwriteType): string {
    if kind == MemberTarget then "member" else "role"
  }

  function KeyFor(channel: ChannelId, t: Target): OverwriteKey {
    OverwriteKey(channel, TypeName(t.kind), t.id)
  }

  ghost function RolesIn(rows: set<(Pseudonym, RoleId)>, p: Pseudonym): (held: set<RoleId>)
    ensures forall r :: r in held <==> (p, r) in rows
  {
    set row | row in rows && row.0 == p :: row.1
  }

  function TimeoutIn(timeouts: map<Pseudonym, nat>, p: Pseudonym, now: nat): Option<nat> {
    if p in timeouts && timeouts[p] < TWO_TO_THE_63 then Unexpired(Some(timeouts[p]), now) else None
  }

  function ReadMember(row: MemberRow, roles: set<RoleId>, timeout: Option<nat>): Member {
    Member(row.name, row.joinedAt, row.route, roles, timeout)
  }

  ghost function ReadMembers(members: map<Pseudonym, MemberRow>, rows: set<(Pseudonym, RoleId)>,
                             timeouts: map<Pseudonym, nat>, now: nat): map<Pseudonym, Member>
  {
    map p | p in members :: ReadMember(members[p], RolesIn(rows, p), TimeoutIn(timeouts, p, now))
  }

  function ReadRoles(roles: map<RoleId, Role>): map<RoleId, Role> {
    map r | r in roles && ReadsBack(roles[r].permissions) :: roles[r]
  }

  predicate Readable(o: Overwrite) {
    ReadsBack(o.allow) && ReadsBack(o.deny)
  }

  /** A channel's readable overwrites; the CHECK leaves only the two target types that memory distinguishes. */
  ghost function OverwritesIn(rows: map<OverwriteKey, Overwrite>, channel: ChannelId): (m: map<Target, Overwrite>)
    ensures forall g: Target ::
              g in m <==> KeyFor(channel, g) in rows && Readable(rows[KeyFor(channel, g)])
    ensures forall g: Target :: g in m ==> m[g] == rows[KeyFor(channel, g)]
  {
    var targets := set k | k in rows && Readable(rows[k]) :: Target(KindOf(k.targetType), k.targetId);
    assert forall g: Target :: g == Target(KindOf(KeyFor(channel, g).targetType), KeyFor(channel, g).targetId);
    map g | g in targets && KeyFor(channel, g) in rows && Readable(rows[KeyFor(channel, g)]) ::
      rows[KeyFor(channel, g)]
  }

  ghost function ReadChannels(channels: map<ChannelId, ChannelRow>, rows: map<OverwriteKey, Overwrite>)
    : map<ChannelId, Channel>
  {
    map id | id in channels :: Channel(channels[id], OverwritesIn(rows, id))
  }

  /** The greatest generation stored. */
  ghost function LatestGeneration(keys: map<nat, Key>): (g: nat)
    ensures keys != map[] ==> g in keys
    ensures forall x :: x in keys ==> x <= g
  {
    var gs: set<int> := set g | g in keys :: g;
    assert forall x :: x in keys ==> x in gs;
    if gs == {} then 0 else MaxOf(gs)
  }

  /** The community that hosting reads from the tables at time `now`. */
  ghost function Load(t: Tables, now: nat): Community {
    Community(t.creator, ReadMembers(t.members, t.memberRoles, t.timeouts, now), ReadRoles(t.roles),
              ReadChannels(t.channels, t.overwrites), t.bans, t.keys, LatestGeneration(t.keys), t.messages)
  }

  // ---------------------------------------------------------------------------
  // The statements behind each effect
  // ---------------------------------------------------------------------------

  /** The member row and one row for each of its roles. */
  function InsertMemberAndRoles(t: Tables, p: Pseudonym, name: string, joinedAt: nat, roles: set<RoleId>): Tables {
    var t1 := InsertMember(t, p, MemberRow(name, joinedAt, None));
    t1.(memberRoles := t1.memberRoles + (set r | r in roles :: (p, r)))
  }

  function UpdateCreator(t: Tables, p: Pseudonym): Tables {
    t.(creator := p)
  }

  /** The new member's rows, the creator if the roster was empty, and the route if one was given. */
  function PersistAdmit(t: Tables, p: Pseudonym, m: Member, founds: bool): Tables {
    var t1 := InsertMemberAndRoles(t, p, m.name, m.joinedAt, m.roles);
    var t2 := if founds then UpdateCreator(t1, p) else t1;
    if m.route.Some? then UpdateRoute(t2, p, m.route.value) else t2
  }

  /** Hosting registers the creator it was given when it loaded none. */
  function PersistRegister(loaded: Community, t: Tables, creatorKey: Pseudonym, name: string, now: nat): Tables {
    if Registers(loaded, creatorKey) then
      PersistAdmit(t, creatorKey, Member(name, now, None, OWNER_ROLES, None), true)
    else t
  }

  function PersistEdit(t: Tables, p: Pseudonym, edit: MemberEdit): Tables {
    match edit
    case Reroute(route) => UpdateRoute(t, p, route)
    case Grant(id) => InsertMemberRole(t, p, id)
    case Revoke(id) => DeleteMemberRole(t, p, id)
    case SetTimeout(until) => ReplaceTimeout(t, p, until)
    case ClearTimeout => DeleteTimeout(t, p)
  }

  function PersistAlter(t: Tables, id: ChannelId, change: ChannelEdit): Tables {
    match change
    case Retitle(name) => UpdateChannelName(t, id, name)
    case PutOverwrite(targetType, targetId, o) => ReplaceOverwrite(t, OverwriteKey(id, targetType, targetId), o)
    case DropOverwrite(targetType, targetId) => DeleteOverwriteRow(t, OverwriteKey(id, targetType, targetId))
  }

  lemma {:induction false} RowsTouch(t: Tables, p: Pseudonym, name: string, joinedAt: nat, roles: set<RoleId>)
    ensures var t' := InsertMemberAndRoles(t, p, name, joinedAt, roles);
      t' == t.(members := t'.members, memberRoles := t'.memberRoles)
  {
  }

  lemma {:induction false} AdmitTouches(t: Tables, p: Pseudonym, m: Member, founds: bool)
    ensures var t' := PersistAdmit(t, p, m, founds);
      t' == t.(creator := if founds then p else t.creator, members := t'.members, memberRoles := t'.memberRoles)
  {
    hide InsertMemberAndRoles;
    RowsTouch(t, p, m.name, m.joinedAt, m.roles);
  }

  lemma {:induction false} EditTouches(t: Tables, p: Pseudonym, edit: MemberEdit)
    ensures var t' := PersistEdit(t, p, edit);
      t' == t.(members := t'.members, memberRoles := t'.memberRoles, timeouts := t'.timeouts)
  {
  }

  lemma {:induction false} AdmitRoles(rows: set<(Pseudonym, RoleId)>, p: Pseudonym, roles: set<RoleId>, q: Pseudonym)
    requires forall row :: row in rows ==> row.0 != p
    ensures RolesIn(rows + (set r | r in roles :: (p, r)), q) == if q == p then roles else RolesIn(rows, q)
  {
  }

  lemma {:induction false} AdmitTables(t: Tables, p: Pseudonym, m: Member, founds: bool)
    requires p !in t.members
    ensures PersistAdmit(t, p, m, founds) ==
            t.(creator := if founds then p else t.creator,
               members := t.members[p := MemberRow(m.name, m.joinedAt, m.route)],
               memberRoles := t.memberRoles + (set r | r in m.roles :: (p, r)))
  {
    var rows := t.memberRoles + (set r | r in m.roles :: (p, r));
    var bare := t.members[p := MemberRow(m.name, m.joinedAt, None)];
    assert InsertMemberAndRoles(t, p, m.name, m.joinedAt, m.roles) == t.(members := bare, memberRoles := rows);
    hide InsertMemberAndRoles;
    assert bare[p := MemberRow(m.name, m.joinedAt, m.route)] == t.members[p := MemberRow(m.name, m.joinedAt, m.route)];
  }

  lemma {:induction false} InsertKeyStored(keys: map<nat, Key>, key: Key)
    ensures var g := LatestGeneration(keys) + 1; g !in keys && LatestGeneration(keys[g := key]) == g
  {
  }

  lemma DropTouches(t: Tables, id: ChannelId)
    ensures var t' := DeleteChannelRow(t, id); t' == t.(channels := t'.channels, overwrites := t'.overwrites)
  {
  }

  /** A channel statement leaves the other tables, and the set of channels, alone. */
  lemma {:induction false} AlterTouches(t: Tables, id: ChannelId, change: ChannelEdit)
    ensures var t' := PersistAlter(t, id, change);
      t' == t.(channels := t'.channels, overwrites := t'.overwrites) && t'.channels.Keys == t.channels.Keys
  {
  }

  /** What the handlers write for an effect decided while `generation` was current. */
  function Persist(t: Tables, generation: nat, effect: Effect): Tables {
    match effect
    case Nothing => t
    case Admit(p, m, founds) => PersistAdmit(t, p, m, founds)
    case Adjust(p, edit) => PersistEdit(t, p, edit)
    case Post(m) => t.(messages := t.messages + [m])
    case Depart(p, key) => InsertKey(DeleteMember(t, p), generation + 1, key)
    case Exile(p, ban, departs, key) =>
      var t1 := t.(bans := t.bans[p := ban]);
      if departs then InsertKey(DeleteMember(t1, p), generation + 1, key) else t1
    case Pardon(p) => t.(bans := t.bans - {p})
    case Rotate(key) => InsertKey(t, generation + 1, key)
    case AddChannel(id, row) => InsertChannel(t, id, row)
    case Alter(id, change) => PersistAlter(t, id, change)
    case DropChannel(id) => DeleteChannelRow(t, id)
    case AddRole(id, role) => InsertRole(t, id, role)
    case ChangeRole(id, role) => UpdateRole(t, id, role)
    case DropRole(id) => DeleteRoleAssignments(DeleteRoleRow(t, id), id)
  }

  // ---------------------------------------------------------------------------
  // Hosting
  // ---------------------------------------------------------------------------

  /** The tables once a key and role definitions are in place. */
  function Provisioned(t: Tables, freshKey: Key): Tables {
    var t1 := if t.keys == map[] then t.(keys := map[1 := freshKey]) else t;
    if ReadRoles(t.roles) == map[] then t1.(roles := DefaultRoles() + t.roles) else t1
  }

  /** The community hosting builds from the tables, before a creator is registered. */
  ghost function Hosted(t: Tables, freshKey: Key, now: nat): Community {
    var c := Load(Provisioned(t, freshKey), now);
    if ReadRoles(t.roles) == map[] then c.(roles := DefaultRoles()) else c
  }

  const NO_ROWS: Tables := Tables("", map[], {}, map[], map[], map[], map[], map[], map[], [])

  /** The tables of a community hosted for the first time. */
  function NewTables(key: Key): Tables {
    Tables("", map[], {}, map[], DefaultRoles(), map[], map[], map[], map[1 := key], [])
  }

  lemma {:induction false} FirstKey(key: Key)
    ensures LatestGeneration(map[1 := key]) == 1
  {
    assert 1 in map[1 := key];
  }
}
