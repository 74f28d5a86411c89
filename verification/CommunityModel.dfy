/**
 A hosted community as its members see it, and what each request does to it.

 Vectors of records with ids are maps here, role lists are sets: nothing a request answers depends on the order
 in which the server happens to store them. The server class refines this model.
 */
module CommunityModel {
  import opened Common
  import opened Permissions
  import opened Sorting

  type ChannelId = string
  type Key = Bytes

  datatype Member = Member(
    name: string, joinedAt: nat, route: Option<Bytes>, roles: set<RoleId>, timeout: Option<nat>)
  datatype ChannelRow = ChannelRow(name: string, kind: string, sortOrder: int)
  datatype Channel = Channel(row: ChannelRow, overwrites: map<Target, Overwrite>)
  datatype ChannelInfo = ChannelInfo(name: string, kind: string)
  datatype Ban = Ban(name: string, bannedAt: nat)
  datatype Message = Message(
    channel: ChannelId, sender: Pseudonym, ciphertext: Bytes, generation: nat, timestamp: nat)

  datatype Community = Community(
    creator: Pseudonym,
    members: map<Pseudonym, Member>,
    roles: map<RoleId, Role>,
    channels: map<ChannelId, Channel>,
    bans: map<Pseudonym, Ban>,
    keys: map<nat, Key>,
    generation: nat,
    log: seq<Message>)

  datatype Request =
    | Join(name: string, route: Option<Bytes>)
    | SendMessage(channel: ChannelId, ciphertext: Bytes, generation: nat)
    | GetMessages(channel: ChannelId, before: Option<nat>, limit: nat)
    | RequestMek
    | Leave
    | Kick(target: Pseudonym)
    | Ban_(target: Pseudonym)
    | Unban(target: Pseudonym)
    | GetBanList
    | CreateChannel(name: string, kind: string)
    | DeleteChannel(channel: ChannelId)
    | RenameChannel(channel: ChannelId, name: string)
    | RotateMek
    | CreateRole(name: string, color: nat, permissions: Mask, hoist: bool, mentionable: bool)
    | EditRole(id: RoleId, edit: RoleEdit)
    | DeleteRole(id: RoleId)
    | AssignRole(target: Pseudonym, id: RoleId)
    | UnassignRole(target: Pseudonym, id: RoleId)
    | GetRoles
    | SetOverwrite(channel: ChannelId, targetType: string, targetId: string, overwrite: Overwrite)
    | DeleteOverwrite(channel: ChannelId, targetType: string, targetId: string)
    | TimeoutMember(target: Pseudonym, duration: nat)
    | RemoveTimeout(target: Pseudonym)

  datatype RoleEdit = RoleEdit(
    name: Option<string>, color: Option<nat>, permissions: Option<Mask>, position: Option<I32>,
    hoist: Option<bool>, mentionable: Option<bool>)

  datatype Response =
    | Ok
    | Error(code: nat)
    | Joined(generation: nat, key: Key, channels: map<ChannelId, ChannelInfo>, roleIds: set<RoleId>,
             roles: map<RoleId, Role>)
    | Mek(generation: nat, key: Key)
    | Messages(messages: seq<Message>)
    | ChannelCreated(channel: ChannelId)
    | RoleCreated(role: RoleId)
    | BanList(banned: map<Pseudonym, Ban>)
    | RolesList(roles: map<RoleId, Role>)

  /** A change to one member's record. */
  datatype MemberEdit =
    | Reroute(route: Bytes)
    | Grant(role: RoleId)
    | Revoke(role: RoleId)
    | SetTimeout(until: nat)
    | ClearTimeout

  /** A change to one channel's record. */
  datatype ChannelEdit =
    | Retitle(name: string)
    | PutOverwrite(targetType: string, targetId: string, overwrite: Overwrite)
    | DropOverwrite(targetType: string, targetId: string)

  /** The single change a granted request makes. */
  datatype Effect =
    | Nothing
    | Admit(who: Pseudonym, member: Member, founds: bool)
    | Adjust(who: Pseudonym, edit: MemberEdit)
    | Post(message: Message)
    | Depart(who: Pseudonym, key: Key)
    | Exile(who: Pseudonym, ban: Ban, departs: bool, key: Key)
    | Pardon(who: Pseudonym)
    | Rotate(key: Key)
    | AddChannel(channel: ChannelId, row: ChannelRow)
    | Alter(channel: ChannelId, change: ChannelEdit)
    | DropChannel(channel: ChannelId)
    | AddRole(role: RoleId, definition: Role)
    | ChangeRole(role: RoleId, definition: Role)
    | DropRole(role: RoleId)

  // ---------------------------------------------------------------------------
  // Permission and hierarchy checks
  // ---------------------------------------------------------------------------

  predicate IsCreator(c: Community, p: Pseudonym) {
    c.creator != "" && c.creator == p
  }

  /** `verify_membership`: unlike the other checks it lets an empty creator match. */
  predicate IsMember(c: Community, p: Pseudonym) {
    c.creator == p || p in c.members
  }

  ghost function BasePermissions(c: Community, p: Pseudonym, now: nat): Mask {
    if p in c.members then Effective(c.members[p].roles, c.roles, map[], p, c.members[p].timeout, now) else {}
  }

  ghost predicate MayDo(c: Community, sender: Pseudonym, required: nat, now: nat) {
    IsCreator(c, sender) || HasPermission(BasePermissions(c, sender, now), required)
  }

  /** Membership and permission together, as most handlers start. */
  ghost predicate Cleared(c: Community, sender: Pseudonym, required: nat, now: nat) {
    IsMember(c, sender) && MayDo(c, sender, required, now)
  }

  ghost function HeldPositions(held: set<RoleId>, roles: map<RoleId, Role>): set<int> {
    set r | r in held && r in roles :: roles[r].position
  }

  ghost function TopPosition(held: set<RoleId>, roles: map<RoleId, Role>): (top: I32)
    ensures HeldPositions(held, roles) != {} ==> top in HeldPositions(held, roles)
    ensures forall r :: r in held && r in roles ==> roles[r].position <= top
  {
    var ps := HeldPositions(held, roles);
    assert forall r :: r in held && r in roles ==> roles[r].position in ps;
    if ps == {} then -1 else MaxOf(ps)
  }

  ghost function Rank(c: Community, p: Pseudonym): I32 {
    if p in c.members then TopPosition(c.members[p].roles, c.roles) else -1
  }

  ghost predicate Outranks(c: Community, sender: Pseudonym, target: Pseudonym) {
    IsCreator(c, sender) || Rank(c, sender) > Rank(c, target)
  }

  // ---------------------------------------------------------------------------
  // Effects
  // ---------------------------------------------------------------------------

  function Rotated(c: Community, key: Key): Community {
    c.(generation := c.generation + 1, keys := c.keys[c.generation + 1 := key])
  }

  function Departed(c: Community, p: Pseudonym, key: Key): Community {
    Rotated(c.(members := c.members - {p}), key)
  }

  function Stripped(members: map<Pseudonym, Member>, id: RoleId): map<Pseudonym, Member> {
    map p | p in members :: members[p].(roles := members[p].roles - {id})
  }

  function Put(c: Community, p: Pseudonym, m: Member): Community {
    c.(members := c.members[p := m])
  }

  /** Anything that is not "member" counts as a role target in memory. */
  function KindOf(targetType: string): OverwriteType {
    if targetType == "member" then MemberTarget else RoleTarget
  }

  function Adjusted(m: Member, edit: MemberEdit): Member {
    match edit
    case Reroute(route) => m.(route := Some(route))
    case Grant(id) => m.(roles := m.roles + {id})
    case Revoke(id) => m.(roles := m.roles - {id})
    case SetTimeout(until) => m.(timeout := Some(until))
    case ClearTimeout => m.(timeout := None)
  }

  function Altered(ch: Channel, change: ChannelEdit): Channel {
    match change
    case Retitle(name) => ch.(row := ch.row.(name := name))
    case PutOverwrite(targetType, id, o) => ch.(overwrites := ch.overwrites[Target(KindOf(targetType), id) := o])
    case DropOverwrite(targetType, id) => ch.(overwrites := ch.overwrites - {Target(KindOf(targetType), id)})
  }

  function Apply(c: Community, effect: Effect): Community {
    match effect
    case Nothing => c
    case Admit(p, m, founds) => Put(if founds then c.(creator := p) else c, p, m)
    case Adjust(p, edit) => if p in c.members then Put(c, p, Adjusted(c.members[p], edit)) else c
    case Post(m) => c.(log := c.log + [m])
    case Depart(p, key) => Departed(c, p, key)
    case Exile(p, ban, departs, key) =>
      var banned := c.(bans := c.bans[p := ban]);
      if departs then Departed(banned, p, key) else banned
    case Pardon(p) => c.(bans := c.bans - {p})
    case Rotate(key) => Rotated(c, key)
    case AddChannel(id, row) => c.(channels := c.channels[id := Channel(row, map[])])
    case Alter(id, change) =>
      if id in c.channels then c.(channels := c.channels[id := Altered(c.channels[id], change)]) else c
    case DropChannel(id) => c.(channels := c.channels - {id})
    case AddRole(id, role) => c.(roles := c.roles[id := role])
    case ChangeRole(id, role) => c.(roles := c.roles[id := role])
    case DropRole(id) => c.(roles := c.roles - {id}, members := Stripped(c.members, id))
  }

  // ---------------------------------------------------------------------------
  // Join, rejoin, messages
  // ---------------------------------------------------------------------------

  /** The roles a member holds after an effect, seen from what it held before. */
  function HeldAfter(c: Community, effect: Effect, p: Pseudonym): set<RoleId> {
    if effect.Admit? && effect.who == p then effect.member.roles
    else if p !in c.members then {}
    else
      var held := c.members[p].roles;
      match effect
      case Adjust(who, Grant(id)) => if who == p then held + {id} else held
      case Adjust(who, Revoke(id)) => if who == p then held - {id} else held
      case DropRole(id) => held - {id}
      case _ => held
  }

  lemma {:induction false} HeldIs(c: Community, effect: Effect, p: Pseudonym)
    requires p in Apply(c, effect).members
    ensures p in c.members || (effect.Admit? && effect.who == p)
    ensures Apply(c, effect).members[p].roles == HeldAfter(c, effect, p)
  {
    hide Altered;
  }

  function CurrentKey(c: Community): Key {
    if c.generation in c.keys then c.keys[c.generation] else []
  }

  function InfoOf(row: ChannelRow): ChannelInfo {
    ChannelInfo(row.name, row.kind)
  }

  function InfosOf(channels: map<ChannelId, Channel>): map<ChannelId, ChannelInfo> {
    map id | id in channels :: InfoOf(channels[id].row)
  }

  function Welcome(c: Community, roleIds: set<RoleId>): Response {
    Joined(c.generation, CurrentKey(c), InfosOf(c.channels), roleIds, c.roles)
  }

  const OWNER_ROLES: set<RoleId> := {0, 1, 2, 3, 4}
  const JOINER_ROLES: set<RoleId> := {0, 1}

  function DoJoin(c: Community, p: Pseudonym, name: string, route: Option<Bytes>, now: nat): (Effect, Response) {
    if p in c.bans then (Nothing, Error(403))
    else if p in c.members then
      (if route.Some? then Adjust(p, Reroute(route.value)) else Nothing, Welcome(c, c.members[p].roles))
    else
      var first := c.members == map[];
      var roles := if first then OWNER_ROLES else JOINER_ROLES;
      (Admit(p, Member(name, now, route, roles, None), first), Welcome(c, roles))
  }

  function OverwritesOf(c: Community, channel: ChannelId): map<Target, Overwrite> {
    if channel in c.channels then c.channels[channel].overwrites else map[]
  }

  ghost predicate MaySend(c: Community, p: Pseudonym, channel: ChannelId, now: nat) {
    p in c.members ==>
      HasPermission(Effective(c.members[p].roles, c.roles, OverwritesOf(c, channel), p, c.members[p].timeout, now),
                    SEND_MESSAGES)
  }

  ghost function DoSend(c: Community, p: Pseudonym, channel: ChannelId, text: Bytes, generation: nat, now: nat)
    : (Effect, Response)
  {
    if !IsMember(c, p) || !MaySend(c, p, channel, now) then (Nothing, Error(403))
    else if generation != c.generation then (Nothing, Error(409))
    else (Post(Message(channel, p, text, generation, now)), Ok)
  }

  function InChannel(log: seq<Message>, channel: ChannelId): seq<Message> {
    if log == [] then []
    else
      var rest := InChannel(log[..|log| - 1], channel);
      if log[|log| - 1].channel == channel then rest + [log[|log| - 1]] else rest
  }

  const BY_TIME: Message -> int := (m: Message) => m.timestamp

  /** A bound too great for a signed 64-bit number becomes the greatest one. */
  function ToI64(before: nat): nat {
    if before < TWO_TO_THE_63 then before else TWO_TO_THE_63 - 1
  }

  /** The rows of one channel that a query may see, as they were inserted. */
  function Matching(log: seq<Message>, channel: ChannelId, before: Option<nat>): seq<Message> {
    var rows := InChannel(log, channel);
    if before.Some? then Below(rows, BY_TIME, ToI64(before.value)) else rows
  }

  /** The same rows, oldest first. */
  function History(log: seq<Message>, channel: ChannelId, before: Option<nat>): seq<Message> {
    SortBy(Matching(log, channel, before), BY_TIME)
  }

  /** The newest `limit` rows, oldest first. */
  function Newest<T>(rows: seq<T>, limit: nat): seq<T> {
    if |rows| <= limit then rows else rows[|rows| - limit..]
  }

  const PAGE_LIMIT: nat := 500

  function DoGetMessages(c: Community, p: Pseudonym, channel: ChannelId, before: Option<nat>, limit: nat): Response {
    if !IsMember(c, p) then Error(403)
    else Messages(Newest(History(c.log, channel, before), Min(limit, PAGE_LIMIT)))
  }

  function DoRequestMek(c: Community, p: Pseudonym): Response {
    if !IsMember(c, p) then Error(403) else Mek(c.generation, CurrentKey(c))
  }

  // ---------------------------------------------------------------------------
  // Leave, kick, ban, rotation
  // ---------------------------------------------------------------------------

  function DoLeave(c: Community, p: Pseudonym, key: Key): (Effect, Response) {
    if !IsMember(c, p) then (Nothing, Error(403)) else (Depart(p, key), Ok)
  }

  ghost function DoKick(c: Community, sender: Pseudonym, target: Pseudonym, now: nat, key: Key): (Effect, Response)
  {
    if !MayDo(c, sender, KICK_MEMBERS, now) then (Nothing, Error(403))
    else if sender == target then (Nothing, Error(400))
    else if !Outranks(c, sender, target) then (Nothing, Error(403))
    else DoLeave(c, target, key)
  }

  /** The ban is recorded before the target is removed, and stays when there was nobody to remove. */
  ghost function DoBan(c: Community, sender: Pseudonym, target: Pseudonym, now: nat, key: Key): (Effect, Response)
  {
    if !Cleared(c, sender, BAN_MEMBERS, now) then (Nothing, Error(403))
    else if sender == target then (Nothing, Error(400))
    else if !Outranks(c, sender, target) then (Nothing, Error(403))
    else
      var name := if target in c.members then c.members[target].name else "";
      (Exile(target, Ban(name, now), IsMember(c, target), key), DoLeave(c, target, key).1)
  }

  ghost function DoUnban(c: Community, sender: Pseudonym, target: Pseudonym, now: nat): (Effect, Response) {
    if !Cleared(c, sender, BAN_MEMBERS, now) then (Nothing, Error(403)) else (Pardon(target), Ok)
  }

  ghost function DoRotate(c: Community, sender: Pseudonym, now: nat, key: Key): (Effect, Response) {
    if !Cleared(c, sender, MANAGE_COMMUNITY, now) then (Nothing, Error(403)) else (Rotate(key), Ok)
  }

  // ---------------------------------------------------------------------------
  // Channels
  // ---------------------------------------------------------------------------

  ghost function DoCreateChannel(c: Community, sender: Pseudonym, name: string, kind: string, now: nat, id: ChannelId)
    : (Effect, Response)
  {
    if !Cleared(c, sender, MANAGE_CHANNELS, now) then (Nothing, Error(403))
    else if kind != "text" && kind != "voice" then (Nothing, Error(400))
    else if id in c.channels then (Nothing, Error(500))
    else (AddChannel(id, ChannelRow(name, kind, Min(|c.channels|, I32_MAX))), ChannelCreated(id))
  }

  ghost function DoDeleteChannel(c: Community, sender: Pseudonym, id: ChannelId, now: nat): (Effect, Response) {
    if !Cleared(c, sender, MANAGE_CHANNELS, now) then (Nothing, Error(403)) else (DropChannel(id), Ok)
  }

  ghost function DoRenameChannel(c: Community, sender: Pseudonym, id: ChannelId, name: string, now: nat)
    : (Effect, Response)
  {
    if !Cleared(c, sender, MANAGE_CHANNELS, now) then (Nothing, Error(403))
    else if id !in c.channels then (Nothing, Error(404))
    else (Alter(id, Retitle(name)), Ok)
  }

  ghost function DoSetOverwrite(c: Community, sender: Pseudonym, channel: ChannelId, targetType: string,
                                targetId: string, o: Overwrite, now: nat): (Effect, Response)
  {
    if !Cleared(c, sender, MANAGE_ROLES, now) then (Nothing, Error(403))
    else if channel !in c.channels then (Nothing, Error(404))
    else (Alter(channel, PutOverwrite(targetType, targetId, o)), Ok)
  }

  ghost function DoDeleteOverwrite(c: Community, sender: Pseudonym, channel: ChannelId, targetType: string,
                                   targetId: string, now: nat): (Effect, Response)
  {
    if !Cleared(c, sender, MANAGE_ROLES, now) then (Nothing, Error(403))
    else (Alter(channel, DropOverwrite(targetType, targetId)), Ok)
  }

  // ---------------------------------------------------------------------------
  // Roles
  // ---------------------------------------------------------------------------

  ghost function NextRoleId(roles: map<RoleId, Role>): (id: RoleId)
    ensures forall r :: r in roles ==> r < id
  {
    var ids: set<int> := set r | r in roles :: r;
    assert forall r :: r in roles ==> r in ids;
    if ids == {} then 1 else MaxOf(ids) + 1
  }

  /** One below the sender's own top position, but never below 1. */
  function NewPosition(senderTop: I32): I32 {
    Max(senderTop - 1, 1)
  }

  ghost function DoCreateRole(c: Community, sender: Pseudonym, name: string, color: nat, perms: Mask, hoist: bool,
                              mentionable: bool, now: nat): (Effect, Response)
  {
    if !Cleared(c, sender, MANAGE_ROLES, now) then (Nothing, Error(403))
    else
      var id := NextRoleId(c.roles);
      (AddRole(id, Role(name, color, perms, NewPosition(Rank(c, sender)), hoist, mentionable)), RoleCreated(id))
  }

  function Edited(r: Role, e: RoleEdit): Role {
    Role(if e.name.Some? then e.name.value else r.name,
         if e.color.Some? then e.color.value else r.color,
         if e.permissions.Some? then e.permissions.value else r.permissions,
         if e.position.Some? then e.position.value else r.position,
         if e.hoist.Some? then e.hoist.value else r.hoist,
         if e.mentionable.Some? then e.mentionable.value else r.mentionable)
  }

  ghost function DoEditRole(c: Community, sender: Pseudonym, id: RoleId, e: RoleEdit, now: nat): (Effect, Response)
  {
    if !Cleared(c, sender, MANAGE_ROLES, now) then (Nothing, Error(403))
    else if id !in c.roles then (Nothing, Error(404))
    else if c.roles[id].position >= Rank(c, sender) && !IsAdministrator(BasePermissions(c, sender, now)) then
      (Nothing, Error(403))
    else (ChangeRole(id, Edited(c.roles[id], e)), Ok)
  }

  /** Position of a role, or the greatest `i32` when it is not defined. */
  function PositionOf(roles: map<RoleId, Role>, id: RoleId): I32 {
    if id in roles then roles[id].position else I32_MAX
  }

  ghost function DoDeleteRole(c: Community, sender: Pseudonym, id: RoleId, now: nat): (Effect, Response) {
    if id == ROLE_EVERYONE_ID then (Nothing, Error(400))
    else if !Cleared(c, sender, MANAGE_ROLES, now) then (Nothing, Error(403))
    else if PositionOf(c.roles, id) >= Rank(c, sender) then (Nothing, Error(403))
    else (DropRole(id), Ok)
  }

  ghost function DoAssignRole(c: Community, sender: Pseudonym, target: Pseudonym, id: RoleId, now: nat)
    : (Effect, Response)
  {
    if !Cleared(c, sender, MANAGE_ROLES, now) then (Nothing, Error(403))
    else if !Outranks(c, sender, target) then (Nothing, Error(403))
    else if PositionOf(c.roles, id) >= Rank(c, sender) then (Nothing, Error(403))
    else if target !in c.members then (Nothing, Error(404))
    else (if id in c.members[target].roles then Nothing else Adjust(target, Grant(id)), Ok)
  }

  ghost function DoUnassignRole(c: Community, sender: Pseudonym, target: Pseudonym, id: RoleId, now: nat)
    : (Effect, Response)
  {
    if id == ROLE_EVERYONE_ID then (Nothing, Error(400))
    else if !Cleared(c, sender, MANAGE_ROLES, now) then (Nothing, Error(403))
    else if !Outranks(c, sender, target) then (Nothing, Error(403))
    else if target !in c.members then (Nothing, Error(404))
    else (Adjust(target, Revoke(id)), Ok)
  }

  // ---------------------------------------------------------------------------
  // Timeouts
  // ---------------------------------------------------------------------------

  /** When a timeout ends: the sum wraps at 64 bits. */
  function Until(now: nat, duration: nat): nat {
    (now + duration) % TWO_TO_THE_64
  }

  ghost function DoTimeout(c: Community, sender: Pseudonym, target: Pseudonym, duration: nat, now: nat)
    : (Effect, Response)
  {
    if !Cleared(c, sender, MODERATE_MEMBERS, now) then (Nothing, Error(403))
    else if !Outranks(c, sender, target) then (Nothing, Error(403))
    else if target !in c.members then (Nothing, Error(404))
    else (Adjust(target, SetTimeout(Until(now, duration))), Ok)
  }

  ghost function DoRemoveTimeout(c: Community, sender: Pseudonym, target: Pseudonym, now: nat): (Effect, Response)
  {
    if !Cleared(c, sender, MODERATE_MEMBERS, now) then (Nothing, Error(403))
    else (Adjust(target, ClearTimeout), Ok)
  }

  // ---------------------------------------------------------------------------
  // Restart
  // ---------------------------------------------------------------------------

  function Unexpired(timeout: Option<nat>, now: nat): Option<nat> {
    if TimedOut(timeout, now) then timeout else None
  }

  function Refreshed(m: Member, now: nat): Member {
    m.(timeout := Unexpired(m.timeout, now))
  }

  function AllRefreshed(members: map<Pseudonym, Member>, now: nat): map<Pseudonym, Member> {
    map p | p in members :: Refreshed(members[p], now)
  }

  /** The community with every timeout that has run out by `now` forgotten. */
  function Expire(c: Community, now: nat): Community {
    c.(members := AllRefreshed(c.members, now))
  }

  /** A creator named by the host request is registered only when none is on record. */
  predicate Registers(c: Community, creatorKey: Pseudonym) {
    creatorKey != "" && c.creator == "" && creatorKey !in c.members
  }

  function Register(c: Community, creatorKey: Pseudonym, name: string, now: nat): Community {
    if Registers(c, creatorKey) then
      Apply(c, Admit(creatorKey, Member(name, now, None, OWNER_ROLES, None), true))
    else c
  }

  // ---------------------------------------------------------------------------
  // Requests
  // ---------------------------------------------------------------------------

  ghost function Decide(c: Community, p: Pseudonym, r: Request, now: nat, id: ChannelId, key: Key)
    : (Effect, Response)
  {
    match r
    case Join(name, route) => DoJoin(c, p, name, route, now)
    case SendMessage(channel, text, generation) => DoSend(c, p, channel, text, generation, now)
    case GetMessages(channel, before, limit) => (Nothing, DoGetMessages(c, p, channel, before, limit))
    case RequestMek => (Nothing, DoRequestMek(c, p))
    case Leave => DoLeave(c, p, key)
    case Kick(target) => DoKick(c, p, target, now, key)
    case Ban_(target) => DoBan(c, p, target, now, key)
    case Unban(target) => DoUnban(c, p, target, now)
    case GetBanList => (Nothing, if Cleared(c, p, BAN_MEMBERS, now) then BanList(c.bans) else Error(403))
    case CreateChannel(name, kind) => DoCreateChannel(c, p, name, kind, now, id)
    case DeleteChannel(channel) => DoDeleteChannel(c, p, channel, now)
    case RenameChannel(channel, name) => DoRenameChannel(c, p, channel, name, now)
    case RotateMek => DoRotate(c, p, now, key)
    case CreateRole(name, color, perms, hoist, mentionable) =>
      DoCreateRole(c, p, name, color, perms, hoist, mentionable, now)
    case EditRole(id, edit) => DoEditRole(c, p, id, edit, now)
    case DeleteRole(id) => DoDeleteRole(c, p, id, now)
    case AssignRole(target, id) => DoAssignRole(c, p, target, id, now)
    case UnassignRole(target, id) => DoUnassignRole(c, p, target, id, now)
    case GetRoles => (Nothing, if IsMember(c, p) then RolesList(c.roles) else Error(403))
    case SetOverwrite(channel, targetType, targetId, overwrite) =>
      DoSetOverwrite(c, p, channel, targetType, targetId, overwrite, now)
    case DeleteOverwrite(channel, targetType, targetId) =>
      DoDeleteOverwrite(c, p, channel, targetType, targetId, now)
    case TimeoutMember(target, duration) => DoTimeout(c, p, target, duration, now)
    case RemoveTimeout(target) => DoRemoveTimeout(c, p, target, now)
  }

  // ---------------------------------------------------------------------------
  // What an effect presupposes
  // ---------------------------------------------------------------------------

  /** The facts about the state and the request that any granted effect rests on. */
  ghost predicate Warranted(c: Community, p: Pseudonym, r: Request, now: nat, effect: Effect) {
    match effect
    case Nothing => true
    case Admit(who, m, founds) =>
      r.Join? && who == p && p !in c.bans && p !in c.members && m.timeout.None?
      && (founds <==> c.members == map[]) && m.roles == if founds then OWNER_ROLES else JOINER_ROLES
    case Adjust(who, Reroute(_)) => r.Join? && who == p && p in c.members
    case Adjust(who, Grant(id)) =>
      Cleared(c, p, MANAGE_ROLES, now) && r.AssignRole? && who in c.members && id in c.roles && Outranks(c, p, who)
      && PositionOf(c.roles, id) < Rank(c, p)
    case Adjust(who, Revoke(id)) =>
      Cleared(c, p, MANAGE_ROLES, now) && r.UnassignRole? && who in c.members && Outranks(c, p, who)
      && id != ROLE_EVERYONE_ID
    case Adjust(who, SetTimeout(until)) =>
      Cleared(c, p, MODERATE_MEMBERS, now) && r.TimeoutMember? && who == r.target && who in c.members
      && Outranks(c, p, who) && until == Until(now, r.duration)
    case Adjust(who, ClearTimeout) => Cleared(c, p, MODERATE_MEMBERS, now) && r.RemoveTimeout? && who == r.target
    case Post(m) =>
      r.SendMessage? && m.sender == p && m.channel == r.channel && IsMember(c, p)
      && m.generation == c.generation && m.timestamp == now && MaySend(c, p, m.channel, now)
    case Depart(who, _) =>
      && IsMember(c, who)
      && (|| (r.Leave? && who == p)
          || (r.Kick? && who == r.target && who != p && Outranks(c, p, who) && MayDo(c, p, KICK_MEMBERS, now)))
    case Exile(who, _, departs, _) =>
      r.Ban_? && who == r.target && who != p && Outranks(c, p, who) && Cleared(c, p, BAN_MEMBERS, now)
      && (departs <==> IsMember(c, who))
    case Pardon(_) => Cleared(c, p, BAN_MEMBERS, now)
    case Rotate(_) => Cleared(c, p, MANAGE_COMMUNITY, now)
    case AddChannel(id, row) =>
      Cleared(c, p, MANAGE_CHANNELS, now) && id !in c.channels && (row.kind == "text" || row.kind == "voice")
    case Alter(id, Retitle(_)) => Cleared(c, p, MANAGE_CHANNELS, now) && id in c.channels
    case Alter(id, PutOverwrite(_, _, _)) => Cleared(c, p, MANAGE_ROLES, now) && id in c.channels
    case Alter(_, DropOverwrite(_, _)) => Cleared(c, p, MANAGE_ROLES, now)
    case DropChannel(_) => Cleared(c, p, MANAGE_CHANNELS, now)
    case AddRole(id, role) =>
      Cleared(c, p, MANAGE_ROLES, now) && r.CreateRole? && id == NextRoleId(c.roles) && id !in c.roles
      && role.position == NewPosition(Rank(c, p))
    case ChangeRole(id, role) =>
      Cleared(c, p, MANAGE_ROLES, now) && r.EditRole? && id == r.id && id in c.roles
      && role == Edited(c.roles[id], r.edit)
    case DropRole(id) =>
      Cleared(c, p, MANAGE_ROLES, now) && r.DeleteRole? && id != ROLE_EVERYONE_ID
      && PositionOf(c.roles, id) < Rank(c, p)
  }

  lemma {:induction false} WarrantedMembership(c: Community, p: Pseudonym, r: Request, now: nat, id: ChannelId, key: Key)
    requires r.Join? || r.SendMessage? || r.Leave? || r.Kick? || r.Ban_? || r.Unban? || r.RotateMek?
    ensures Warranted(c, p, r, now, Decide(c, p, r, now, id, key).0)
  {
    hide Effective, TopPosition;
  }

  lemma {:induction false} WarrantedRoles(c: Community, p: Pseudonym, r: Request, now: nat, id: ChannelId, key: Key)
    requires r.CreateRole? || r.EditRole? || r.DeleteRole? || r.AssignRole? || r.UnassignRole?
    ensures Warranted(c, p, r, now, Decide(c, p, r, now, id, key).0)
  {
    hide Effective, TopPosition;
  }

  /** No request brings about an effect without what that effect presupposes. */
  lemma {:induction false} EffectsAreWarranted(c: Community, p: Pseudonym, r: Request, now: nat, id: ChannelId, key: Key)
    ensures Warranted(c, p, r, now, Decide(c, p, r, now, id, key).0)
  {
    hide Effective, TopPosition;
    if r.Join? || r.SendMessage? || r.Leave? || r.Kick? || r.Ban_? || r.Unban? || r.RotateMek? {
      WarrantedMembership(c, p, r, now, id, key);
    } else if r.CreateRole? || r.EditRole? || r.DeleteRole? || r.AssignRole? || r.UnassignRole? {
      WarrantedRoles(c, p, r, now, id, key);
    }
  }

  // ---------------------------------------------------------------------------
  // A newly hosted community
  // ---------------------------------------------------------------------------

  /** @everyone, Member, Moderator, Admin and Owner. */
  function DefaultRole(id: RoleId): Role
    requires id < 5
  {
    match id
    case 0 => Role("@everyone", 0, EVERYONE_PERMISSIONS, 0, false, false)
    case 1 => Role("Member", 0, MEMBER_PERMISSIONS, 1, false, false)
    case 2 => Role("Moderator", 0x3498DB, MODERATOR_PERMISSIONS, 2, true, true)
    case 3 => Role("Admin", 0xE74C3C, ADMIN_PERMISSIONS, 3, true, true)
    case _ => Role("Owner", 0xF1C40F, ALL_PERMISSIONS, 4, true, false)
  }

  function DefaultRoles(): map<RoleId, Role> {
    map id: RoleId | id < 5 :: DefaultRole(id)
  }

  function NewCommunity(key: Key): Community {
    Community("", map[], DefaultRoles(), map[], map[], map[1 := key], 1, [])
  }

  /** The first joiner of a new community becomes its creator and outranks every default role but the top one. */
  lemma {:induction false} Founding(key: Key, p: Pseudonym, now: nat)
    ensures var (effect, response) := DoJoin(NewCommunity(key), p, "", None, now);
      var c := Apply(NewCommunity(key), effect);
      && c == Put(NewCommunity(key).(creator := p), p, Member("", now, None, OWNER_ROLES, None))
      && response == Welcome(c, OWNER_ROLES)
      && Rank(c, p) >= 4
  {
    var c := Put(NewCommunity(key).(creator := p), p, Member("", now, None, OWNER_ROLES, None));
    assert 4 in c.roles && c.roles[4].position == 4;
    assert 4 in c.members[p].roles;
  }
}
