/**
 Memory and tables agree: what hosting would read back at any moment is what the server has in memory, but for
 timeouts that have run out.
 */
module StoreAgreement {
  import opened Common
  import opened Permissions
  import opened CommunityModel
  import opened Database
  import opened Likeness
  import opened LiveServer

  ghost predicate AllReadable(t: Tables) {
    && (forall r :: r in t.roles ==> ReadsBack(t.roles[r].permissions))
    && (forall k :: k in t.overwrites ==> Readable(t.overwrites[k]))
    && (forall p :: p in t.timeouts ==> t.timeouts[p] < TWO_TO_THE_63)
  }

  ghost predicate Agrees(c: Community, t: Tables, now: nat) {
    Load(t, now) == Expire(c, now)
  }

  ghost predicate Stored(c: Community, t: Tables, now: nat) {
    Consistent(t) && AllReadable(t) && Agrees(c, t, now)
  }

  /**
   The effects the tables can hold: no mask or timeout with bit 63 set, and overwrite target types that are exactly
   "role" or "member" - or an overwrite that changes nothing in memory either.
   */
  predicate Storable(c: Community, effect: Effect) {
    match effect
    case AddRole(_, role) => ReadsBack(role.permissions)
    case ChangeRole(_, role) => ReadsBack(role.permissions)
    case Adjust(who, SetTimeout(until)) => until < TWO_TO_THE_63
    case Alter(id, PutOverwrite(targetType, targetId, o)) =>
      if targetType in TARGET_TYPES then Readable(o)
      else
        var t := Target(RoleTarget, targetId);
        id in c.channels && t in c.channels[id].overwrites && c.channels[id].overwrites[t] == o
    case Alter(id, DropOverwrite(targetType, targetId)) =>
      targetType in TARGET_TYPES
      || id !in c.channels || Target(RoleTarget, targetId) !in c.channels[id].overwrites
    case _ => true
  }

  /** The part of an effect's warrant that storing it relies on. */
  predicate Fresh(c: Community, effect: Effect) {
    match effect
    case Admit(p, m, founds) => p !in c.members && m.timeout.None?
    case Adjust(p, SetTimeout(_)) => p in c.members
    case AddChannel(id, row) => id !in c.channels && (row.kind == "text" || row.kind == "voice")
    case Alter(id, PutOverwrite(_, _, _)) => id in c.channels
    case AddRole(id, _) => id !in c.roles
    case ChangeRole(id, _) => id in c.roles
    case _ => true
  }

  // ---------------------------------------------------------------------------
  // Reading back is settled, and stays agreed as time passes
  // ---------------------------------------------------------------------------

  lemma {:induction false} MembersLater(members: map<Pseudonym, MemberRow>, rows: set<(Pseudonym, RoleId)>,
                                        timeouts: map<Pseudonym, nat>, earlier: nat, now: nat)
    requires earlier <= now
    ensures AllRefreshed(ReadMembers(members, rows, timeouts, earlier), now) ==
            ReadMembers(members, rows, timeouts, now)
  {
  }

  lemma {:induction false} LoadLater(t: Tables, earlier: nat, now: nat)
    requires earlier <= now
    ensures Expire(Load(t, earlier), now) == Load(t, now)
  {
    hide AllRefreshed, ReadMembers, ReadRoles, ReadChannels, LatestGeneration;
    MembersLater(t.members, t.memberRoles, t.timeouts, earlier, now);
  }

  lemma {:induction false} StoredLater(c: Community, t: Tables, earlier: nat, now: nat)
    requires Stored(c, t, earlier) && earlier <= now
    ensures Stored(c, t, now)
  {
    LoadLater(t, earlier, now);
    ExpireTwice(c, earlier, now);
  }

  // ---------------------------------------------------------------------------
  // Member tables
  // ---------------------------------------------------------------------------

  ghost function StoredMembers(t: Tables, now: nat): map<Pseudonym, Member> {
    ReadMembers(t.members, t.memberRoles, t.timeouts, now)
  }

  lemma {:induction false} AdmitStored(t: Tables, p: Pseudonym, m: Member, founds: bool, now: nat)
    requires Consistent(t) && p !in t.members && m.timeout.None?
    ensures StoredMembers(PersistAdmit(t, p, m, founds), now) == StoredMembers(t, now)[p := m]
  {
    hide RolesIn, PersistAdmit;
    AdmitTables(t, p, m, founds);
    var rows := t.memberRoles + (set r | r in m.roles :: (p, r));
    var a := ReadMembers(t.members[p := MemberRow(m.name, m.joinedAt, m.route)], rows, t.timeouts, now);
    var b := StoredMembers(t, now)[p := m];
    assert a.Keys == b.Keys;
    forall q | q in a.Keys ensures a[q] == b[q] { AdmitRoles(t.memberRoles, p, m.roles, q); }
  }

  lemma {:induction false} EditOthers(t: Tables, p: Pseudonym, edit: MemberEdit, now: nat, q: Pseudonym)
    requires p in t.members && q in t.members && q != p
    ensures var t' := PersistEdit(t, p, edit);
      q in t'.members && t'.members[q] == t.members[q] && TimeoutIn(t'.timeouts, q, now) == TimeoutIn(t.timeouts, q, now)
  {
  }

  lemma {:induction false} EditOne(t: Tables, p: Pseudonym, edit: MemberEdit, now: nat)
    requires p in t.members
    requires edit.SetTimeout? ==> edit.until < TWO_TO_THE_63
    ensures var t' := PersistEdit(t, p, edit);
      var m := StoredMembers(t, now)[p];
      t'.members.Keys == t.members.Keys
      && StoredMembers(t', now)[p] == Refreshed(Adjusted(m, edit), now)
  {
    hide RolesIn;
    EditRows(t, p, edit, StoredMembers(t, now)[p], p);
  }

  lemma {:induction false} EditStored(t: Tables, p: Pseudonym, edit: MemberEdit, now: nat)
    requires p in t.members
    requires edit.SetTimeout? ==> edit.until < TWO_TO_THE_63
    ensures StoredMembers(PersistEdit(t, p, edit), now) ==
            StoredMembers(t, now)[p := Refreshed(Adjusted(StoredMembers(t, now)[p], edit), now)]
  {
    hide RolesIn, PersistEdit;
    var m := StoredMembers(t, now)[p];
    var a := StoredMembers(PersistEdit(t, p, edit), now);
    var b := StoredMembers(t, now)[p := Refreshed(Adjusted(m, edit), now)];
    EditOne(t, p, edit, now);
    assert a.Keys == b.Keys;
    forall q | q in a.Keys && q != p ensures a[q] == b[q] {
      EditRows(t, p, edit, m, q);
      EditOthers(t, p, edit, now, q);
    }
  }

  lemma {:induction false} DeleteStored(t: Tables, p: Pseudonym, now: nat)
    ensures StoredMembers(DeleteMember(t, p), now) == StoredMembers(t, now) - {p}
  {
    var t' := DeleteMember(t, p);
    forall q | q != p ensures RolesIn(t'.memberRoles, q) == RolesIn(t.memberRoles, q) {
    }
  }

  lemma {:induction false} StripStored(t: Tables, id: RoleId, now: nat)
    ensures StoredMembers(DeleteRoleAssignments(t, id), now) == Stripped(StoredMembers(t, now), id)
  {
    var t' := DeleteRoleAssignments(t, id);
    forall q ensures RolesIn(t'.memberRoles, q) == RolesIn(t.memberRoles, q) - {id} {
    }
  }

  // ---------------------------------------------------------------------------
  // Channel tables
  // ---------------------------------------------------------------------------

  ghost function StoredChannels(t: Tables): map<ChannelId, Channel> {
    ReadChannels(t.channels, t.overwrites)
  }

  lemma {:induction false} SameOverwrites(rows: map<OverwriteKey, Overwrite>, rows': map<OverwriteKey, Overwrite>,
                                          ch: ChannelId)
    requires forall k: OverwriteKey :: k.channel == ch ==>
               (k in rows' <==> k in rows) && (k in rows ==> rows'[k] == rows[k])
    ensures OverwritesIn(rows', ch) == OverwritesIn(rows, ch)
  {
  }

  lemma {:induction false} InsertChannelStored(t: Tables, id: ChannelId, row: ChannelRow)
    requires Consistent(t) && id !in t.channels && (row.kind == "text" || row.kind == "voice")
    ensures StoredChannels(InsertChannel(t, id, row)) == StoredChannels(t)[id := Channel(row, map[])]
  {
  }

  lemma {:induction false} DeleteChannelStored(t: Tables, id: ChannelId)
    ensures StoredChannels(DeleteChannelRow(t, id)) == StoredChannels(t) - {id}
  {
    forall ch | ch != id
      ensures OverwritesIn(DeleteChannelRow(t, id).overwrites, ch) == OverwritesIn(t.overwrites, ch)
    {
      SameOverwrites(t.overwrites, DeleteChannelRow(t, id).overwrites, ch);
    }
  }

  lemma {:induction false} KeyForTarget(ch: ChannelId, targetType: string, id: string, g: Target)
    requires targetType in TARGET_TYPES
    ensures KeyFor(ch, g) == OverwriteKey(ch, targetType, id) <==> g == Target(KindOf(targetType), id)
  {
  }

  lemma {:induction false} PutOverwriteStored(rows: map<OverwriteKey, Overwrite>, ch: ChannelId, targetType: string,
                                              id: string, o: Overwrite)
    requires targetType in TARGET_TYPES && Readable(o)
    ensures OverwritesIn(rows[OverwriteKey(ch, targetType, id) := o], ch) ==
            OverwritesIn(rows, ch)[Target(KindOf(targetType), id) := o]
  {
    forall g { KeyForTarget(ch, targetType, id, g); }
  }

  lemma {:induction false} DropOverwriteStored(rows: map<OverwriteKey, Overwrite>, ch: ChannelId, targetType: string,
                                               id: string)
    requires targetType in TARGET_TYPES
    ensures OverwritesIn(rows - {OverwriteKey(ch, targetType, id)}, ch) ==
            OverwritesIn(rows, ch) - {Target(KindOf(targetType), id)}
  {
    forall g { KeyForTarget(ch, targetType, id, g); }
  }

  lemma {:induction false} AlterOne(t: Tables, id: ChannelId, change: ChannelEdit)
    requires id in t.channels
    requires !change.Retitle? ==> change.targetType in TARGET_TYPES
    requires change.PutOverwrite? ==> Readable(change.overwrite)
    ensures var t' := PersistAlter(t, id, change);
      t'.channels.Keys == t.channels.Keys &&
      Channel(t'.channels[id], OverwritesIn(t'.overwrites, id)) ==
      Altered(Channel(t.channels[id], OverwritesIn(t.overwrites, id)), change)
  {
    hide OverwritesIn;
    match change {
      case Retitle(_) =>
      case PutOverwrite(targetType, target, o) => PutOverwriteStored(t.overwrites, id, targetType, target, o);
      case DropOverwrite(targetType, target) => DropOverwriteStored(t.overwrites, id, targetType, target);
    }
  }

  lemma {:induction false} AlterOthers(t: Tables, id: ChannelId, change: ChannelEdit, ch: ChannelId)
    requires ch != id
    ensures var t' := PersistAlter(t, id, change);
      OverwritesIn(t'.overwrites, ch) == OverwritesIn(t.overwrites, ch)
      && (ch in t.channels ==> ch in t'.channels && t'.channels[ch] == t.channels[ch])
  {
    hide OverwritesIn;
    SameOverwrites(t.overwrites, PersistAlter(t, id, change).overwrites, ch);
  }

  lemma {:induction false} AlterStored(t: Tables, id: ChannelId, change: ChannelEdit)
    requires id in t.channels
    requires !change.Retitle? ==> change.targetType in TARGET_TYPES
    requires change.PutOverwrite? ==> Readable(change.overwrite)
    ensures StoredChannels(PersistAlter(t, id, change)) == StoredChannels(t)[id := Altered(StoredChannels(t)[id], change)]
  {
    hide OverwritesIn, PersistAlter, Altered;
    AlterOne(t, id, change);
    forall ch | ch != id && ch in t.channels
      ensures StoredChannels(PersistAlter(t, id, change))[ch] == StoredChannels(t)[ch]
    {
      AlterOthers(t, id, change, ch);
    }
  }

  // ---------------------------------------------------------------------------
  // Effects
  // ---------------------------------------------------------------------------

  lemma {:induction false} RolesStored(roles: map<RoleId, Role>, id: RoleId, role: Role)
    requires ReadsBack(role.permissions)
    ensures ReadRoles(roles[id := role]) == ReadRoles(roles)[id := role]
    ensures ReadRoles(roles - {id}) == ReadRoles(roles) - {id}
  {
  }

  ghost predicate Sound(t: Tables) {
    Consistent(t) && AllReadable(t)
  }

  lemma {:induction false} EditSound(t: Tables, p: Pseudonym, edit: MemberEdit)
    requires Sound(t)
    requires edit.SetTimeout? ==> edit.until < TWO_TO_THE_63
    ensures Sound(PersistEdit(t, p, edit))
  {
  }

  lemma {:induction false} AlterSound(t: Tables, id: ChannelId, change: ChannelEdit)
    requires Sound(t)
    requires change.PutOverwrite? && change.targetType in TARGET_TYPES ==> Readable(change.overwrite)
    ensures Sound(PersistAlter(t, id, change))
  {
  }

  lemma {:induction false} AdmitSound(t: Tables, p: Pseudonym, m: Member, founds: bool)
    requires Sound(t) && p !in t.members
    ensures Sound(PersistAdmit(t, p, m, founds))
  {
    hide PersistAdmit;
    AdmitTables(t, p, m, founds);
  }

  lemma {:induction false} DepartSound(t: Tables, p: Pseudonym, generation: nat, key: Key)
    requires Sound(t)
    ensures Sound(InsertKey(DeleteMember(t, p), generation, key))
  {
  }

  lemma {:induction false} ExileSound(t: Tables, p: Pseudonym, ban: Ban, generation: nat, key: Key)
    requires Sound(t)
    ensures var t1 := t.(bans := t.bans[p := ban]);
      Sound(t1) && Sound(InsertKey(DeleteMember(t1, p), generation, key))
  {
    DepartSound(t.(bans := t.bans[p := ban]), p, generation, key);
  }

  lemma {:induction false} ElsewhereSound(t: Tables, effect: Effect, now: nat)
    requires Sound(t) && Fresh(Load(t, now), effect) && Storable(Load(t, now), effect)
    requires !effect.Admit? && !effect.Adjust? && !effect.Depart? && !effect.Exile? && !effect.Alter?
    ensures Sound(Persist(t, LatestGeneration(t.keys), effect))
  {
    hide ReadMembers, ReadChannels;
  }

  /** Every effect's statements keep foreign keys, CHECKs and readable values. */
  lemma {:induction false} PersistSound(t: Tables, effect: Effect, now: nat)
    requires Sound(t) && Fresh(Load(t, now), effect) && Storable(Load(t, now), effect)
    ensures Sound(Persist(t, LatestGeneration(t.keys), effect))
  {
    hide Consistent, AllReadable, PersistAdmit, PersistEdit, PersistAlter, DeleteMember, InsertKey, OverwritesIn;
    match effect {
      case Admit(p, m, founds) => AdmitSound(t, p, m, founds);
      case Adjust(p, edit) => EditSound(t, p, edit);
      case Depart(p, key) => DepartSound(t, p, LatestGeneration(t.keys) + 1, key);
      case Exile(p, ban, departs, key) => ExileSound(t, p, ban, LatestGeneration(t.keys) + 1, key);
      case Alter(id, change) => AlterSound(t, id, change);
      case _ => ElsewhereSound(t, effect, now);
    }
  }

  /** Applied to what is read back, the effect gives what is read back after its statements. */
  lemma {:induction false} PersistLoads(t: Tables, effect: Effect, now: nat)
    requires var c := Load(t, now);
      Consistent(t) && AllReadable(t) && Fresh(c, effect) && Storable(c, effect)
    ensures Load(Persist(t, LatestGeneration(t.keys), effect), now) == Expire(Apply(Load(t, now), effect), now)
  {
    if effect.Admit? {
      AdmitLoads(t, effect.who, effect.member, effect.founds, now);
    } else if effect.Adjust? {
      hide Load, Expire;
      EditLoads(t, effect.who, effect.edit, now);
    } else if effect.Alter? {
      hide Load, Expire;
      AlterLoads(t, effect.channel, effect.change, now);
    } else if effect.AddRole? || effect.ChangeRole? || effect.DropRole? {
      hide Persist, Load, Expire, Apply;
      RoleEffectLoads(t, effect, now);
    } else if effect.AddChannel? || effect.DropChannel? {
      hide Persist, Load, Expire, Apply;
      ChannelEffectLoads(t, effect, now);
    } else {
      hide Persist, Load, Expire, Apply;
      OtherEffectLoads(t, effect, now);
    }
  }

  lemma {:induction false} RoleEffectLoads(t: Tables, effect: Effect, now: nat)
    requires var c := Load(t, now);
      Consistent(t) && AllReadable(t) && Fresh(c, effect) && Storable(c, effect)
    requires effect.AddRole? || effect.ChangeRole? || effect.DropRole?
    ensures Load(Persist(t, LatestGeneration(t.keys), effect), now) == Expire(Apply(Load(t, now), effect), now)
  {
    LoadLater(t, now, now);
    match effect {
      case AddRole(id, role) => RolesStored(t.roles, id, role);
      case ChangeRole(id, role) => RolesStored(t.roles, id, role);
      case DropRole(id) =>
        StripStored(t, id, now);
        RolesStored(t.roles, id, Role("", 0, {}, 0, false, false));
        ExpireStripped(Load(t, now), id, now);
    }
  }

  lemma {:induction false} ChannelEffectLoads(t: Tables, effect: Effect, now: nat)
    requires Consistent(t) && Fresh(Load(t, now), effect)
    requires effect.AddChannel? || effect.DropChannel?
    ensures Load(Persist(t, LatestGeneration(t.keys), effect), now) == Expire(Apply(Load(t, now), effect), now)
  {
    assert Load(t, now).channels.Keys == t.channels.Keys;
    hide AllRefreshed, ReadMembers, ReadRoles, ReadChannels, LatestGeneration;
    LoadLater(t, now, now);
    if effect.AddChannel? {
      InsertChannelStored(t, effect.channel, effect.row);
    } else {
      hide Consistent, Fresh;
      DropTouches(t, effect.channel);
      hide DeleteChannelRow;
      DeleteChannelStored(t, effect.channel);
    }
  }

  /** Departures, rotations, messages and pardons. */
  lemma {:induction false} OtherEffectLoads(t: Tables, effect: Effect, now: nat)
    requires Consistent(t)
    requires !effect.Admit? && !effect.Adjust? && !effect.Alter? && !effect.AddChannel? && !effect.DropChannel?
    requires !effect.AddRole? && !effect.ChangeRole? && !effect.DropRole?
    ensures Load(Persist(t, LatestGeneration(t.keys), effect), now) == Expire(Apply(Load(t, now), effect), now)
  {
    hide AllRefreshed, ReadMembers, ReadRoles, ReadChannels, LatestGeneration, DeleteMember, InsertKey, Departed;
    LoadLater(t, now, now);
    match effect {
      case Depart(p, key) => DepartLoads(t, p, key, now);
      case Exile(p, ban, departs, key) =>
        var t1 := t.(bans := t.bans[p := ban]);
        LoadLater(t1, now, now);
        if departs { DepartLoads(t1, p, key, now); }
      case Rotate(key) => RotateLoads(t, key, now);
      case _ =>
    }
  }

  lemma {:induction false} RotateLoads(t: Tables, key: Key, now: nat)
    ensures Load(InsertKey(t, LatestGeneration(t.keys) + 1, key), now) == Expire(Apply(Load(t, now), Rotate(key)), now)
  {
    hide AllRefreshed, ReadMembers, ReadRoles, ReadChannels, LatestGeneration;
    LoadLater(t, now, now);
    InsertKeyStored(t.keys, key);
  }

  lemma {:induction false} AdmitLoads(t: Tables, p: Pseudonym, m: Member, founds: bool, now: nat)
    requires Consistent(t) && p !in t.members && m.timeout.None?
    ensures Load(PersistAdmit(t, p, m, founds), now) == Expire(Apply(Load(t, now), Admit(p, m, founds)), now)
  {
    LoadLater(t, now, now);
    AdmitStored(t, p, m, founds, now);
    AdmitTables(t, p, m, founds);
    var c := if founds then Load(t, now).(creator := p) else Load(t, now);
    ExpirePut(c, p, m, now);
  }

  lemma {:induction false} EditLoads(t: Tables, p: Pseudonym, edit: MemberEdit, now: nat)
    requires edit.SetTimeout? ==> p in t.members && edit.until < TWO_TO_THE_63
    requires Consistent(t)
    ensures Load(PersistEdit(t, p, edit), now) == Expire(Apply(Load(t, now), Adjust(p, edit)), now)
  {
    LoadLater(t, now, now);
    var c := Load(t, now);
    if p in t.members {
      EditStored(t, p, edit, now);
      ExpirePut(c, p, Adjusted(c.members[p], edit), now);
    } else {
      assert PersistEdit(t, p, edit) == t by {
        assert t.memberRoles - {(p, if edit.Revoke? then edit.role else 0)} == t.memberRoles;
        assert t.timeouts - {p} == t.timeouts;
      }
    }
  }

  lemma {:induction false} DepartLoads(t: Tables, p: Pseudonym, key: Key, now: nat)
    ensures var t' := InsertKey(DeleteMember(t, p), LatestGeneration(t.keys) + 1, key);
      Load(t', now) == Expire(Departed(Load(t, now), p, key), now)
  {
    LoadLater(t, now, now);
    DeleteStored(t, p, now);
    InsertKeyStored(t.keys, key);
    ExpireDeparted(Load(t, now), p, key, now);
  }

  lemma {:induction false} AlterLoads(t: Tables, id: ChannelId, change: ChannelEdit, now: nat)
    requires var c := Load(t, now);
      Consistent(t) && Fresh(c, Alter(id, change)) && Storable(c, Alter(id, change))
    ensures Load(PersistAlter(t, id, change), now) == Expire(Apply(Load(t, now), Alter(id, change)), now)
  {
    hide PersistAlter, OverwritesIn, ReadMembers;
    LoadLater(t, now, now);
    var c := Load(t, now);
    if id in t.channels && (change.Retitle? || change.targetType in TARGET_TYPES) {
      AlterStored(t, id, change);
      AlterTouches(t, id, change);
    } else {
      assert PersistAlter(t, id, change) == t by { AlterIgnored(t, id, change); }
      if id in t.channels {
        assert Altered(c.channels[id], change) == c.channels[id];
        assert c.channels[id := c.channels[id]] == c.channels;
      }
    }
  }

  /** No row has that key: the channel is missing, or the target type fails the CHECK. */
  lemma {:induction false} AlterIgnored(t: Tables, id: ChannelId, change: ChannelEdit)
    requires Consistent(t)
    requires id !in t.channels || (!change.Retitle? && change.targetType !in TARGET_TYPES)
    ensures PersistAlter(t, id, change) == t
  {
  }

  /** With agreement, memory and the tables know the same members, roles and channels. */
  lemma {:induction false} AgreedNames(c: Community, t: Tables, now: nat)
    requires Stored(c, t, now)
    ensures c.members.Keys == t.members.Keys
    ensures c.roles == t.roles == ReadRoles(t.roles)
    ensures c.channels == StoredChannels(t)
    ensures c.generation == LatestGeneration(t.keys)
  {
    assert Expire(c, now).members.Keys == c.members.Keys;
    assert Load(t, now).members.Keys == t.members.Keys;
  }

  lemma {:induction false} LostRole(c: Community, t: Tables, effect: Effect, now: nat)
    requires Stored(c, t, now) && Fresh(c, effect)
    requires (effect.AddRole? || effect.ChangeRole?) && !ReadsBack(effect.definition.permissions)
    ensures !Agrees(Apply(c, effect), Persist(t, c.generation, effect), now)
  {
    AgreedNames(c, t, now);
    assert effect.role in Expire(Apply(c, effect), now).roles;
    assert effect.role !in Load(Persist(t, c.generation, effect), now).roles;
  }

  lemma {:induction false} LostTimeout(c: Community, t: Tables, p: Pseudonym, until: nat, now: nat)
    requires Stored(c, t, now) && p in c.members && now < TWO_TO_THE_63 <= until
    ensures !Agrees(Apply(c, Adjust(p, SetTimeout(until))), PersistEdit(t, p, SetTimeout(until)), now)
  {
    AgreedNames(c, t, now);
    var c', t' := Apply(c, Adjust(p, SetTimeout(until))), PersistEdit(t, p, SetTimeout(until));
    assert Expire(c', now).members[p].timeout == Some(until);
    assert Load(t', now).members[p].timeout == None;
  }

  /** The row is written, but the loader will skip it. */
  lemma {:induction false} UnreadableOverwrite(c: Community, t: Tables, id: ChannelId, change: ChannelEdit, now: nat)
    requires Stored(c, t, now) && id in c.channels && change.PutOverwrite?
    requires change.targetType in TARGET_TYPES && !Readable(change.overwrite)
    ensures !Agrees(Apply(c, Alter(id, change)), PersistAlter(t, id, change), now)
  {
    hide Agrees, OverwritesIn;
    var c', t' := Apply(c, Alter(id, change)), PersistAlter(t, id, change);
    AgreedChannels(c', t', now);
    AgreedNames(c, t, now);
    var g := Target(KindOf(change.targetType), change.targetId);
    UnreadableSkipped(t.overwrites, id, change.targetType, change.targetId, change.overwrite);
    assert StoredChannels(t')[id].overwrites == OverwritesIn(t'.overwrites, id);
    assert g in c'.channels[id].overwrites;
  }

  lemma {:induction false} AgreedChannels(c: Community, t: Tables, now: nat)
    ensures Agrees(c, t, now) ==> c.channels == StoredChannels(t)
  {
  }

  lemma {:induction false} UnreadableSkipped(rows: map<OverwriteKey, Overwrite>, ch: ChannelId, targetType: string,
                                             id: string, o: Overwrite)
    requires targetType in TARGET_TYPES && !Readable(o)
    ensures Target(KindOf(targetType), id) !in OverwritesIn(rows[OverwriteKey(ch, targetType, id) := o], ch)
  {
  }

  /** The statement fails its CHECK or finds no row, while memory has changed. */
  lemma {:induction false} UncheckedOverwrite(c: Community, t: Tables, id: ChannelId, change: ChannelEdit, now: nat)
    requires Stored(c, t, now) && id in c.channels && !change.Retitle? && change.targetType !in TARGET_TYPES
    requires !Storable(c, Alter(id, change))
    ensures !Agrees(Apply(c, Alter(id, change)), PersistAlter(t, id, change), now)
  {
    hide ReadMembers, ReadChannels, OverwritesIn, LatestGeneration;
    AgreedNames(c, t, now);
    AlterIgnored(t, id, change);
    var g := Target(KindOf(change.targetType), change.targetId);
    assert change.PutOverwrite? ==> g in Altered(c.channels[id], change).overwrites;
    assert Altered(c.channels[id], change).overwrites != c.channels[id].overwrites;
    assert Apply(c, Alter(id, change)).channels[id] != c.channels[id];
  }

  /**
   Store agreement, one effect at a time and exactly: memory and tables still agree after an effect and its
   statements if and only if the tables can hold the effect.
   */
  lemma {:induction false} EffectStored(c: Community, t: Tables, effect: Effect, now: nat)
    requires Stored(c, t, now) && Fresh(c, effect) && now < TWO_TO_THE_63
    ensures Agrees(Apply(c, effect), Persist(t, c.generation, effect), now) <==> Storable(c, effect)
    ensures Storable(c, effect) ==> Stored(Apply(c, effect), Persist(t, c.generation, effect), now)
  {
    hide Persist, Apply, Load;
    AgreedNames(c, t, now);
    if Storable(c, effect) {
      EffectKept(c, t, effect, now);
    } else if effect.AddRole? || effect.ChangeRole? {
      LostRole(c, t, effect, now);
    } else {
      EffectLost(c, t, effect, now);
    }
  }

  lemma {:induction false} EffectLost(c: Community, t: Tables, effect: Effect, now: nat)
    requires Stored(c, t, now) && Fresh(c, effect) && now < TWO_TO_THE_63
    requires !Storable(c, effect) && (effect.Adjust? || effect.Alter?)
    ensures !Agrees(Apply(c, effect), Persist(t, c.generation, effect), now)
  {
    hide Load, Expire, Apply;
    match effect {
      case Adjust(p, edit) => LostTimeout(c, t, p, edit.until, now);
      case Alter(id, change) =>
        if change.targetType in TARGET_TYPES {
          UnreadableOverwrite(c, t, id, change, now);
        } else {
          UncheckedOverwrite(c, t, id, change, now);
        }
    }
  }

  lemma {:induction false} LoadedIsFresh(c: Community, t: Tables, effect: Effect, now: nat)
    requires Stored(c, t, now) && Fresh(c, effect) && Storable(c, effect)
    ensures Fresh(Load(t, now), effect) && Storable(Load(t, now), effect)
  {
  }

  lemma {:induction false} EffectKept(c: Community, t: Tables, effect: Effect, now: nat)
    requires Stored(c, t, now) && Fresh(c, effect) && Storable(c, effect)
    ensures Stored(Apply(c, effect), Persist(t, c.generation, effect), now)
  {
    hide Persist, Apply, Load, Expire, Fresh, Storable, Consistent, AllReadable, LatestGeneration;
    AgreedNames(c, t, now);
    LoadLater(t, now, now);
    AlikeEffects(c, Load(t, now), effect, now);
    LoadedIsFresh(c, t, effect, now);
    PersistSound(t, effect, now);
    PersistLoads(t, effect, now);
  }

  // ---------------------------------------------------------------------------
  // Steps and runs
  // ---------------------------------------------------------------------------

  /** Memory and tables agree, and there is a key and a role to load. */
  ghost predicate Settled(l: Live, now: nat) {
    Stored(l.memory, l.tables, now) && ROLE_EVERYONE_ID in l.memory.roles && l.memory.generation in l.memory.keys
  }

  ghost predicate StorableEvent(l: Live, e: Event) {
    e.Call? ==> Storable(l.memory, Resolve(l, e).0)
  }

  lemma {:induction false} WarrantedIsFresh(c: Community, p: Pseudonym, r: Request, now: nat, effect: Effect)
    requires Warranted(c, p, r, now, effect)
    ensures Fresh(c, effect)
  {
  }

  lemma {:induction false} StaysLoadable(c: Community, effect: Effect)
    requires ROLE_EVERYONE_ID in c.roles && c.generation in c.keys
    requires effect.DropRole? ==> effect.role != ROLE_EVERYONE_ID
    ensures var c' := Apply(c, effect); ROLE_EVERYONE_ID in c'.roles && c'.generation in c'.keys
  {
  }

  lemma {:induction false} CallStored(l: Live, e: Event)
    requires e.Call? && Settled(l, e.now) && e.now < TWO_TO_THE_63
    ensures Agrees(Step(l, e).0.memory, Step(l, e).0.tables, e.now) <==> StorableEvent(l, e)
    ensures StorableEvent(l, e) ==> Settled(Step(l, e).0, e.now)
  {
    var effect := Resolve(l, e).0;
    ResolvedIsWarranted(l, e);
    WarrantedIsFresh(l.memory, e.sender, e.request, e.now, effect);
    WarrantedFits(l.memory, e.sender, e.request, e.now, effect);
    hide Resolve, Warranted, Storable, Fresh, Persist, Apply, Agrees, Stored;
    EffectStored(l.memory, l.tables, effect, e.now);
    StaysLoadable(l.memory, effect);
  }

  /** With a key and a role in the tables, hosting creates nothing and reads everything. */
  lemma {:induction false} ReloadsWhatIsStored(l: Live, freshKey: Key, now: nat)
    requires Settled(l, now)
    ensures Reloaded(l.tables, freshKey, now) == Live(Load(l.tables, now), l.tables)
    ensures Settled(Reloaded(l.tables, freshKey, now), now)
  {
    AgreedNames(l.memory, l.tables, now);
    assert ROLE_EVERYONE_ID in ReadRoles(l.tables.roles);
    LoadLater(l.tables, now, now);
    assert l.memory.keys == Load(l.tables, now).keys;
  }

  lemma {:induction false} RegisterStored(l: Live, creatorKey: Pseudonym, name: string, now: nat)
    requires Settled(l, now)
    ensures Settled(Registering(l, creatorKey, name, now), now)
  {
    var effect := RegisterEffect(l.memory, creatorKey, name, now);
    RegisterIs(l, creatorKey, name, now);
    assert Fresh(l.memory, effect) && Storable(l.memory, effect);
    hide Registering, Register, PersistRegister, Fresh, Storable, Persist, Apply, Stored;
    EffectKept(l.memory, l.tables, effect, now);
    StaysLoadable(l.memory, effect);
  }

  /** One event: memory and tables still agree afterwards if and only if the tables can hold its effect. */
  lemma {:induction false} StepStored(l: Live, e: Event, earlier: nat)
    requires Settled(l, earlier) && earlier <= e.now < TWO_TO_THE_63
    ensures Agrees(Step(l, e).0.memory, Step(l, e).0.tables, e.now) <==> StorableEvent(l, e)
    ensures StorableEvent(l, e) ==> Settled(Step(l, e).0, e.now)
  {
    StoredLater(l.memory, l.tables, earlier, e.now);
    if e.Call? {
      hide *;
      CallStored(l, e);
    } else {
      ReloadsWhatIsStored(l, e.freshKey, e.now);
      RegisterStored(Reloaded(l.tables, e.freshKey, e.now), e.creatorKey, e.creatorName, e.now);
      hide Reloaded, Registering, Agrees, Consistent, AllReadable;
    }
  }

  ghost predicate StorableRun(l: Live, events: seq<Event>)
    decreases events
  {
    events == [] || (StorableEvent(l, events[0]) && StorableRun(Step(l, events[0]).0, events[1..]))
  }

  lemma {:induction false} RunStored(l: Live, events: seq<Event>, start: nat)
    requires Settled(l, start) && InTimeOrder(events, start) && StorableRun(l, events)
    requires LastTime(events, start) < TWO_TO_THE_63
    ensures Settled(Run(l, events), LastTime(events, start))
    decreases events
  {
    hide Step, StorableEvent, Settled, Agrees;
    if events != [] {
      TimesRise(events, start);
      StepStored(l, events[0], start);
      RunStored(Step(l, events[0]).0, events[1..], events[0].now);
    }
  }

  /** After each of the events, reading the tables gives what is in memory. */
  ghost predicate AgreesThroughout(l: Live, events: seq<Event>)
    decreases events
  {
    events == [] ||
    var l' := Step(l, events[0]).0;
    Agrees(l'.memory, l'.tables, events[0].now) && AgreesThroughout(l', events[1..])
  }

  /** Memory and tables agree all through a run if and only if the tables can hold every effect of it. */
  lemma {:induction false} AgreesThroughoutIff(l: Live, events: seq<Event>, start: nat)
    requires Settled(l, start) && InTimeOrder(events, start)
    requires LastTime(events, start) < TWO_TO_THE_63
    ensures AgreesThroughout(l, events) <==> StorableRun(l, events)
    decreases events
  {
    hide Step, StorableEvent, Settled, Agrees;
    if events != [] {
      TimesRise(events, start);
      StepStored(l, events[0], start);
      if StorableEvent(l, events[0]) { AgreesThroughoutIff(Step(l, events[0]).0, events[1..], events[0].now); }
    }
  }

  lemma {:induction false} DefaultsReadBack()
    ensures forall r :: r in DefaultRoles() ==> ReadsBack(DefaultRoles()[r].permissions)
    ensures ReadRoles(DefaultRoles()) == DefaultRoles()
  {
    assert ReadsBack(EVERYONE_PERMISSIONS) && ReadsBack(MEMBER_PERMISSIONS) && ReadsBack(MODERATOR_PERMISSIONS);
    assert ReadsBack(ADMIN_PERMISSIONS) && ReadsBack(ALL_PERMISSIONS);
  }

  lemma {:induction false} NewLoads(key: Key, now: nat)
    ensures Load(NewTables(key), now) == NewCommunity(key)
  {
    DefaultsReadBack();
    FirstKey(key);
    hide DefaultRoles, LatestGeneration, ReadRoles;
    assert ReadMembers(map[], {}, map[], now) == map[] && ReadChannels(map[], map[]) == map[];
  }

  lemma {:induction false} NewIsSettled(key: Key, now: nat)
    ensures Settled(NewLive(key), now)
  {
    DefaultsReadBack();
    NewLoads(key, now);
    assert AllReadable(NewTables(key)) && Consistent(NewTables(key));
    assert ROLE_EVERYONE_ID in DefaultRoles();
    hide Load, Consistent, AllReadable, DefaultRoles;
    assert AllRefreshed(map[], now) == map[];
  }

  /**
   Store agreement over whole runs: from a newly hosted community on, after any requests and restarts whose effects
   the tables can hold, reading the tables gives what is in memory, but for timeouts that have run out.
   */
  lemma {:induction false} MemoryAndTablesAgree(key: Key, events: seq<Event>, start: nat)
    requires InTimeOrder(events, start) && StorableRun(NewLive(key), events)
    requires LastTime(events, start) < TWO_TO_THE_63
    ensures var l, now := Run(NewLive(key), events), LastTime(events, start);
      Load(l.tables, now) == Expire(l.memory, now)
  {
    hide Step, StorableEvent, Load, Expire;
    NewIsSettled(key, start);
    RunStored(NewLive(key), events, start);
  }
}
