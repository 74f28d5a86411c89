/**
 Role and overwrite records, and the permission calculation over them.

 A `u64` mask is modelled by the set of its one bits (bit numbers 0 to 63), so combining masks is
 union, clearing bits is difference, and a constant with a single bit set is that bit's number.
 */
module Permissions {
  import opened Common
  import opened KeyedVec

  type Mask = set<nat>
  type Pseudonym = string
  type RoleId = nat

  datatype Role = Role(
    name: string, color: nat, permissions: Mask, position: I32, hoist: bool, mentionable: bool)

  datatype OverwriteType = RoleTarget | MemberTarget
  datatype Target = Target(kind: OverwriteType, id: string)
  datatype Overwrite = Overwrite(allow: Mask, deny: Mask)

  const ROLE_EVERYONE_ID: RoleId := 0

  const CREATE_INSTANT_INVITE: nat := 0
  const KICK_MEMBERS: nat := 1
  const BAN_MEMBERS: nat := 2
  const ADMINISTRATOR: nat := 3
  const MANAGE_CHANNELS: nat := 4
  const MANAGE_COMMUNITY: nat := 5
  const ADD_REACTIONS: nat := 6
  const STREAM: nat := 9
  const VIEW_CHANNEL: nat := 10
  const SEND_MESSAGES: nat := 11
  const SPEAK: nat := 21
  const MANAGE_ROLES: nat := 28
  const MODERATE_MEMBERS: nat := 40

  /** Every defined bit: 0-11, 13-18, 20-28, 34-36 and 40. */
  const ALL_PERMISSIONS: Mask :=
    set b: nat | b <= 40 && b != 12 && b != 19 && !(29 <= b <= 33) && !(37 <= b <= 39)

  /** The bits a running timeout takes away. */
  const TIMEOUT_STRIPS: Mask := {SEND_MESSAGES, ADD_REACTIONS, SPEAK, STREAM, CREATE_INSTANT_INVITE}

  const EVERYONE_PERMISSIONS: Mask := {10, 16, 20, 11, 21, 6, 14, 15, 18, 25, 26}
  const MEMBER_PERMISSIONS: Mask := EVERYONE_PERMISSIONS + {CREATE_INSTANT_INVITE}
  const MODERATOR_PERMISSIONS: Mask := MEMBER_PERMISSIONS + {KICK_MEMBERS, 13, 22, 23, MODERATE_MEMBERS}
  const ADMIN_PERMISSIONS: Mask :=
    MODERATOR_PERMISSIONS + {MANAGE_CHANNELS, MANAGE_ROLES, BAN_MEMBERS, 7, 27, MANAGE_COMMUNITY}

  predicate IsAdministrator(perms: Mask) {
    ADMINISTRATOR in perms
  }

  predicate HasPermission(perms: Mask, required: nat) {
    IsAdministrator(perms) || required in perms
  }

  // ---------------------------------------------------------------------------
  // Parsing an overwrite's target id as a role id
  // ---------------------------------------------------------------------------

  predicate IsDigit(c: char) {
    '0' <= c <= '9'
  }

  function DecimalValue(s: string): nat
    requires forall c :: c in s ==> IsDigit(c)
  {
    if s == "" then 0
    else
      assert IsDigit(s[|s| - 1]);
      DecimalValue(s[..|s| - 1]) * 10 + (s[|s| - 1] as int - '0' as int)
  }

  /** An unsigned 32-bit number in text: an optional plus sign, then at least one digit, below 2^32. */
  function ParseU32(s: string): Option<nat> {
    var digits := if s != "" && s[0] == '+' then s[1..] else s;
    if digits == "" || exists c :: c in digits && !IsDigit(c) then None
    else if DecimalValue(digits) < 0x1_0000_0000 then Some(DecimalValue(digits)) else None
  }

  /** A role overwrite counts in step 5 when its id names a held role other than @everyone. */
  predicate NamesHeldRole(t: Target, held: set<RoleId>) {
    t.kind.RoleTarget? &&
    match ParseU32(t.id)
    case Some(id) => id != ROLE_EVERYONE_ID && id in held
    case None => false
  }

  // ---------------------------------------------------------------------------
  // What the calculation means, on unordered data
  // ---------------------------------------------------------------------------

  ghost function RoleBits(held: set<RoleId>, roles: map<RoleId, Role>): Mask {
    set r, b | r in held && r in roles && b in roles[r].permissions :: b
  }

  ghost function AllowBits(overwrites: map<Target, Overwrite>, held: set<RoleId>): Mask {
    set t, b | t in overwrites && NamesHeldRole(t, held) && b in overwrites[t].allow :: b
  }

  ghost function DenyBits(overwrites: map<Target, Overwrite>, held: set<RoleId>): Mask {
    set t, b | t in overwrites && NamesHeldRole(t, held) && b in overwrites[t].deny :: b
  }

  ghost function ApplyAt(perms: Mask, overwrites: map<Target, Overwrite>, t: Target): Mask {
    if t in overwrites then perms - overwrites[t].deny + overwrites[t].allow else perms
  }

  predicate TimedOut(timeout: Option<nat>, now: nat) {
    timeout.Some? && now < timeout.value
  }

  ghost function Effective(held: set<RoleId>, roles: map<RoleId, Role>, overwrites: map<Target, Overwrite>,
                           pseudonym: Pseudonym, timeout: Option<nat>, now: nat): Mask
  {
    var base := RoleBits({ROLE_EVERYONE_ID} + held, roles);
    if IsAdministrator(base) then ALL_PERMISSIONS
    else
      var p4 := ApplyAt(base, overwrites, Target(RoleTarget, "0"));
      var p5 := p4 - DenyBits(overwrites, held) + AllowBits(overwrites, held);
      var p6 := ApplyAt(p5, overwrites, Target(MemberTarget, pseudonym));
      var p7 := if TimedOut(timeout, now) then p6 - TIMEOUT_STRIPS else p6;
      if VIEW_CHANNEL in p7 then p7 else {}
  }

  // ---------------------------------------------------------------------------
  // One bit at a time
  // ---------------------------------------------------------------------------

  /** An overwrite decides a bit it allows or denies, allowing first; any other is as it was. */
  predicate Decided(o: Overwrite, b: nat, otherwise: bool) {
    b in o.allow || (otherwise && b !in o.deny)
  }

  ghost predicate DecidedAt(overwrites: map<Target, Overwrite>, t: Target, b: nat, otherwise: bool) {
    if t in overwrites then Decided(overwrites[t], b, otherwise) else otherwise
  }

  /**
   The precedence of everything that speaks about a bit: a running timeout, then the member's overwrite, then the held
   roles' overwrites together, then the one for @everyone, then the roles themselves.
   */
  ghost predicate Survives(held: set<RoleId>, roles: map<RoleId, Role>, overwrites: map<Target, Overwrite>,
                           pseudonym: Pseudonym, timeout: Option<nat>, now: nat, b: nat)
  {
    var byRoles := b in RoleBits({ROLE_EVERYONE_ID} + held, roles);
    var byEveryone := DecidedAt(overwrites, Target(RoleTarget, "0"), b, byRoles);
    var byHeld := Decided(Overwrite(AllowBits(overwrites, held), DenyBits(overwrites, held)), b, byEveryone);
    var byMember := DecidedAt(overwrites, Target(MemberTarget, pseudonym), b, byHeld);
    byMember && !(TimedOut(timeout, now) && b in TIMEOUT_STRIPS)
  }

  /** A member without the administrator bit has a bit if and only if that bit and the one to see the channel survive. */
  lemma {:induction false} EffectiveBit(held: set<RoleId>, roles: map<RoleId, Role>, overwrites: map<Target, Overwrite>,
                                        pseudonym: Pseudonym, timeout: Option<nat>, now: nat, b: nat)
    requires !IsAdministrator(RoleBits({ROLE_EVERYONE_ID} + held, roles))
    ensures b in Effective(held, roles, overwrites, pseudonym, timeout, now) <==>
            Survives(held, roles, overwrites, pseudonym, timeout, now, VIEW_CHANNEL)
            && Survives(held, roles, overwrites, pseudonym, timeout, now, b)
  {
    hide RoleBits, AllowBits, DenyBits, TimedOut;
  }

  /**
   The documented order for the overwrites of held roles is to allow first and deny after; the calculation denies
   first. The two agree if and only if no bit is both allowed and denied.
   */
  lemma {:induction false} DocumentedOrderAgreesIff(perms: Mask, overwrites: map<Target, Overwrite>, held: set<RoleId>)
    ensures perms - DenyBits(overwrites, held) + AllowBits(overwrites, held) ==
            (perms + AllowBits(overwrites, held)) - DenyBits(overwrites, held)
            <==> AllowBits(overwrites, held) !! DenyBits(overwrites, held)
  {
    hide AllowBits, DenyBits;
    var allow, deny := AllowBits(overwrites, held), DenyBits(overwrites, held);
    if allow !! deny {
      assert perms - deny + allow == perms + allow - deny;
    } else {
      var b :| b in allow && b in deny;
      assert b in perms - deny + allow && b !in perms + allow - deny;
    }
  }

  /** An input on which they differ: one held role's overwrite allows sending messages, another's denies it. */
  lemma {:induction false} DocumentedOrderDiffers(perms: Mask)
    ensures var one, two := Target(RoleTarget, "1"), Target(RoleTarget, "2");
      var overwrites := map[one := Overwrite({SEND_MESSAGES}, {}), two := Overwrite({}, {SEND_MESSAGES})];
      var allow, deny := AllowBits(overwrites, {1, 2}), DenyBits(overwrites, {1, 2});
      SEND_MESSAGES in perms - deny + allow && SEND_MESSAGES !in perms + allow - deny
  {
    assert "1"[..0] == "" && "2"[..0] == "";
    assert DecimalValue("1") == 1 && DecimalValue("2") == 2;
    assert ParseU32("1") == Some(1) && ParseU32("2") == Some(2);
    var one, two := Target(RoleTarget, "1"), Target(RoleTarget, "2");
    var overwrites := map[one := Overwrite({SEND_MESSAGES}, {}), two := Overwrite({}, {SEND_MESSAGES})];
    assert one in overwrites && two in overwrites && NamesHeldRole(one, {1, 2}) && NamesHeldRole(two, {1, 2});
  }

  // ---------------------------------------------------------------------------
  // The calculation as the server runs it, over vectors in whatever order they are stored
  // ---------------------------------------------------------------------------

  /** Steps 1 and 2: @everyone's bits, then every held role's bits. */
  method OrRolePermissions(roleIds: seq<RoleId>, roles: seq<Entry<RoleId, Role>>) returns (base: Mask)
    ensures base == RoleBits({ROLE_EVERYONE_ID} + ElementsOf(roleIds), ToMap(roles))
  {
    base := if Contains(roles, ROLE_EVERYONE_ID) then Get(roles, ROLE_EVERYONE_ID).permissions else {};
    for i := 0 to |roleIds|
      invariant base == RoleBits({ROLE_EVERYONE_ID} + ElementsOf(roleIds[..i]), ToMap(roles))
    {
      assert roleIds[..i + 1] == roleIds[..i] + [roleIds[i]];
      ElementsPush(roleIds[..i], roleIds[i]);
      if roleIds[i] != ROLE_EVERYONE_ID && Contains(roles, roleIds[i]) {
        base := base + Get(roles, roleIds[i]).permissions;
      }
    }
    assert roleIds[..|roleIds|] == roleIds;
  }

  /** Steps 4 and 6: in a vector with distinct targets, the loop applies at most the one overwrite for `t`. */
  method ApplyMatching(start: Mask, overwrites: seq<Entry<Target, Overwrite>>, t: Target) returns (perms: Mask)
    requires Distinct(overwrites)
    ensures perms == ApplyAt(start, ToMap(overwrites), t)
  {
    perms := start;
    for i := 0 to |overwrites|
      invariant perms ==
                if Find(overwrites, t) < i then ApplyAt(start, ToMap(overwrites), t) else start
    {
      if overwrites[i].key == t {
        FindsItself(overwrites, i);
        perms := perms - overwrites[i].val.deny + overwrites[i].val.allow;
      }
    }
  }

  lemma OverwriteBitsPut(m: map<Target, Overwrite>, t: Target, o: Overwrite, held: set<RoleId>)
    requires t !in m
    ensures AllowBits(m[t := o], held) == AllowBits(m, held) + if NamesHeldRole(t, held) then o.allow else {}
    ensures DenyBits(m[t := o], held) == DenyBits(m, held) + if NamesHeldRole(t, held) then o.deny else {}
  {
    var n := m[t := o];
    forall b ensures b in AllowBits(n, held) <==> b in AllowBits(m, held) || (NamesHeldRole(t, held) && b in o.allow) {
      if b in AllowBits(m, held) {
        var k :| k in m && NamesHeldRole(k, held) && b in m[k].allow;
        assert n[k] == m[k];
      }
      if NamesHeldRole(t, held) && b in o.allow { assert n[t] == o; }
    }
    forall b ensures b in DenyBits(n, held) <==> b in DenyBits(m, held) || (NamesHeldRole(t, held) && b in o.deny) {
      if b in DenyBits(m, held) {
        var k :| k in m && NamesHeldRole(k, held) && b in m[k].deny;
        assert n[k] == m[k];
      }
      if NamesHeldRole(t, held) && b in o.deny { assert n[t] == o; }
    }
  }

  /** Step 5: accumulate allow and deny bits over the held roles' overwrites. */
  method RoleOverwrites(overwrites: seq<Entry<Target, Overwrite>>, held: seq<RoleId>)
    returns (allow: Mask, deny: Mask)
    requires Distinct(overwrites)
    ensures allow == AllowBits(ToMap(overwrites), ElementsOf(held))
    ensures deny == DenyBits(ToMap(overwrites), ElementsOf(held))
  {
    allow, deny := {}, {};
    ghost var ids := ElementsOf(held);
    for i := 0 to |overwrites|
      invariant allow == AllowBits(ToMap(overwrites[..i]), ids)
      invariant deny == DenyBits(ToMap(overwrites[..i]), ids)
    {
      var t, o := overwrites[i].key, overwrites[i].val;
      assert overwrites[..i + 1] == overwrites[..i] + [Entry(t, o)];
      PushMap(overwrites[..i], t, o);
      OverwriteBitsPut(ToMap(overwrites[..i]), t, o, ids);
      if t.kind.RoleTarget? {
        var id := ParseU32(t.id);
        if id.Some? && id.value != ROLE_EVERYONE_ID && id.value in held {
          allow := allow + o.allow;
          deny := deny + o.deny;
        }
      }
    }
    assert overwrites[..|overwrites|] == overwrites;
  }

  method CalculatePermissions(roleIds: seq<RoleId>, roles: seq<Entry<RoleId, Role>>,
                              overwrites: seq<Entry<Target, Overwrite>>, pseudonym: Pseudonym,
                              timeout: Option<nat>, now: nat)
    returns (perms: Mask)
    requires Distinct(overwrites)
    ensures perms == Effective(ElementsOf(roleIds), ToMap(roles), ToMap(overwrites), pseudonym, timeout, now)
  {
    perms := OrRolePermissions(roleIds, roles);
    if IsAdministrator(perms) {
      return ALL_PERMISSIONS;
    }
    perms := ApplyMatching(perms, overwrites, Target(RoleTarget, "0"));
    var allow, deny := RoleOverwrites(overwrites, roleIds);
    perms := perms - deny + allow;
    perms := ApplyMatching(perms, overwrites, Target(MemberTarget, pseudonym));
    if TimedOut(timeout, now) {
      perms := perms - TIMEOUT_STRIPS;
    }
    if VIEW_CHANNEL !in perms {
      perms := {};
    }
  }
}
