/**
 The desktop client's permission masks: numbers of up to 53 bits, combined with JavaScript's `&` and `|`, which see
 only the low 32 bits of their operands and answer with a signed 32-bit number (section 7.1.6 of ECMA-262).
 */
module ClientPermissions {
  import opened Common
  import ServerSide = Permissions
  import CommunityModel

  const P31: nat := 0x8000_0000
  const P32: nat := 0x1_0000_0000
  const P53: nat := 0x20_0000_0000_0000

  // ---------------------------------------------------------------------------
  // Numbers as sets of bits
  // ---------------------------------------------------------------------------

  predicate Bit(x: nat, k: nat) {
    if k == 0 then x % 2 == 1 else Bit(x / 2, k - 1)
  }

  function Or(x: nat, y: nat): nat
    decreases x + y
  {
    if x == 0 && y == 0 then 0 else 2 * Or(x / 2, y / 2) + if x % 2 == 1 || y % 2 == 1 then 1 else 0
  }

  function And(x: nat, y: nat): nat
    decreases x + y
  {
    if x == 0 && y == 0 then 0 else 2 * And(x / 2, y / 2) + if x % 2 == 1 && y % 2 == 1 then 1 else 0
  }

  function Pow2(n: nat): (p: nat)
    ensures p > 0
  {
    if n == 0 then 1 else 2 * Pow2(n - 1)
  }

  lemma {:induction false} ZeroBit(k: nat)
    ensures !Bit(0, k)
  {
    if k > 0 { ZeroBit(k - 1); }
  }

  lemma {:induction false} OrBit(x: nat, y: nat, k: nat)
    ensures Bit(Or(x, y), k) <==> Bit(x, k) || Bit(y, k)
    decreases x + y
  {
    if x == 0 && y == 0 {
      ZeroBit(k);
    } else if k > 0 {
      OrBit(x / 2, y / 2, k - 1);
    }
  }

  lemma {:induction false} AndBit(x: nat, y: nat, k: nat)
    ensures Bit(And(x, y), k) <==> Bit(x, k) && Bit(y, k)
    decreases x + y
  {
    if x == 0 && y == 0 {
      ZeroBit(k);
    } else if k > 0 {
      AndBit(x / 2, y / 2, k - 1);
    }
  }

  lemma {:induction false} AndShrinks(x: nat, y: nat)
    ensures And(x, y) <= y
    decreases x + y
  {
    if x != 0 || y != 0 { AndShrinks(x / 2, y / 2); }
  }

  /** A number is determined by its bits. */
  lemma {:induction false} SameBits(x: nat, y: nat)
    requires forall k: nat :: Bit(x, k) <==> Bit(y, k)
    ensures x == y
    decreases x + y
  {
    if x != 0 || y != 0 {
      forall k: nat ensures Bit(x / 2, k) <==> Bit(y / 2, k) {
        assert Bit(x, k + 1) <==> Bit(y, k + 1);
      }
      assert Bit(x, 0) <==> Bit(y, 0);
      SameBits(x / 2, y / 2);
    }
  }

  /** The bits below bit `n`, and the number the others form. */
  function Low(x: nat, n: nat): nat {
    if n == 0 then 0 else 2 * Low(x / 2, n - 1) + x % 2
  }

  function High(x: nat, n: nat): nat {
    if n == 0 then x else High(x / 2, n - 1)
  }

  lemma {:induction false} LowBit(x: nat, n: nat, k: nat)
    ensures Bit(Low(x, n), k) <==> k < n && Bit(x, k)
  {
    if n == 0 {
      ZeroBit(k);
    } else if k > 0 {
      LowBit(x / 2, n - 1, k - 1);
    }
  }

  lemma {:induction false} HighBit(x: nat, n: nat, k: nat)
    ensures Bit(High(x, n), k) <==> Bit(x, k + n)
  {
    if n > 0 { HighBit(x / 2, n - 1, k); }
  }

  lemma {:induction false} LowAndHigh(x: nat, n: nat)
    ensures Low(x, n) < Pow2(n) && x == Low(x, n) + Pow2(n) * High(x, n)
  {
    if n > 0 {
      LowAndHigh(x / 2, n - 1);
      assert Pow2(n) * High(x, n) == 2 * (Pow2(n - 1) * High(x / 2, n - 1));
    }
  }

  lemma {:induction false} PowersOfTwo()
    ensures Pow2(31) == P31 && Pow2(32) == P32
  {
    assert Pow2(8) == 256;
    assert Pow2(16) == 0x1_0000;
    assert Pow2(24) == 0x100_0000;
    assert Pow2(31) == P31;
  }

  /** Remainder and quotient by 2^31 and 2^32 are the low and the high bits. */
  lemma {:induction false} DivisionIsSplit(x: nat)
    ensures x % P31 == Low(x, 31) && x / P31 == High(x, 31) && x % P32 == Low(x, 32)
  {
    PowersOfTwo();
    LowAndHigh(x, 31);
    LowAndHigh(x, 32);
    hide Low, High, Pow2;
    DivideBy(x, P31, Low(x, 31), High(x, 31));
    DivideBy(x, P32, Low(x, 32), High(x, 32));
  }

  lemma {:induction false} DivideBy(x: nat, p: nat, low: nat, high: nat)
    requires p == P31 || p == P32
    requires low < p && x == low + p * high
    ensures x % p == low && x / p == high
  {
  }

  lemma {:induction false} OnlyBit(j: nat, k: nat)
    ensures Bit(Pow2(j), k) <==> j == k
  {
    if j == 0 {
      if k > 0 { ZeroBit(k - 1); }
    } else if k > 0 {
      OnlyBit(j - 1, k - 1);
    }
  }

  // ---------------------------------------------------------------------------
  // JavaScript's bitwise operators
  // ---------------------------------------------------------------------------

  function ToUint32(x: int): nat {
    x % P32
  }

  function ToInt32(x: int): int {
    if x % P32 < P31 then x % P32 else x % P32 - P32
  }

  function BitOr(x: int, y: int): int {
    ToInt32(Or(ToUint32(x), ToUint32(y)))
  }

  function BitAnd(x: int, y: int): int {
    ToInt32(And(ToUint32(x), ToUint32(y)))
  }

  /** The 31-bit mask keeps the bits below bit 31 of any number, negative ones included. */
  lemma {:induction false} AndLow31(x: int)
    ensures BitAnd(x, 0x7FFF_FFFF) == ToUint32(x) % P31
  {
    var u := ToUint32(x);
    assert And(u, P31 - 1) == u % P31 by {
      forall k: nat ensures Bit(And(u, P31 - 1), k) <==> Bit(u % P31, k) {
        AndBit(u, P31 - 1, k);
        DivisionIsSplit(u);
        LowBit(u, 31, k);
        PowersOfTwo();
        LowOnes(31, k);
      }
      SameBits(And(u, P31 - 1), u % P31);
    }
  }

  lemma {:induction false} LowOnes(n: nat, k: nat)
    ensures Bit(Pow2(n) - 1, k) <==> k < n
  {
    if n == 0 {
      ZeroBit(k);
    } else if k > 0 {
      LowOnes(n - 1, k - 1);
    }
  }

  lemma {:induction false} LowOfOr(x: nat, y: nat, n: nat)
    ensures Low(Or(x, y), n) == Or(Low(x, n), Low(y, n))
  {
    if n > 0 { LowOfOr(x / 2, y / 2, n - 1); }
  }

  lemma {:induction false} Remainder31(x: int, q: int, r: int)
    requires 0 <= r < P31 && x == q * P31 + r
    ensures x % P31 == r
  {
    var d, m := x / P31, x % P31;
    assert x == d * P31 + m && (d - q) * P31 == r - m;
  }

  lemma {:induction false} ModuloTwice(x: int)
    ensures x % P32 % P31 == x % P31
    ensures ToUint32(ToInt32(x)) % P31 == x % P31
  {
    var q, r := x / P32, x % P32;
    assert x == q * P32 + r;
    if r < P31 {
      Remainder31(x, 2 * q, r);
      Remainder31(r, 0, r);
    } else {
      Remainder31(x, 2 * q + 1, r - P31);
      Remainder31(r, 1, r - P31);
    }
    SignedAndBack(x);
  }

  lemma {:induction false} SignedAndBack(x: int)
    ensures ToUint32(ToInt32(x)) == ToUint32(x)
  {
  }

  /** Combining two numbers and masking to 31 bits is the union of their bits below bit 31. */
  lemma {:induction false} LowBitsOfOr(x: nat, y: nat)
    ensures BitAnd(BitOr(x, y), 0x7FFF_FFFF) == Or(x % P31, y % P31)
  {
    var u, v := x % P32, y % P32;
    AndLow31(BitOr(x, y));
    ModuloTwice(x);
    ModuloTwice(y);
    ModuloTwice(Or(u, v));
    LowOfOr(u, v, 31);
    DivisionIsSplit(u);
    DivisionIsSplit(v);
    DivisionIsSplit(Or(u, v));
  }

  // ---------------------------------------------------------------------------
  // Checking a permission
  // ---------------------------------------------------------------------------

  const ADMINISTRATOR: nat := 8

  /**
   All named permissions below bit 31. MODERATE_MEMBERS is added to the last of them before the union is
   taken, and the union then drops that bit, which is bit 40.
   */
  const ALL_PERMISSIONS: nat := 0x1FF7EFFF

  /** Division by a power of two is exact in floating point. */
  predicate HasPermission(perms: nat, required: nat) {
    BitAnd(perms, ADMINISTRATOR) != 0 ||
    if required > 0x7FFF_FFFF then perms / required % 2 == 1 else BitAnd(perms, required) == required
  }

  lemma {:induction false} AndWithSmall(x: nat, y: nat)
    requires y < P31
    ensures BitAnd(x, y) == And(x % P32, y)
    ensures forall k: nat :: Bit(And(x % P32, y), k) <==> Bit(x, k) && Bit(y, k)
  {
    AndShrinks(x % P32, y);
    forall k: nat ensures Bit(And(x % P32, y), k) <==> Bit(x, k) && Bit(y, k) {
      AndWithSmallBit(x, y, k);
    }
  }

  lemma {:induction false} AndWithSmallBit(x: nat, y: nat, k: nat)
    requires y < P31
    ensures Bit(And(x % P32, y), k) <==> Bit(x, k) && Bit(y, k)
  {
    hide And, Low, High, Bit;
    DivisionIsSplit(x);
    DivisionIsSplit(y);
    AndBit(x % P32, y, k);
    LowBit(x, 32, k);
    LowBit(y, 31, k);
  }

  ghost predicate Includes(perms: nat, required: nat) {
    forall k: nat :: Bit(required, k) ==> Bit(perms, k)
  }

  /** A check of a mask below bit 31 asks for every bit of it, or for the administrator bit. */
  lemma {:induction false} HasEveryBit(perms: nat, required: nat)
    requires required < P31
    ensures HasPermission(perms, required) <==> Bit(perms, 3) || Includes(perms, required)
  {
    AdministratorBit(perms);
    AndWithSmall(perms, required);
    var both := And(perms % P32, required);
    if Includes(perms, required) {
      forall k: nat ensures Bit(both, k) <==> Bit(required, k) {
      }
      SameBits(both, required);
    } else {
      var k: nat :| Bit(required, k) && !Bit(perms, k);
      assert !Bit(both, k);
      assert both != required;
    }
  }

  lemma {:induction false} AdministratorBit(perms: nat)
    ensures BitAnd(perms, ADMINISTRATOR) != 0 <==> Bit(perms, 3)
  {
    AndWithSmall(perms, ADMINISTRATOR);
    var both := And(perms % P32, ADMINISTRATOR);
    assert Pow2(3) == ADMINISTRATOR;
    forall k: nat ensures Bit(ADMINISTRATOR, k) <==> k == 3 { OnlyBit(3, k); }
    assert Bit(both, 3) <==> Bit(perms, 3);
    if both == 0 {
      ZeroBit(3);
    } else if !Bit(perms, 3) {
      forall k: nat ensures Bit(both, k) <==> Bit(0, k) { ZeroBit(k); }
      SameBits(both, 0);
    }
  }

  lemma {:induction false} QuotientIsHigh(x: nat, k: nat)
    ensures x / Pow2(k) == High(x, k)
  {
    LowAndHigh(x, k);
    Quotient(x, Pow2(k), Low(x, k), High(x, k));
  }

  lemma {:induction false} Quotient(x: nat, p: nat, low: nat, high: nat)
    requires p > 0 && low < p && x == low + p * high
    ensures x / p == high
  {
    var q := x / p;
    assert p * q <= x < p * q + p;
    if q < high {
      MulGrows(p, q + 1, high);
    } else if high < q {
      MulGrows(p, high + 1, q);
    }
  }

  lemma {:induction false} MulGrows(p: nat, a: nat, b: nat)
    requires a <= b
    ensures p * a <= p * b
  {
  }

  lemma {:induction false} Pow2Grows(j: nat, k: nat)
    requires j <= k
    ensures Pow2(j) <= Pow2(k)
  {
    if j < k { Pow2Grows(j, k - 1); }
  }

  /** A check of a single permission, below bit 31 or above, looks at that bit and the administrator's. */
  lemma {:induction false} HasSingleBit(perms: nat, k: nat)
    ensures HasPermission(perms, Pow2(k)) <==> Bit(perms, 3) || Bit(perms, k)
  {
    PowersOfTwo();
    if k < 31 {
      Pow2Grows(k, 30);
      forall j: nat ensures Bit(Pow2(k), j) <==> j == k { OnlyBit(k, j); }
      HasEveryBit(perms, Pow2(k));
    } else {
      Pow2Grows(31, k);
      AdministratorBit(perms);
      QuotientIsHigh(perms, k);
      HighBit(perms, k, 0);
    }
  }

  // ---------------------------------------------------------------------------
  // Combining the masks of a member's roles
  // ---------------------------------------------------------------------------

  datatype Role = Role(id: nat, permissions: nat, position: int)

  /** The first role with that id. */
  function Find(allRoles: seq<Role>, id: nat): Option<Role> {
    if allRoles == [] then None
    else if allRoles[0].id == id then Some(allRoles[0])
    else Find(allRoles[1..], id)
  }

  /** Looking a role up finds the first one with the id, and nothing only when there is none. */
  lemma {:induction false} FindIs(allRoles: seq<Role>, id: nat)
    ensures Find(allRoles, id) == None <==> forall r :: r in allRoles ==> r.id != id
    ensures Find(allRoles, id).Some? ==>
              exists i :: 0 <= i < |allRoles| && allRoles[i] == Find(allRoles, id).value && allRoles[i].id == id
                          && forall j :: 0 <= j < i ==> allRoles[j].id != id
  {
    if allRoles != [] && allRoles[0].id != id {
      FindIs(allRoles[1..], id);
      if Find(allRoles[1..], id).Some? {
        var i :| 0 <= i < |allRoles[1..]| && allRoles[1..][i] == Find(allRoles[1..], id).value
          && allRoles[1..][i].id == id && forall j :: 0 <= j < i ==> allRoles[1..][j].id != id;
        assert allRoles[i + 1] == allRoles[1..][i];
        forall j | 0 <= j < i + 1 ensures allRoles[j].id != id {
          if j > 0 { assert allRoles[j] == allRoles[1..][j - 1]; }
        }
      }
    }
  }

  /** The masks of the roles found, in the order of the ids. */
  function Masks(roleIds: seq<nat>, allRoles: seq<Role>): seq<nat> {
    if roleIds == [] then []
    else
      var rest := Masks(roleIds[..|roleIds| - 1], allRoles);
      var role := Find(allRoles, roleIds[|roleIds| - 1]);
      if role.Some? then rest + [role.value.permissions] else rest
  }

  function LowUnion(masks: seq<nat>): nat {
    if masks == [] then 0 else Or(LowUnion(masks[..|masks| - 1]), masks[|masks| - 1] % P31)
  }

  function TopHigh(masks: seq<nat>): nat {
    if masks == [] then 0 else Max(TopHigh(masks[..|masks| - 1]), masks[|masks| - 1] / P31)
  }

  /** What the client makes of several masks: the union of the low bits, and the greatest of the high parts. */
  function Combined(masks: seq<nat>): nat {
    LowUnion(masks) + P31 * TopHigh(masks)
  }

  lemma {:induction false} LowUnionBit(masks: seq<nat>, k: nat)
    ensures LowUnion(masks) < P31
    ensures Bit(LowUnion(masks), k) <==> k < 31 && InUnion(masks, k)
  {
    if masks == [] {
      ZeroBit(k);
    } else {
      var init, m := masks[..|masks| - 1], masks[|masks| - 1];
      LowUnionBit(init, k);
      OrBit(LowUnion(init), m % P31, k);
      DivisionIsSplit(m);
      LowBit(m, 31, k);
      PowersOfTwo();
      OrBelow(LowUnion(init), m % P31, 31);
      InUnionPush(init, m, k);
      assert masks == init + [m];
    }
  }

  ghost predicate InUnion(masks: seq<nat>, k: nat) {
    exists m :: m in masks && Bit(m, k)
  }

  lemma {:induction false} InUnionPush(init: seq<nat>, m: nat, k: nat)
    ensures InUnion(init + [m], k) <==> InUnion(init, k) || Bit(m, k)
  {
  }

  lemma {:induction false} OrBelow(x: nat, y: nat, n: nat)
    requires x < Pow2(n) && y < Pow2(n)
    ensures Or(x, y) < Pow2(n)
  {
    if n > 0 { OrBelow(x / 2, y / 2, n - 1); }
  }

  lemma {:induction false} TopHighIsMax(masks: seq<nat>)
    ensures forall m :: m in masks ==> m / P31 <= TopHigh(masks)
    ensures masks != [] ==> exists m :: m in masks && m / P31 == TopHigh(masks)
    ensures masks == [] ==> TopHigh(masks) == 0
  {
    if masks != [] {
      var init, last := masks[..|masks| - 1], masks[|masks| - 1];
      TopHighIsMax(init);
      assert masks == init + [last];
      assert last in masks;
      if TopHigh(masks) != last / P31 && init != [] {
        var m :| m in init && m / P31 == TopHigh(init);
        assert m in masks;
      }
    }
  }

  /** The bits of a combined mask: below bit 31 the union, above it those of the greatest high part. */
  lemma {:induction false} CombinedBit(masks: seq<nat>, k: nat)
    ensures k < 31 ==> (Bit(Combined(masks), k) <==> InUnion(masks, k))
    ensures k >= 31 ==> (Bit(Combined(masks), k) <==> Bit(TopHigh(masks), k - 31))
  {
    var x := Combined(masks);
    LowUnionBit(masks, k);
    assert x % P31 == LowUnion(masks) && x / P31 == TopHigh(masks);
    DivisionIsSplit(x);
    LowBit(x, 31, k);
    if k >= 31 { HighBit(x, 31, k - 31); }
  }

  /** One of the roles has every bit from bit 31 up that any of them has. */
  ghost predicate OneHasAllHighBits(masks: seq<nat>) {
    masks == [] || exists m :: m in masks && HasHighBitsOf(m, masks)
  }

  ghost predicate HasHighBitsOf(m: nat, masks: seq<nat>) {
    forall n, k: nat :: n in masks && k >= 31 && Bit(n, k) ==> Bit(m, k)
  }

  lemma {:induction false} FewerBits(x: nat, y: nat)
    requires forall k: nat :: Bit(x, k) ==> Bit(y, k)
    ensures x <= y
    decreases x + y
  {
    if x != 0 {
      forall k: nat | Bit(x / 2, k) ensures Bit(y / 2, k) {
        assert Bit(x, k + 1) ==> Bit(y, k + 1);
      }
      assert Bit(x, 0) ==> Bit(y, 0);
      FewerBits(x / 2, y / 2);
    }
  }

  ghost predicate Exact(masks: seq<nat>) {
    forall k: nat :: Bit(Combined(masks), k) <==> InUnion(masks, k)
  }

  lemma {:induction false} HighPartBit(m: nat, k: nat)
    ensures Bit(m / P31, k) <==> Bit(m, k + 31)
  {
    DivisionIsSplit(m);
    HighBit(m, 31, k);
  }

  lemma {:induction false} DominatedIsExact(masks: seq<nat>)
    requires OneHasAllHighBits(masks)
    ensures Exact(masks)
  {
    TopHighIsMax(masks);
    forall k: nat ensures Bit(Combined(masks), k) <==> InUnion(masks, k) {
      CombinedBit(masks, k);
      if masks == [] {
        if k >= 31 { ZeroBit(k - 31); }
      } else {
        var m :| m in masks && HasHighBitsOf(m, masks);
        var top :| top in masks && top / P31 == TopHigh(masks);
        forall j: nat ensures Bit(top / P31, j) ==> Bit(m / P31, j) {
          HighPartBit(top, j);
          HighPartBit(m, j);
        }
        FewerBits(top / P31, m / P31);
        if k >= 31 { HighPartBit(m, k - 31); }
      }
    }
  }

  lemma {:induction false} ExactIsDominated(masks: seq<nat>)
    requires Exact(masks)
    ensures OneHasAllHighBits(masks)
  {
    TopHighIsMax(masks);
    if masks != [] {
      var top :| top in masks && top / P31 == TopHigh(masks);
      forall n, k: nat | n in masks && k >= 31 && Bit(n, k) ensures Bit(top, k) {
        assert InUnion(masks, k);
        CombinedBit(masks, k);
        HighPartBit(top, k - 31);
      }
      assert HasHighBitsOf(top, masks);
    }
  }

  /** The combined mask is the union of the roles' masks exactly when one of them has all their bits from bit 31 up. */
  lemma {:induction false} CombinedIsUnionIff(masks: seq<nat>)
    ensures (forall k: nat :: Bit(Combined(masks), k) <==> InUnion(masks, k)) <==> OneHasAllHighBits(masks)
  {
    if Exact(masks) { ExactIsDominated(masks); }
    if OneHasAllHighBits(masks) { DominatedIsExact(masks); }
  }

  /** Roles whose part from bit 31 up is nothing or one common value, such as one bit they share. */
  lemma {:induction false} OneHighPartIsExact(masks: seq<nat>, high: nat)
    requires forall m :: m in masks ==> m / P31 in {0, high}
    ensures forall k: nat :: Bit(Combined(masks), k) <==> InUnion(masks, k)
  {
    if masks != [] {
      TopHighIsMax(masks);
      var top :| top in masks && top / P31 == TopHigh(masks);
      forall n, k: nat | n in masks && k >= 31 && Bit(n, k) ensures Bit(top, k) {
        HighPartBit(n, k - 31);
        HighPartBit(top, k - 31);
        ZeroBit(k - 31);
      }
      assert HasHighBitsOf(top, masks);
    }
    DominatedIsExact(masks);
  }

  /** The number whose bits are the mask. */
  ghost predicate HasBits(m: nat, mask: ServerSide.Mask) {
    forall k: nat :: Bit(m, k) <==> k in mask
  }

  /** From bit 31 up each default role has what those before it have. */
  lemma {:induction false} HighBitsGrow(i: nat, j: nat, k: nat)
    requires i <= j < 5 && 31 <= k && k in CommunityModel.DefaultRole(i).permissions
    ensures k in CommunityModel.DefaultRole(j).permissions
  {
  }

  ghost predicate AreDefaultMasks(masks: seq<nat>, ids: seq<nat>) {
    |masks| == |ids| &&
    forall i :: 0 <= i < |ids| ==> ids[i] < 5 && HasBits(masks[i], CommunityModel.DefaultRole(ids[i]).permissions)
  }

  /** Any selection of the default roles is combined exactly: the one with the greatest id has all the high bits. */
  lemma {:induction false} DefaultRolesAreExact(masks: seq<nat>, ids: seq<nat>)
    requires AreDefaultMasks(masks, ids)
    ensures forall k: nat :: Bit(Combined(masks), k) <==> InUnion(masks, k)
  {
    if masks != [] {
      var top := Greatest(ids);
      forall n, k: nat | n in masks && k >= 31 && Bit(n, k) ensures Bit(masks[top], k) {
        var i :| 0 <= i < |masks| && masks[i] == n;
        HighBitsGrow(ids[i], ids[top], k);
      }
      assert HasHighBitsOf(masks[top], masks);
    }
    DominatedIsExact(masks);
  }

  ghost function Greatest(ids: seq<nat>): (top: nat)
    requires ids != []
    ensures top < |ids| && forall i :: 0 <= i < |ids| ==> ids[i] <= ids[top]
  {
    if |ids| == 1 then 0
    else
      var rest := Greatest(ids[..|ids| - 1]);
      if ids[rest] < ids[|ids| - 1] then |ids| - 1 else rest
  }

  /** Two unlike custom roles the client gets wrong: bits 34 and 35 together come out as bit 35 alone. */
  lemma {:induction false} UnlikeHighPartsLoseBits()
    ensures var masks := [0x4_0000_0000, 0x8_0000_0000];
            InUnion(masks, 34) && !Bit(Combined(masks), 34)
  {
    var masks := [0x4_0000_0000, 0x8_0000_0000];
    assert Pow2(3) == 8;
    assert masks[..1] == [0x4_0000_0000] && masks[0] in masks;
    assert TopHigh([0x4_0000_0000]) == 8;
    assert TopHigh(masks) == 16 == Pow2(4);
    HighPartBit(0x4_0000_0000, 3);
    CombinedBit(masks, 34);
    OnlyBit(4, 3);
    OnlyBit(3, 3);
  }

  /** The order of the roles, and holding one twice, make no difference - exact or not. */
  lemma {:induction false} OrderAndRepeatsDoNotMatter(a: seq<nat>, b: seq<nat>)
    requires forall m :: m in a <==> m in b
    ensures Combined(a) == Combined(b)
  {
    forall k: nat ensures Bit(LowUnion(a), k) <==> Bit(LowUnion(b), k) {
      LowUnionBit(a, k);
      LowUnionBit(b, k);
      assert InUnion(a, k) <==> InUnion(b, k);
    }
    SameBits(LowUnion(a), LowUnion(b));
    TopHighIsMax(a);
    TopHighIsMax(b);
    assert a == [] <==> b == [] by {
      if a != [] { assert a[0] in b; }
      if b != [] { assert b[0] in a; }
    }
  }

  /** A member's combined mask answers a single-bit check as the roles do, whenever the combination is exact. */
  lemma {:induction false} ChecksWhatRolesGrant(roleIds: seq<nat>, allRoles: seq<Role>, k: nat)
    requires k < 31 || OneHasAllHighBits(Masks(roleIds, allRoles))
    ensures HasPermission(Combined(Masks(roleIds, allRoles)), Pow2(k)) <==>
            exists id :: id in roleIds && Find(allRoles, id).Some? &&
                         (Bit(Find(allRoles, id).value.permissions, k) || Bit(Find(allRoles, id).value.permissions, 3))
  {
    var masks := Masks(roleIds, allRoles);
    HasSingleBit(Combined(masks), k);
    CombinedBit(masks, k);
    CombinedBit(masks, 3);
    if k >= 31 { DominatedIsExact(masks); }
    InUnionIs(roleIds, allRoles, k);
    InUnionIs(roleIds, allRoles, 3);
  }

  lemma {:induction false} InUnionIs(roleIds: seq<nat>, allRoles: seq<Role>, k: nat)
    ensures InUnion(Masks(roleIds, allRoles), k) <==>
            exists id :: id in roleIds && Find(allRoles, id).Some? && Bit(Find(allRoles, id).value.permissions, k)
  {
    var masks := Masks(roleIds, allRoles);
    MasksAre(roleIds, allRoles);
    if InUnion(masks, k) {
      var m :| m in masks && Bit(m, k);
      var id :| id in roleIds && Find(allRoles, id).Some? && Find(allRoles, id).value.permissions == m;
    }
    if id :| id in roleIds && Find(allRoles, id).Some? && Bit(Find(allRoles, id).value.permissions, k) {
      assert Grants(roleIds, allRoles, Find(allRoles, id).value.permissions);
    }
  }

  ghost predicate Grants(roleIds: seq<nat>, allRoles: seq<Role>, mask: nat) {
    exists id :: id in roleIds && Find(allRoles, id).Some? && Find(allRoles, id).value.permissions == mask
  }

  lemma {:induction false} MasksAre(roleIds: seq<nat>, allRoles: seq<Role>)
    ensures forall m :: m in Masks(roleIds, allRoles) <==> Grants(roleIds, allRoles, m)
  {
    if roleIds != [] {
      var init, last := roleIds[..|roleIds| - 1], roleIds[|roleIds| - 1];
      assert roleIds == init + [last];
      MasksAre(init, allRoles);
      var role := Find(allRoles, last);
      forall m ensures m in Masks(roleIds, allRoles) <==> Grants(roleIds, allRoles, m) {
        assert last in roleIds;
        if Grants(init, allRoles, m) {
          var id :| id in init && Find(allRoles, id).Some? && Find(allRoles, id).value.permissions == m;
          assert id in roleIds;
        }
      }
    }
  }

  /** The two sides hold the same roles: the client's list as numbers, the server's as sets of bits. */
  ghost predicate SameRoles(allRoles: seq<Role>, roles: map<nat, ServerSide.Role>) {
    forall id :: (id in roles <==> Find(allRoles, id).Some?) &&
      (id in roles ==> forall k: nat :: k in roles[id].permissions <==> Bit(Find(allRoles, id).value.permissions, k))
  }

  /**
   For a member who holds @everyone, as every member does, and an exact combination, the client computes the very
   permissions that the server takes from the roles.
   */
  lemma {:induction false} ClientAgreesWithServer(roleIds: seq<nat>, allRoles: seq<Role>,
                                                  roles: map<nat, ServerSide.Role>)
    requires SameRoles(allRoles, roles) && OneHasAllHighBits(Masks(roleIds, allRoles))
    requires ServerSide.ROLE_EVERYONE_ID in roleIds
    ensures forall k: nat :: Bit(Combined(Masks(roleIds, allRoles)), k) <==>
              k in ServerSide.RoleBits({ServerSide.ROLE_EVERYONE_ID} + ElementsOf(roleIds), roles)
  {
    var masks := Masks(roleIds, allRoles);
    DominatedIsExact(masks);
    assert {ServerSide.ROLE_EVERYONE_ID} + ElementsOf(roleIds) == ElementsOf(roleIds);
    forall k: nat ensures InUnion(masks, k) <==> k in ServerSide.RoleBits(ElementsOf(roleIds), roles) {
      InUnionIs(roleIds, allRoles, k);
    }
  }

  /** Client and server number the permissions that are checked alike. */
  lemma {:induction false} SameNumbers()
    ensures Pow2(ServerSide.CREATE_INSTANT_INVITE) == 1 && Pow2(ServerSide.KICK_MEMBERS) == 2
    ensures Pow2(ServerSide.BAN_MEMBERS) == 4 && Pow2(ServerSide.ADMINISTRATOR) == 8 == ADMINISTRATOR
    ensures Pow2(ServerSide.MANAGE_CHANNELS) == 16 && Pow2(ServerSide.MANAGE_COMMUNITY) == 32
    ensures Pow2(ServerSide.ADD_REACTIONS) == 64 && Pow2(ServerSide.STREAM) == 512
    ensures Pow2(ServerSide.VIEW_CHANNEL) == 1024 && Pow2(ServerSide.SEND_MESSAGES) == 2048
    ensures Pow2(ServerSide.SPEAK) == 0x20_0000 && Pow2(ServerSide.MANAGE_ROLES) == 0x1000_0000
    ensures Pow2(ServerSide.MODERATE_MEMBERS) == 0x100_0000_0000
  {
    assert Pow2(8) == 256;
    assert Pow2(16) == 0x1_0000;
    assert Pow2(24) == 0x100_0000;
    assert Pow2(32) == P32;
  }

  // ---------------------------------------------------------------------------
  // The loops
  // ---------------------------------------------------------------------------

  method CalculateBasePermissions(roleIds: seq<nat>, allRoles: seq<Role>, isHosted: bool) returns (perms: nat)
    requires forall r :: r in allRoles ==> r.permissions < P53
    ensures perms == if isHosted then ALL_PERMISSIONS else Combined(Masks(roleIds, allRoles))
    ensures perms < P53
  {
    if isHosted {
      return ALL_PERMISSIONS;
    }
    perms := 0;
    var i := 0;
    while i < |roleIds|
      invariant 0 <= i <= |roleIds|
      invariant perms == Combined(Masks(roleIds[..i], allRoles))
      invariant perms < P53
    {
      assert roleIds[..i + 1][..i] == roleIds[..i];
      var role := Find(allRoles, roleIds[i]);
      if role.Some? {
        var mask := role.value.permissions;
        FoundIn(allRoles, roleIds[i]);
        CombineOne(Masks(roleIds[..i], allRoles), mask);
        var lowBits := BitAnd(BitOr(perms, mask), 0x7FFF_FFFF);
        var highPerms := mask - BitAnd(mask, 0x7FFF_FFFF);
        var highCurrent := perms - BitAnd(perms, 0x7FFF_FFFF);
        perms := lowBits + Max(highPerms, highCurrent);
      }
      i := i + 1;
    }
    assert roleIds[..i] == roleIds;
  }

  lemma {:induction false} FoundIn(allRoles: seq<Role>, id: nat)
    ensures Find(allRoles, id).Some? ==> Find(allRoles, id).value in allRoles
  {
    if allRoles != [] && allRoles[0].id != id { FoundIn(allRoles[1..], id); }
  }

  /** One round of the loop, with the mask so far and the next role's taken apart at bit 31. */
  lemma {:induction false} CombineOne(masks: seq<nat>, mask: nat)
    ensures var perms := Combined(masks);
            var after := BitAnd(BitOr(perms, mask), 0x7FFF_FFFF) +
                         Max(mask - BitAnd(mask, 0x7FFF_FFFF), perms - BitAnd(perms, 0x7FFF_FFFF));
            after == Combined(masks + [mask]) && (perms < P53 && mask < P53 ==> after < P53)
  {
    var perms := Combined(masks);
    assert (masks + [mask])[..|masks|] == masks;
    LowUnionBit(masks, 0);
    LowUnionBit(masks + [mask], 0);
    LowBitsOfOr(perms, mask);
    LowPart(mask);
    LowPart(perms);
    var low, top := LowUnion(masks), TopHigh(masks);
    assert LowUnion(masks + [mask]) == Or(low, mask % P31) && TopHigh(masks + [mask]) == Max(top, mask / P31);
    Round(low, top, perms, mask, Or(low, mask % P31));
  }

  lemma {:induction false} Round(low: nat, top: nat, perms: nat, mask: nat, union: nat)
    requires low < P31 && union < P31 && perms == low + P31 * top
    ensures perms % P31 == low
    ensures union + Max(mask - mask % P31, perms - perms % P31) == union + P31 * Max(top, mask / P31)
    ensures perms < P53 && mask < P53 ==> union + P31 * Max(top, mask / P31) < P53
  {
  }

  lemma {:induction false} LowPart(x: nat)
    ensures BitAnd(x, 0x7FFF_FFFF) == x % P31
  {
    AndLow31(x);
    ModuloTwice(x);
  }

  /** The host's mask has the server's permissions below bit 31, all of them and no others. */
  lemma {:induction false} HostMaskIs(k: nat)
    ensures Bit(ALL_PERMISSIONS, k) <==> k < 31 && k in ServerSide.ALL_PERMISSIONS
  {
    assert Pow2(29) == 0x2000_0000 by { PowersOfTwo(); }
    if k < 29 {
      HostBits(k);
    } else {
      Pow2Grows(29, k);
      QuotientIsHigh(ALL_PERMISSIONS, k);
      HighBit(ALL_PERMISSIONS, k, 0);
    }
  }

  lemma {:induction false} HostBits(k: nat)
    requires k < 29
    ensures Bit(ALL_PERMISSIONS, k) <==> k != 12 && k != 19
  {
    assert Pow2(8) == 256;
    assert Pow2(16) == 0x1_0000;
    assert Pow2(24) == 0x100_0000;
    var byte := if k < 8 then 0 else if k < 16 then 8 else if k < 24 then 16 else 24;
    QuotientIsHigh(ALL_PERMISSIONS, byte);
    HighBit(ALL_PERMISSIONS, byte, k - byte);
    AllOnes(k - byte);
    assert !Bit(0x1FF7EF, 4) && !Bit(0x1FF7, 3);
  }

  /** The low bits of the mask's four parts: all ones but two. */
  lemma {:induction false} AllOnes(k: nat)
    requires k < 8
    ensures Bit(0x1FF7EFFF, k)
    ensures k != 4 ==> Bit(0x1FF7EF, k)
    ensures k != 3 ==> Bit(0x1FF7, k)
    ensures k < 5 ==> Bit(0x1F, k)
  {
    assert Bit(0x1FF7EFFF, 0) && Bit(0x1FF7EFFF, 1) && Bit(0x1FF7EFFF, 2) && Bit(0x1FF7EFFF, 3);
    assert Bit(0x1FF7EFFF, 4) && Bit(0x1FF7EFFF, 5) && Bit(0x1FF7EFFF, 6) && Bit(0x1FF7EFFF, 7);
    assert Bit(0x1FF7EF, 0) && Bit(0x1FF7EF, 1) && Bit(0x1FF7EF, 2) && Bit(0x1FF7EF, 3);
    assert Bit(0x1FF7EF, 5) && Bit(0x1FF7EF, 6) && Bit(0x1FF7EF, 7);
    assert Bit(0x1FF7, 0) && Bit(0x1FF7, 1) && Bit(0x1FF7, 2);
    assert Bit(0x1FF7, 4) && Bit(0x1FF7, 5) && Bit(0x1FF7, 6) && Bit(0x1FF7, 7);
    assert Bit(0x1F, 0) && Bit(0x1F, 1) && Bit(0x1F, 2) && Bit(0x1F, 3) && Bit(0x1F, 4);
  }

  /** A host is treated as holding every permission: the mask has the administrator bit. */
  lemma {:induction false} HostPassesEveryCheck(required: nat)
    ensures HasPermission(ALL_PERMISSIONS, required)
  {
    AdministratorBit(ALL_PERMISSIONS);
  }

  method HighestPosition(roleIds: seq<nat>, allRoles: seq<Role>) returns (max: int)
    ensures max >= -1
    ensures forall id :: id in roleIds && Find(allRoles, id).Some? ==> Find(allRoles, id).value.position <= max
    ensures max == -1 ||
            exists id :: id in roleIds && Find(allRoles, id).Some? && Find(allRoles, id).value.position == max
  {
    max := -1;
    for i := 0 to |roleIds|
      invariant max >= -1
      invariant forall id :: id in roleIds[..i] && Find(allRoles, id).Some? ==>
                  Find(allRoles, id).value.position <= max
      invariant max == -1 ||
                exists id :: id in roleIds && Find(allRoles, id).Some? && Find(allRoles, id).value.position == max
    {
      var id := roleIds[i];
      var role := Find(allRoles, id);
      assert id in roleIds;
      if role.Some? && role.value.position > max {
        max := role.value.position;
      }
      assert roleIds[..i + 1] == roleIds[..i] + [roleIds[i]];
    }
    assert roleIds[..|roleIds|] == roleIds;
  }
}
