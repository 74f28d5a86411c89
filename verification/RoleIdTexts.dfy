/**
 Overwrites name a role by its id written out in decimal. Reading such a text back is what decides whether an
 overwrite counts for the holders of a role.
 */
module RoleIdTexts {
  import opened Common
  import opened Permissions

  const TWO_TO_THE_32: nat := 0x1_0000_0000

  function Digit(d: nat): (c: char)
    requires d < 10
    ensures IsDigit(c) && c as int - '0' as int == d
  {
    ('0' as int + d) as char
  }

  /** The usual decimal rendering of a number. */
  function Decimal(n: nat): string {
    if n < 10 then [Digit(n)] else Decimal(n / 10) + [Digit(n % 10)]
  }

  function Zeros(k: nat): string {
    if k == 0 then "" else Zeros(k - 1) + "0"
  }

  /** The number in decimal, after leading zeros and a plus sign, if any. */
  ghost predicate Spells(s: string, n: nat) {
    exists k: nat :: s == Zeros(k) + Decimal(n) || s == "+" + (Zeros(k) + Decimal(n))
  }

  predicate AllDigits(s: string) {
    forall c :: c in s ==> IsDigit(c)
  }

  lemma {:induction false} ValuePush(s: string, d: nat)
    requires AllDigits(s) && d < 10
    ensures AllDigits(s + [Digit(d)]) && DecimalValue(s + [Digit(d)]) == DecimalValue(s) * 10 + d
  {
    var t := s + [Digit(d)];
    assert t[..|t| - 1] == s;
  }

  lemma {:induction false} ZerosRead(k: nat)
    ensures AllDigits(Zeros(k)) && DecimalValue(Zeros(k)) == 0
  {
    if k > 0 {
      ZerosRead(k - 1);
      assert "0" == [Digit(0)];
      ValuePush(Zeros(k - 1), 0);
    }
  }

  /** Reading the decimal rendering, leading zeros or not, gives the number back. */
  lemma {:induction false} DecimalReads(k: nat, n: nat)
    ensures AllDigits(Zeros(k) + Decimal(n)) && DecimalValue(Zeros(k) + Decimal(n)) == n
  {
    if n < 10 {
      ZerosRead(k);
      ValuePush(Zeros(k), n);
    } else {
      DecimalReads(k, n / 10);
      ValuePush(Zeros(k) + Decimal(n / 10), n % 10);
      assert Zeros(k) + Decimal(n) == Zeros(k) + Decimal(n / 10) + [Digit(n % 10)];
    }
  }

  /** A rendering with one more digit; behind zeros only, the last of them goes. */
  lemma {:induction false} OneMoreDigit(k: nat, v: nat, d: nat) returns (k': nat)
    requires d < 10
    ensures Zeros(k) + Decimal(v) + [Digit(d)] == Zeros(k') + Decimal(v * 10 + d)
  {
    if v == 0 {
      k' := k + 1;
      assert Decimal(0) == "0";
    } else {
      k' := k;
      assert Decimal(v * 10 + d) == Decimal(v) + [Digit(d)];
    }
  }

  /** Every digit string is the rendering of its value after some zeros. */
  lemma {:induction false} DigitsAreDecimal(s: string) returns (k: nat)
    requires s != "" && AllDigits(s)
    ensures s == Zeros(k) + Decimal(DecimalValue(s))
  {
    var init, c := s[..|s| - 1], s[|s| - 1];
    assert IsDigit(c);
    var d: nat := c as int - '0' as int;
    assert s == init + [Digit(d)];
    if init == "" {
      k := 0;
      assert DecimalValue(init) == 0;
      assert Zeros(0) + Decimal(d) == s;
    } else {
      k := DigitsAreDecimal(init);
      k := OneMoreDigit(k, DecimalValue(init), d);
    }
  }

  /** A text is read as a number if and only if it spells that number and the number has 32 bits. */
  lemma {:induction false} ParsesIff(s: string, n: nat)
    ensures ParseU32(s) == Some(n) <==> n < TWO_TO_THE_32 && Spells(s, n)
  {
    var digits := if s != "" && s[0] == '+' then s[1..] else s;
    if ParseU32(s) == Some(n) {
      var k := DigitsAreDecimal(digits);
      assert s == digits || s == "+" + digits;
    }
    if n < TWO_TO_THE_32 && Spells(s, n) {
      var k: nat :| s == Zeros(k) + Decimal(n) || s == "+" + (Zeros(k) + Decimal(n));
      DecimalReads(k, n);
      var plain := Zeros(k) + Decimal(n);
      assert plain != "" && plain[0] in plain;
      assert digits == plain;
    }
  }

  lemma {:induction false} OneNumberOnly(s: string, m: nat, n: nat)
    requires m < TWO_TO_THE_32 && n < TWO_TO_THE_32 && Spells(s, m) && Spells(s, n)
    ensures m == n
  {
    ParsesIff(s, m);
    ParsesIff(s, n);
  }

  /** What was written out reads back. */
  lemma {:induction false} RenderedIdsParse(n: nat)
    requires n < TWO_TO_THE_32
    ensures ParseU32(Decimal(n)) == Some(n)
  {
    assert Zeros(0) + Decimal(n) == Decimal(n);
    ParsesIff(Decimal(n), n);
  }

  /** An overwrite for a role, written out, counts for exactly the holders of that role, @everyone excepted. */
  lemma {:induction false} OverwriteNamesItsRole(r: RoleId, held: set<RoleId>)
    requires r < TWO_TO_THE_32
    ensures NamesHeldRole(Target(RoleTarget, Decimal(r)), held) <==> r != 0 && r in held
  {
    RenderedIdsParse(r);
  }

  /** The target is a role other than @everyone that is held, in whatever spelling. */
  ghost predicate ForHeldRole(t: Target, held: set<RoleId>) {
    t.kind == RoleTarget && exists r :: r in held && 0 < r < TWO_TO_THE_32 && Spells(t.id, r)
  }

  /** The bits the held roles' overwrites allow and deny: those of the overwrites whose text spells a held role. */
  lemma {:induction false} HeldRolesBits(overwrites: map<Target, Overwrite>, held: set<RoleId>, b: nat)
    ensures b in AllowBits(overwrites, held) <==>
            exists t :: t in overwrites && ForHeldRole(t, held) && b in overwrites[t].allow
    ensures b in DenyBits(overwrites, held) <==>
            exists t :: t in overwrites && ForHeldRole(t, held) && b in overwrites[t].deny
  {
    forall t ensures NamesHeldRole(t, held) <==> ForHeldRole(t, held) {
      if NamesHeldRole(t, held) { ParsesIff(t.id, ParseU32(t.id).value); }
      if ForHeldRole(t, held) {
        var r :| r in held && 0 < r < TWO_TO_THE_32 && Spells(t.id, r);
        ParsesIff(t.id, r);
      }
    }
    hide NamesHeldRole, ForHeldRole;
  }
}
