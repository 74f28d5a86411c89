/** Small vocabulary shared by every module: optional values, byte strings and the greatest element of a set. */
module Common {
  datatype Option<+T> = None | Some(value: T)

  newtype Byte = b: int | 0 <= b < 0x100
  type Bytes = seq<Byte>

  /** Positions of roles and channels. */
  type I32 = i: int | -0x8000_0000 <= i < 0x8000_0000

  const I32_MAX: I32 := 0x7FFF_FFFF
  const TWO_TO_THE_63: nat := 0x8000_0000_0000_0000
  const TWO_TO_THE_64: nat := 0x1_0000_0000_0000_0000

  function Min(a: int, b: int): int {
    if a < b then a else b
  }

  function Max(a: int, b: int): int {
    if a < b then b else a
  }

  ghost function AnyOf<T>(s: set<T>): (x: T)
    requires s != {}
    ensures x in s
  {
    var x :| x in s;
    x
  }

  ghost function MaxOf(s: set<int>): (m: int)
    requires s != {}
    ensures m in s
    ensures forall x :: x in s ==> x <= m
  {
    var x := AnyOf(s);
    if s == {x} then x
    else
      var rest := s - {x};
      assert s == rest + {x};
      Max(x, MaxOf(rest))
  }

  ghost function ElementsOf<T>(s: seq<T>): set<T> {
    set x | x in s
  }

  lemma ElementsPush<T>(s: seq<T>, x: T)
    ensures ElementsOf(s + [x]) == ElementsOf(s) + {x}
  {
  }

  ghost predicate NoRepeats<T>(s: seq<T>) {
    forall i, j :: 0 <= i < j < |s| ==> s[i] != s[j]
  }
}
