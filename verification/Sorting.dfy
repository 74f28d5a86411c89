/**
 A stable sort by an integer key: what the message query and the client's merge rely on.
 */
module Sorting {
  predicate Sorted<T>(s: seq<T>, key: T -> int) {
    forall i, j :: 0 <= i < j < |s| ==> key(s[i]) <= key(s[j])
  }

  function Insert<T>(s: seq<T>, x: T, key: T -> int): seq<T> {
    if s == [] || key(s[|s| - 1]) <= key(x) then s + [x]
    else Insert(s[..|s| - 1], x, key) + [s[|s| - 1]]
  }

  function SortBy<T>(s: seq<T>, key: T -> int): seq<T> {
    if s == [] then [] else Insert(SortBy(s[..|s| - 1], key), s[|s| - 1], key)
  }

  /** The rows whose key is below `bound`, in order. */
  function Below<T>(s: seq<T>, key: T -> int, bound: int): seq<T> {
    if s == [] then []
    else
      var rest := Below(s[..|s| - 1], key, bound);
      if key(s[|s| - 1]) < bound then rest + [s[|s| - 1]] else rest
  }

  lemma {:induction false} InsertKeeps<T>(s: seq<T>, x: T, key: T -> int)
    ensures multiset(Insert(s, x, key)) == multiset(s) + multiset{x}
  {
    if s != [] {
      assert s == s[..|s| - 1] + [s[|s| - 1]];
      InsertKeeps(s[..|s| - 1], x, key);
    }
  }

  /** Sorting neither loses nor invents rows. */
  lemma {:induction false} SortKeeps<T>(s: seq<T>, key: T -> int)
    ensures multiset(SortBy(s, key)) == multiset(s)
  {
    if s != [] {
      assert s == s[..|s| - 1] + [s[|s| - 1]];
      SortKeeps(s[..|s| - 1], key);
      InsertKeeps(SortBy(s[..|s| - 1], key), s[|s| - 1], key);
    }
  }

  lemma {:induction false} InsertSorted<T>(s: seq<T>, x: T, key: T -> int)
    requires Sorted(s, key)
    ensures Sorted(Insert(s, x, key), key)
    ensures forall y :: y in Insert(s, x, key) ==> y == x || y in s
  {
    if s != [] && key(s[|s| - 1]) > key(x) {
      InsertSorted(s[..|s| - 1], x, key);
      var r := Insert(s[..|s| - 1], x, key);
      forall i | 0 <= i < |r| ensures key(r[i]) <= key(s[|s| - 1]) {
        assert r[i] in r;
        if r[i] != x { var j :| 0 <= j < |s| - 1 && s[j] == r[i]; }
      }
    }
  }

  lemma {:induction false} SortBySorts<T>(s: seq<T>, key: T -> int)
    ensures Sorted(SortBy(s, key), key)
  {
    if s != [] {
      SortBySorts(s[..|s| - 1], key);
      InsertSorted(SortBy(s[..|s| - 1], key), s[|s| - 1], key);
    }
  }

  /** Sorting leaves sorted rows where they are, so ties keep their order. */
  lemma {:induction false} SortedStays<T>(s: seq<T>, key: T -> int)
    requires Sorted(s, key)
    ensures SortBy(s, key) == s
  {
    if s != [] {
      SortedStays(s[..|s| - 1], key);
    }
  }

  lemma {:induction false} BelowPush<T>(s: seq<T>, x: T, key: T -> int, bound: int)
    ensures Below(s + [x], key, bound) ==
            if key(x) < bound then Below(s, key, bound) + [x] else Below(s, key, bound)
  {
  }

  lemma {:induction false} BelowSorted<T>(s: seq<T>, key: T -> int, bound: int)
    requires Sorted(s, key)
    requires s != [] && key(s[|s| - 1]) < bound
    ensures Below(s, key, bound) == s
  {
    if |s| > 1 {
      BelowSorted(s[..|s| - 1], key, bound);
    }
  }

  lemma {:induction false} InsertPush<T>(s: seq<T>, y: T, x: T, key: T -> int)
    requires key(x) < key(y)
    ensures Insert(s + [y], x, key) == Insert(s, x, key) + [y]
  {
  }

  lemma {:induction false} InsertBelow<T>(s: seq<T>, x: T, key: T -> int, bound: int)
    requires Sorted(s, key)
    ensures Below(Insert(s, x, key), key, bound) ==
            if key(x) < bound then Insert(Below(s, key, bound), x, key) else Below(s, key, bound)
  {
    if s == [] {
      BelowPush(s, x, key, bound);
    } else if key(s[|s| - 1]) <= key(x) {
      BelowPush(s, x, key, bound);
      if key(x) < bound { BelowSorted(s, key, bound); }
    } else {
      var init, last := s[..|s| - 1], s[|s| - 1];
      assert s == init + [last];
      InsertBelow(init, x, key, bound);
      BelowPush(init, last, key, bound);
      BelowPush(Insert(init, x, key), last, key, bound);
      if key(last) < bound { InsertPush(Below(init, key, bound), last, x, key); }
    }
  }

  lemma {:induction false} SortPush<T>(s: seq<T>, x: T, key: T -> int)
    ensures SortBy(s + [x], key) == Insert(SortBy(s, key), x, key)
  {
  }

  /** Selecting the rows below a bound and sorting them is cutting the sorted rows. */
  lemma {:induction false} SortBelow<T>(s: seq<T>, key: T -> int, bound: int)
    ensures SortBy(Below(s, key, bound), key) == Below(SortBy(s, key), key, bound)
  {
    if s != [] {
      var init, last := s[..|s| - 1], s[|s| - 1];
      assert s == init + [last];
      SortBelow(init, key, bound);
      SortBySorts(init, key);
      SortPush(init, last, key);
      BelowPush(init, last, key, bound);
      InsertBelow(SortBy(init, key), last, key, bound);
      if key(last) < bound { SortPush(Below(init, key, bound), last, key); }
    }
  }

  function Reversed<T>(s: seq<T>): (r: seq<T>)
    ensures |r| == |s|
    ensures forall i :: 0 <= i < |s| ==> r[i] == s[|s| - 1 - i]
  {
    seq(|s|, (i: nat) requires i < |s| => s[|s| - 1 - i])
  }

  /** The first `n` of the reversed rows, reversed back, are the last `n`. */
  lemma {:induction false} ReversedFront<T>(s: seq<T>, n: nat)
    requires n <= |s|
    ensures Reversed(Reversed(s)[..n]) == s[|s| - n..]
  {
  }
}
