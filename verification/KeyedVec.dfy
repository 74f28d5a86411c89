/**
 A vector of records looked up by a key, as the server keeps its members, roles, channels and overwrites:
 every lookup takes the first match, every removal all of them. `ToMap` is what such a vector means to
 its readers: each key stands for the first record that carries it.
 */
module KeyedVec {
  datatype Entry<K, V> = Entry(key: K, val: V)

  /** Index of the first entry with key `k`, or the length when there is none. */
  function Find<K(==), V>(s: seq<Entry<K, V>>, k: K): (i: nat)
    ensures i <= |s|
    ensures i < |s| ==> s[i].key == k
    ensures forall j :: 0 <= j < i ==> s[j].key != k
  {
    if s == [] then 0 else if s[0].key == k then 0 else 1 + Find(s[1..], k)
  }

  predicate Contains<K(==), V>(s: seq<Entry<K, V>>, k: K) {
    Find(s, k) < |s|
  }

  function Get<K(==), V>(s: seq<Entry<K, V>>, k: K): V
    requires Contains(s, k)
  {
    s[Find(s, k)].val
  }

  /** Without every entry for `k`, the others in the same order. */
  function Without<K(==), V>(s: seq<Entry<K, V>>, k: K): (r: seq<Entry<K, V>>)
    ensures forall j :: 0 <= j < |r| ==> r[j] in s && r[j].key != k
    ensures forall e :: e in s && e.key != k ==> e in r
  {
    if s == [] then []
    else if s[0].key == k then Without(s[1..], k)
    else [s[0]] + Without(s[1..], k)
  }

  ghost predicate Distinct<K, V>(s: seq<Entry<K, V>>) {
    forall i, j :: 0 <= i < j < |s| ==> s[i].key != s[j].key
  }

  ghost function ToMap<K(!new), V>(s: seq<Entry<K, V>>): (m: map<K, V>)
    ensures forall k :: k in m <==> Contains(s, k)
    ensures forall k :: k in m ==> m[k] == Get(s, k)
  {
    var m := map i | 0 <= i < |s| && Find(s, s[i].key) == i :: s[i].key := s[i].val;
    assert forall k :: Contains(s, k) ==> s[Find(s, k)].key == k;
    m
  }

  lemma FindsItself<K, V>(s: seq<Entry<K, V>>, i: nat)
    requires Distinct(s) && i < |s|
    ensures Find(s, s[i].key) == i
  {
  }

  /** `i` is the index of `k` when entry `i` has that key and no earlier entry does. */
  lemma FindIs<K, V>(s: seq<Entry<K, V>>, k: K, i: nat)
    requires i < |s| && s[i].key == k
    requires forall j :: 0 <= j < i ==> s[j].key != k
    ensures Find(s, k) == i
  {
  }

  lemma {:induction false} FindPush<K, V>(s: seq<Entry<K, V>>, k: K, v: V, x: K)
    ensures Find(s + [Entry(k, v)], x) ==
            if Contains(s, x) then Find(s, x) else if x == k then |s| else |s| + 1
  {
    var t := s + [Entry(k, v)];
    if Contains(s, x) {
      FindIs(t, x, Find(s, x));
    } else if x == k {
      assert t[|s|].key == k;
      FindIs(t, x, |s|);
    }
  }

  lemma {:induction false} PushMap<K(!new), V>(s: seq<Entry<K, V>>, k: K, v: V)
    requires !Contains(s, k)
    ensures ToMap(s + [Entry(k, v)]) == ToMap(s)[k := v]
    ensures Distinct(s) ==> Distinct(s + [Entry(k, v)])
  {
    forall x ensures Find(s + [Entry(k, v)], x) ==
                     if Contains(s, x) then Find(s, x) else if x == k then |s| else |s| + 1 {
      FindPush(s, k, v, x);
    }
  }

  lemma {:induction false} FindUpdate<K, V>(s: seq<Entry<K, V>>, k: K, v: V, x: K)
    requires Contains(s, k)
    ensures Find(s[Find(s, k) := Entry(k, v)], x) == Find(s, x)
  {
    var t := s[Find(s, k) := Entry(k, v)];
    if Contains(s, x) {
      FindIs(t, x, Find(s, x));
    }
  }

  lemma {:induction false} UpdateMap<K(!new), V>(s: seq<Entry<K, V>>, k: K, v: V)
    requires Contains(s, k)
    ensures ToMap(s[Find(s, k) := Entry(k, v)]) == ToMap(s)[k := v]
    ensures Distinct(s) ==> Distinct(s[Find(s, k) := Entry(k, v)])
  {
    forall x ensures Find(s[Find(s, k) := Entry(k, v)], x) == Find(s, x) {
      FindUpdate(s, k, v, x);
    }
  }

  lemma {:induction false} WithoutDistinct<K, V>(s: seq<Entry<K, V>>, k: K)
    requires Distinct(s)
    ensures Distinct(Without(s, k))
  {
    if s != [] {
      WithoutDistinct(s[1..], k);
      var r := Without(s[1..], k);
      assert forall j :: 0 <= j < |r| ==> r[j] in s[1..];
    }
  }

  lemma {:induction false} FindWithout<K, V>(s: seq<Entry<K, V>>, k: K, x: K)
    requires Distinct(s)
    ensures Contains(Without(s, k), x) <==> Contains(s, x) && x != k
    ensures Contains(Without(s, k), x) ==> Get(Without(s, k), x) == Get(s, x)
  {
  }

  lemma {:induction false} WithoutMap<K(!new), V>(s: seq<Entry<K, V>>, k: K)
    requires Distinct(s)
    ensures ToMap(Without(s, k)) == ToMap(s) - {k}
    ensures Distinct(Without(s, k))
  {
    WithoutDistinct(s, k);
    forall x ensures Contains(Without(s, k), x) <==> Contains(s, x) && x != k
             ensures Contains(Without(s, k), x) ==> Get(Without(s, k), x) == Get(s, x) {
      FindWithout(s, k, x);
    }
  }

  /** A vector with distinct keys has as many entries as its map has keys. */
  lemma {:induction false} MapSize<K(!new), V>(s: seq<Entry<K, V>>)
    requires Distinct(s)
    ensures |ToMap(s)| == |s|
  {
    if s == [] {
      assert ToMap(s) == map[];
    } else {
      var n := |s| - 1;
      var init := s[..n];
      assert s == init + [Entry(s[n].key, s[n].val)];
      assert !Contains(init, s[n].key);
      PushMap(init, s[n].key, s[n].val);
      MapSize(init);
    }
  }
}
