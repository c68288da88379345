/** Sums of a weight over sequences and maps. */
module Sums {

  ghost function Total<T(!new)>(s: seq<T>, f: T -> nat): nat {
    if s == [] then 0 else Total(s[..|s| - 1], f) + f(s[|s| - 1])
  }

  lemma TotalAppend<T(!new)>(s: seq<T>, x: T, f: T -> nat)
    ensures Total(s + [x], f) == Total(s, f) + f(x)
  {
    assert (s + [x])[..|s|] == s;
  }

  lemma {:induction false} TotalConcat<T(!new)>(a: seq<T>, b: seq<T>, f: T -> nat)
    ensures Total(a + b, f) == Total(a, f) + Total(b, f)
    decreases |b|
  {
    if b == [] {
      assert a + b == a;
    } else {
      assert (a + b)[..|a + b| - 1] == a + b[..|b| - 1];
      TotalConcat(a, b[..|b| - 1], f);
    }
  }

  lemma TotalTail<T(!new)>(s: seq<T>, f: T -> nat)
    requires s != []
    ensures Total(s, f) == f(s[0]) + Total(s[1..], f)
  {
    assert s == [s[0]] + s[1..];
    TotalConcat([s[0]], s[1..], f);
    assert Total([s[0]], f) == Total([], f) + f(s[0]) by { assert [s[0]][..0] == []; }
  }

  lemma TotalUpdate<T(!new)>(s: seq<T>, i: nat, x: T, f: T -> nat)
    requires i < |s|
    ensures Total(s[i := x], f) + f(s[i]) == Total(s, f) + f(x)
  {
    var a, b := s[..i], s[i + 1..];
    assert s == (a + [s[i]]) + b && s[i := x] == (a + [x]) + b;
    TotalConcat(a + [s[i]], b, f);
    TotalConcat(a + [x], b, f);
    TotalAppend(a, s[i], f);
    TotalAppend(a, x, f);
  }

  lemma {:induction false} TotalZero<T(!new)>(s: seq<T>, f: T -> nat)
    requires forall x :: x in s ==> f(x) == 0
    ensures Total(s, f) == 0
  {
    if s != [] {
      TotalZero(s[..|s| - 1], f);
    }
  }

  lemma {:induction false} TotalAtLeast<T(!new)>(s: seq<T>, i: nat, f: T -> nat)
    requires i < |s|
    ensures f(s[i]) <= Total(s, f)
  {
    if i < |s| - 1 {
      TotalAtLeast(s[..|s| - 1], i, f);
    }
  }

  ghost function TotalMap<K(!new), V(!new)>(m: map<K, V>, f: V -> nat): nat
    decreases |m.Keys|
  {
    if m == map[] then 0
    else
      var k :| k in m;
      f(m[k]) + TotalMap(m - {k}, f)
  }

  lemma {:induction false} TotalMapPick<K(!new), V(!new)>(m: map<K, V>, k: K, f: V -> nat)
    requires k in m
    ensures TotalMap(m, f) == f(m[k]) + TotalMap(m - {k}, f)
    decreases |m.Keys|
  {
    var j :| j in m && TotalMap(m, f) == f(m[j]) + TotalMap(m - {j}, f);
    if j != k {
      TotalMapPick(m - {j}, k, f);
      TotalMapPick(m - {k}, j, f);
      assert m - {j} - {k} == m - {k} - {j};
    }
  }

  lemma TotalMapUpdate<K(!new), V(!new)>(m: map<K, V>, k: K, v: V, f: V -> nat)
    ensures TotalMap(m[k := v], f) + (if k in m then f(m[k]) else 0) == TotalMap(m, f) + f(v)
  {
    TotalMapPick(m[k := v], k, f);
    if k in m {
      TotalMapPick(m, k, f);
      assert m[k := v] - {k} == m - {k};
    } else {
      assert m[k := v] - {k} == m;
    }
  }

  lemma {:induction false} TotalMapZero<K(!new), V(!new)>(m: map<K, V>, f: V -> nat)
    requires forall k :: k in m ==> f(m[k]) == 0
    ensures TotalMap(m, f) == 0
    decreases |m.Keys|
  {
    if m != map[] {
      var k :| k in m;
      TotalMapPick(m, k, f);
      TotalMapZero(m - {k}, f);
    }
  }
}
