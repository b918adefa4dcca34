/** Sums over the entries of a map and over a sequence, independent of iteration order, and the
    list operations of `std::list` that the cache uses. */
module Sums {

  /** Sum of a weight over all entries of a map. */
  ghost function Sum<K, V>(m: map<K, V>, w: (K, V) -> int): int {
    if m.Keys == {} then 0
    else var k :| k in m; w(k, m[k]) + Sum(m - {k}, w)
  }

  lemma {:induction false} SumTake<K, V>(m: map<K, V>, w: (K, V) -> int, k: K)
    requires k in m
    ensures Sum(m, w) == w(k, m[k]) + Sum(m - {k}, w)
    decreases |m|
  {
    var j :| j in m && Sum(m, w) == w(j, m[j]) + Sum(m - {j}, w);
    if j != k {
      SumTake(m - {j}, w, k);
      SumTake(m - {k}, w, j);
      assert m - {j} - {k} == m - {k} - {j};
    }
  }

  lemma SumPut<K, V>(m: map<K, V>, w: (K, V) -> int, k: K, v: V)
    ensures Sum(m[k := v], w) == w(k, v) + Sum(m - {k}, w)
  {
    SumTake(m[k := v], w, k);
    assert m[k := v] - {k} == m - {k};
  }

  lemma SumInsert<K, V>(m: map<K, V>, w: (K, V) -> int, k: K, v: V)
    requires k !in m
    ensures Sum(m[k := v], w) == Sum(m, w) + w(k, v)
  {
    SumPut(m, w, k, v);
    assert m - {k} == m;
  }

  lemma SumUpdate<K, V>(m: map<K, V>, w: (K, V) -> int, k: K, v: V)
    requires k in m
    ensures Sum(m[k := v], w) == Sum(m, w) - w(k, m[k]) + w(k, v)
  {
    SumPut(m, w, k, v);
    SumTake(m, w, k);
  }

  lemma ScaleUp(c: nat, x: int, y: int)
    requires x <= y
    ensures c * x <= c * y
  {
  }

  lemma {:induction false} SumLinearBound<K, V>(m: map<K, V>, w: (K, V) -> int, a: (K, V) -> int, b: (K, V) -> int, c: nat)
    requires forall k :: k in m ==> w(k, m[k]) <= a(k, m[k]) + c * b(k, m[k])
    ensures Sum(m, w) <= Sum(m, a) + c * Sum(m, b)
    decreases |m|
  {
    if m.Keys != {} {
      var k :| k in m;
      SumTake(m, w, k);
      SumTake(m, a, k);
      SumTake(m, b, k);
      SumLinearBound(m - {k}, w, a, b, c);
      Distribute(c, b(k, m[k]), Sum(m - {k}, b));
    }
  }

  lemma {:induction false} SumOfParts<K, V>(m: map<K, V>, w: (K, V) -> int, a: (K, V) -> int, b: (K, V) -> int)
    requires forall k :: k in m ==> w(k, m[k]) == a(k, m[k]) + b(k, m[k])
    ensures Sum(m, w) == Sum(m, a) + Sum(m, b)
    decreases |m|
  {
    if m.Keys != {} {
      var k :| k in m;
      SumTake(m, w, k);
      SumTake(m, a, k);
      SumTake(m, b, k);
      SumOfParts(m - {k}, w, a, b);
    }
  }

  lemma Distribute(c: int, x: int, y: int)
    ensures c * (x + y) == c * x + c * y
  {
  }

  lemma {:induction false} SumAtLeast<K, V>(m: map<K, V>, w: (K, V) -> int, k: K)
    requires forall j :: j in m ==> w(j, m[j]) >= 0
    ensures Sum(m, w) >= 0
    ensures k in m ==> Sum(m, w) >= w(k, m[k])
    decreases |m|
  {
    if m.Keys != {} {
      var j := if k in m then k else var x :| x in m; x;
      SumTake(m, w, j);
      SumAtLeast(m - {j}, w, j);
    }
  }

  /** Sum of a weight over the elements of a sequence. */
  function Total<T>(s: seq<T>, w: T -> int): int {
    if s == [] then 0 else w(s[0]) + Total(s[1..], w)
  }

  lemma {:induction false} TotalUpdate<T>(s: seq<T>, w: T -> int, i: nat, t: T)
    requires i < |s|
    ensures Total(s[i := t], w) == Total(s, w) - w(s[i]) + w(t)
  {
    if i == 0 {
      assert s[i := t][1..] == s[1..];
    } else {
      assert s[i := t][1..] == s[1..][i - 1 := t];
      TotalUpdate(s[1..], w, i - 1, t);
    }
  }

  lemma {:induction false} TotalAtLeast<T>(s: seq<T>, w: T -> int, i: nat)
    requires forall t :: t in s ==> w(t) >= 0
    ensures Total(s, w) >= 0
    ensures i < |s| ==> Total(s, w) >= w(s[i])
  {
    if s != [] {
      assert s[0] in s && forall t :: t in s[1..] ==> t in s;
      TotalAtLeast(s[1..], w, if i > 0 then i - 1 else 0);
    }
  }

  /** If two different positions weigh at least one each, the total is at least two. */
  lemma {:induction false} TotalTwo<T>(s: seq<T>, w: T -> int, i: nat, j: nat)
    requires forall t :: t in s ==> w(t) >= 0
    requires i < j < |s| && w(s[i]) >= 1 && w(s[j]) >= 1
    ensures Total(s, w) >= 2
  {
    assert forall t :: t in s[1..] ==> t in s;
    if i == 0 {
      TotalAtLeast(s[1..], w, j - 1);
    } else {
      assert s[0] in s;
      TotalTwo(s[1..], w, i - 1, j - 1);
    }
  }

  lemma {:induction false} TotalPositive<T>(s: seq<T>, w: T -> int) returns (i: nat)
    requires Total(s, w) > 0
    ensures i < |s| && w(s[i]) > 0
  {
    if w(s[0]) > 0 {
      i := 0;
    } else {
      i := TotalPositive(s[1..], w);
      i := i + 1;
    }
  }

  lemma {:induction false} TotalZero<T>(s: seq<T>, w: T -> int)
    requires forall t :: t in s ==> w(t) == 0
    ensures Total(s, w) == 0
  {
    if s != [] {
      assert s[0] in s && forall t :: t in s[1..] ==> t in s;
      TotalZero(s[1..], w);
    }
  }

  lemma {:induction false} TotalBound<T>(s: seq<T>, w: T -> int, c: nat)
    requires forall t :: t in s ==> w(t) <= c
    ensures Total(s, w) <= c * |s|
  {
    if s != [] {
      assert s[0] in s && forall t :: t in s[1..] ==> t in s;
      TotalBound(s[1..], w, c);
      assert c * |s| == c + c * (|s| - 1);
    }
  }

  // ----- lists -----

  ghost predicate NoDup<T>(s: seq<T>) {
    forall i, j :: 0 <= i < j < |s| ==> s[i] != s[j]
  }

  function Elements<T>(s: seq<T>): set<T> {
    set x | x in s
  }

  /** `std::list::remove`: drops every occurrence, keeps the order of the rest. */
  function Remove<T(==, !new)>(s: seq<T>, x: T): (r: seq<T>)
    ensures |r| <= |s|
    ensures forall y :: y in r <==> y in s && y != x
  {
    if s == [] then []
    else if s[0] == x then Remove(s[1..], x)
    else [s[0]] + Remove(s[1..], x)
  }

  lemma {:induction false} RemoveAbsent<T(!new)>(s: seq<T>, x: T)
    requires x !in s
    ensures Remove(s, x) == s
  {
    if s != [] { RemoveAbsent(s[1..], x); }
  }

  /** On a duplicate-free list `remove` cuts out the one occurrence. */
  lemma {:induction false} RemoveAt<T(!new)>(s: seq<T>, k: nat)
    requires NoDup(s) && k < |s|
    ensures Remove(s, s[k]) == s[..k] + s[k + 1..]
  {
    if k == 0 {
      RemoveAbsent(s[1..], s[0]);
    } else {
      RemoveAt(s[1..], k - 1);
      assert s[1..][..k - 1] == s[1..k] && s[1..][k..] == s[k + 1..];
      assert s[..k] == [s[0]] + s[1..k];
    }
  }

  lemma RemoveNoDup<T(!new)>(s: seq<T>, x: T)
    requires NoDup(s)
    ensures NoDup(Remove(s, x))
  {
    if x in s {
      var k :| 0 <= k < |s| && s[k] == x;
      RemoveAt(s, k);
    } else {
      RemoveAbsent(s, x);
    }
  }
}
