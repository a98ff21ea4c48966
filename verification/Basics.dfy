/** Small shared datatypes and sums over sequences and maps. */
module Basics {
  datatype Option<+T> = None | Some(value: T)

  datatype Result<+T, +E> = Ok(value: T) | Err(error: E)

  /** The sum of a sequence of integers. */
  function Sum(s: seq<int>): int {
    if s == [] then 0 else s[0] + Sum(s[1..])
  }

  lemma {:induction false} SumAppend(s: seq<int>, t: seq<int>)
    ensures Sum(s + t) == Sum(s) + Sum(t)
  {
    if s == [] {
      assert s + t == t;
    } else {
      assert (s + t)[1..] == s[1..] + t;
      SumAppend(s[1..], t);
    }
  }

  lemma {:induction false} SumUpdate(s: seq<int>, i: nat, x: int)
    requires i < |s|
    ensures Sum(s[i := x]) == Sum(s) - s[i] + x
  {
    if i == 0 {
      assert s[0 := x][1..] == s[1..];
    } else {
      assert s[i := x][1..] == s[1..][i - 1 := x];
      SumUpdate(s[1..], i - 1, x);
    }
  }

  lemma {:induction false} SumNonNegative(s: seq<int>)
    requires forall i :: 0 <= i < |s| ==> s[i] >= 0
    ensures Sum(s) >= 0
    ensures forall i :: 0 <= i < |s| ==> s[i] <= Sum(s)
  {
    if s != [] {
      SumNonNegative(s[1..]);
      forall i | 0 <= i < |s|
        ensures s[i] <= Sum(s)
      {
        if i > 0 { assert s[i] == s[1..][i - 1]; }
      }
    }
  }

  /** The sum of the values of a map. */
  ghost function MapSum<K>(m: map<K, int>): int
    decreases |m|
  {
    if m == map[] then 0
    else
      var k :| k in m;
      assert |m - {k}| < |m| by { assert (m - {k}).Keys == m.Keys - {k}; assert |m.Keys| == |m|; assert |(m - {k}).Keys| == |m - {k}|; }
      m[k] + MapSum(m - {k})
  }

  lemma {:induction false} MapSumRemove<K>(m: map<K, int>, k: K)
    requires k in m
    ensures MapSum(m) == m[k] + MapSum(m - {k})
    decreases |m|
  {
    var j :| j in m && MapSum(m) == m[j] + MapSum(m - {j});
    if j != k {
      assert |m - {j}| < |m| by { assert (m - {j}).Keys == m.Keys - {j}; assert |m.Keys| == |m|; assert |(m - {j}).Keys| == |m - {j}|; }
      assert |m - {k}| < |m| by { assert (m - {k}).Keys == m.Keys - {k}; assert |m.Keys| == |m|; assert |(m - {k}).Keys| == |m - {k}|; }
      MapSumRemove(m - {j}, k);
      MapSumRemove(m - {k}, j);
      assert m - {j} - {k} == m - {k} - {j};
    }
  }

  lemma MapSumUpdate<K>(m: map<K, int>, k: K, x: int)
    ensures MapSum(m[k := x]) == MapSum(m) + x - (if k in m then m[k] else 0)
  {
    MapSumRemove(m[k := x], k);
    assert m[k := x] - {k} == m - {k};
    if k in m {
      MapSumRemove(m, k);
    } else {
      assert m - {k} == m;
    }
  }

  lemma {:induction false} MapSumNonNegative<K>(m: map<K, int>)
    requires forall k :: k in m ==> m[k] >= 0
    ensures MapSum(m) >= 0
    ensures forall k :: k in m ==> m[k] <= MapSum(m)
    decreases |m|
  {
    forall k | k in m
      ensures 0 <= m[k] <= MapSum(m)
    {
      MapSumRemove(m, k);
      assert |m - {k}| < |m| by { assert (m - {k}).Keys == m.Keys - {k}; assert |m.Keys| == |m|; assert |(m - {k}).Keys| == |m - {k}|; }
      MapSumNonNegative(m - {k});
    }
    if m != map[] {
      var k :| k in m;
      assert 0 <= m[k] <= MapSum(m);
    }
  }

  lemma {:induction false} MapSumAdd<K>(a: map<K, int>, b: map<K, int>, c: map<K, int>)
    requires a.Keys == b.Keys == c.Keys && forall k :: k in c ==> c[k] == a[k] + b[k]
    ensures MapSum(c) == MapSum(a) + MapSum(b)
    decreases |c|
  {
    if c == map[] {
      assert a == map[] && b == map[];
    } else {
      var k :| k in c;
      assert |c - {k}| < |c| by { assert (c - {k}).Keys == c.Keys - {k}; assert |c.Keys| == |c|; assert |(c - {k}).Keys| == |c - {k}|; }
      MapSumRemove(a, k);
      MapSumRemove(b, k);
      MapSumRemove(c, k);
      MapSumAdd(a - {k}, b - {k}, c - {k});
    }
  }

  // ---- Sequences and text ----

  function Take<T>(s: seq<T>, n: nat): seq<T> {
    if |s| <= n then s else s[..n]
  }

  predicate Distinct<T(==)>(s: seq<T>) {
    s == [] || (s[0] !in s[1..] && Distinct(s[1..]))
  }

  lemma {:induction false} DistinctSnoc<T>(s: seq<T>, a: T)
    requires Distinct(s) && a !in s
    ensures Distinct(s + [a])
  {
    if s != [] {
      assert (s + [a])[1..] == s[1..] + [a];
      DistinctSnoc(s[1..], a);
    }
  }

  lemma {:induction false} DistinctTake<T>(s: seq<T>, n: nat)
    requires Distinct(s)
    ensures Distinct(Take(s, n))
    decreases |s|
  {
    if 0 < n < |s| {
      assert s[..n][1..] == Take(s[1..], n - 1);
      DistinctTake(s[1..], n - 1);
    }
  }

  /** A text of zeros. */
  function Zeros(k: nat): (z: string)
    ensures |z| == k && forall i :: 0 <= i < k ==> z[i] == '0'
  {
    if k == 0 then "" else Zeros(k - 1) + "0"
  }

  function PadStart(s: string, n: nat): string {
    if |s| >= n then s else Zeros(n - |s|) + s
  }

  lemma TimesMonotone(a: nat, b: nat, c: nat)
    requires a <= b
    ensures a * c <= b * c
  {
  }

  // ---- Runs ----

  /** The state after a list of steps. */
  function Fold<S, C>(s: S, steps: seq<C>, next: (S, C) -> S): S {
    if steps == [] then s else next(Fold(s, steps[..|steps| - 1], next), steps[|steps| - 1])
  }

  /** What every allowed step keeps holds after any number of allowed steps. */
  lemma {:induction false} FoldKeeps<S(!new), C(!new)>(s: S, steps: seq<C>, next: (S, C) -> S, inv: S -> bool, allowed: C -> bool)
    requires inv(s) && forall i :: 0 <= i < |steps| ==> allowed(steps[i])
    requires forall t, c :: inv(t) && allowed(c) ==> inv(next(t, c))
    ensures inv(Fold(s, steps, next))
  {
    if steps != [] { FoldKeeps(s, steps[..|steps| - 1], next, inv, allowed); }
  }
}
