/** Filters and sums over sequences, and sums over the values of a map. */
module Collections {

  function Filter<T>(p: T -> bool, s: seq<T>): seq<T> {
    if s == [] then [] else (if p(s[0]) then [s[0]] else []) + Filter(p, s[1..])
  }

  lemma {:induction false} FilterConcat<T>(p: T -> bool, a: seq<T>, b: seq<T>)
    ensures Filter(p, a + b) == Filter(p, a) + Filter(p, b)
  {
    if a == [] {
      assert a + b == b;
    } else {
      var head := if p(a[0]) then [a[0]] else [];
      FilterConcat(p, a[1..], b);
      assert (a + b)[0] == a[0] && (a + b)[1..] == a[1..] + b;
      assert head + (Filter(p, a[1..]) + Filter(p, b)) == head + Filter(p, a[1..]) + Filter(p, b);
    }
  }

  lemma {:induction false} FilterNext<T>(p: T -> bool, s: seq<T>, i: nat)
    requires i < |s|
    ensures Filter(p, s[..i + 1]) == if p(s[i]) then Filter(p, s[..i]) + [s[i]] else Filter(p, s[..i])
  {
    assert s[..i + 1] == s[..i] + [s[i]];
    FilterConcat(p, s[..i], [s[i]]);
  }

  lemma {:induction false} FilterNone<T>(p: T -> bool, s: seq<T>)
    requires forall x | x in s :: !p(x)
    ensures Filter(p, s) == []
  {
    if s == [] {
    } else {
      FilterNone(p, s[1..]);
    }
  }

  lemma {:induction false} FilterAll<T>(p: T -> bool, s: seq<T>)
    requires forall x | x in s :: p(x)
    ensures Filter(p, s) == s
  {
    if s == [] {
    } else {
      FilterAll(p, s[1..]);
    }
  }

  lemma {:induction false} FilterMember<T>(p: T -> bool, s: seq<T>, x: T)
    ensures x in Filter(p, s) <==> x in s && p(x)
  {
    if s == [] {
    } else {
      FilterMember(p, s[1..], x);
      assert x in s <==> x == s[0] || x in s[1..];
    }
  }

  function SumBy<T>(f: T -> int, s: seq<T>): int {
    if s == [] then 0 else f(s[0]) + SumBy(f, s[1..])
  }

  lemma SumOne<T>(f: T -> int, x: T)
    ensures SumBy(f, [x]) == f(x)
  {
    assert [x][1..] == [];
  }

  lemma {:induction false} SumConcat<T>(f: T -> int, a: seq<T>, b: seq<T>)
    ensures SumBy(f, a + b) == SumBy(f, a) + SumBy(f, b)
  {
    if a == [] {
      assert a + b == b;
    } else {
      assert (a + b)[1..] == a[1..] + b;
      SumConcat(f, a[1..], b);
    }
  }

  lemma SumSnoc<T>(f: T -> int, s: seq<T>, x: T)
    ensures SumBy(f, s + [x]) == SumBy(f, s) + f(x)
  {
    SumConcat(f, s, [x]);
    SumOne(f, x);
  }

  lemma {:induction false} SumZero<T>(f: T -> int, s: seq<T>)
    requires forall x | x in s :: f(x) == 0
    ensures SumBy(f, s) == 0
  {
    if s == [] {
    } else {
      SumZero(f, s[1..]);
    }
  }

  lemma {:induction false} SumSame<T>(f: T -> int, g: T -> int, s: seq<T>)
    requires forall x | x in s :: f(x) == g(x)
    ensures SumBy(f, s) == SumBy(g, s)
  {
    if s == [] {
    } else {
      SumSame(f, g, s[1..]);
    }
  }

  /** A multiple of `m` other than 0 is at least `m` away from 0. */
  lemma {:induction false} MultipleGap(k: int, m: int)
    requires k != 0 && m >= 0
    ensures k * m >= m || k * m <= 0 - m
  {
    if k > 0 {
      assert k * m >= m;
    } else {
      assert k * m <= 0 - m;
    }
  }

  /** The sum of `f` over the values of a map. */
  ghost function SumMap<K, V>(f: V -> int, m: map<K, V>): int {
    if m == map[] then 0 else var k :| k in m; f(m[k]) + SumMap(f, m - {k})
  }

  lemma {:induction false} SumMapRemove<K, V>(f: V -> int, m: map<K, V>, k: K)
    requires k in m
    ensures SumMap(f, m) == f(m[k]) + SumMap(f, m - {k})
    decreases |m|
  {
    var j :| j in m && SumMap(f, m) == f(m[j]) + SumMap(f, m - {j});
    if j != k {
      SumMapRemove(f, m - {j}, k);
      SumMapRemove(f, m - {k}, j);
      assert m - {j} - {k} == m - {k} - {j};
    }
  }

  lemma SumMapUpdate<K, V>(f: V -> int, m: map<K, V>, k: K, v: V)
    ensures SumMap(f, m[k := v]) == SumMap(f, m) + f(v) - (if k in m then f(m[k]) else 0)
  {
    var n := m[k := v];
    SumMapRemove(f, n, k);
    if k in m {
      SumMapRemove(f, m, k);
      assert n - {k} == m - {k};
    } else {
      assert n - {k} == m;
    }
  }

  lemma {:induction false} SumMapNonNegative<K, V>(f: V -> int, m: map<K, V>)
    requires forall k | k in m :: f(m[k]) >= 0
    ensures SumMap(f, m) >= 0
    ensures forall k | k in m :: f(m[k]) <= SumMap(f, m)
    decreases |m|
  {
    if m == map[] {
    } else {
      forall k | k in m
        ensures 0 <= f(m[k]) <= SumMap(f, m)
      {
        SumMapRemove(f, m, k);
        SumMapNonNegative(f, m - {k});
      }
      var k :| k in m;
      assert f(m[k]) >= 0;
    }
  }
}
