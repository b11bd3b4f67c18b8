/** Sorted enumerations of sets, and sums over maps whose iteration order is unspecified. */
module Ordering {

  ghost predicate StrictTotal<T(!new)>(less: (T, T) -> bool) {
    && (forall a, b :: less(a, b) ==> !less(b, a))
    && (forall a, b, c :: less(a, b) && less(b, c) ==> less(a, c))
    && (forall a, b :: a != b ==> less(a, b) || less(b, a))
  }

  ghost predicate Ascending<T>(s: seq<T>, less: (T, T) -> bool) {
    forall i, j :: 0 <= i < j < |s| ==> less(s[i], s[j])
  }

  function InsertBy<T>(s: seq<T>, x: T, less: (T, T) -> bool): seq<T> {
    if s == [] || less(s[|s| - 1], x) then s + [x] else InsertBy(s[..|s| - 1], x, less) + [s[|s| - 1]]
  }

  lemma {:induction false} InsertByKeepsOrder<T(!new)>(s: seq<T>, x: T, less: (T, T) -> bool)
    requires StrictTotal(less) && Ascending(s, less) && x !in s
    ensures Ascending(InsertBy(s, x, less), less)
    ensures forall y :: y in InsertBy(s, x, less) <==> y in s || y == x
  {
    if s != [] {
      var front, last := s[..|s| - 1], s[|s| - 1];
      assert s == front + [last];
      if less(last, x) {
        assert forall i :: 0 <= i < |front| ==> less(s[i], last) && less(s[i], x);
      } else {
        InsertByKeepsOrder(front, x, less);
        var placed := InsertBy(front, x, less);
        forall i | 0 <= i < |placed|
          ensures less(placed[i], last)
        {
          assert placed[i] in placed;
          if placed[i] != x {
            var j :| 0 <= j < |front| && front[j] == placed[i];
            assert s[j] == placed[i];
          }
        }
      }
    }
  }

  lemma LastsAgree<T(!new)>(a: seq<T>, b: seq<T>, less: (T, T) -> bool)
    requires StrictTotal(less) && Ascending(a, less) && Ascending(b, less) && a != [] && b != []
    requires a[|a| - 1] in b && b[|b| - 1] in a
    ensures a[|a| - 1] == b[|b| - 1]
  {
  }

  lemma LastIsOut<T(!new)>(s: seq<T>, front: seq<T>, last: T, less: (T, T) -> bool)
    requires StrictTotal(less) && Ascending(s, less) && s == front + [last]
    ensures forall z :: z in front <==> z in s && z != last
  {
    forall k | 0 <= k < |front|
      ensures front[k] != last
    {
      assert less(s[k], s[|front|]);
    }
  }

  /** A set has one ascending enumeration. */
  lemma {:induction false} AscendingIsUnique<T(!new)>(a: seq<T>, b: seq<T>, less: (T, T) -> bool)
    requires StrictTotal(less) && Ascending(a, less) && Ascending(b, less)
    requires forall x :: x in a <==> x in b
    ensures a == b
    decreases |a|
  {
    hide StrictTotal;
    assert a == [] || a[|a| - 1] in b;
    assert b == [] || b[|b| - 1] in a;
    if a != [] && b != [] {
      LastsAgree(a, b, less);
      var a', b', last := a[..|a| - 1], b[..|b| - 1], a[|a| - 1];
      assert a == a' + [last] && b == b' + [last];
      LastIsOut(a, a', last, less);
      LastIsOut(b, b', last, less);
      AscendingIsUnique(a', b', less);
    }
  }

  /** The elements of a set, ascending. */
  ghost function Listed<T(!new)>(items: set<T>, less: (T, T) -> bool): (r: seq<T>)
    requires StrictTotal(less)
    ensures Ascending(r, less) && forall x :: x in r <==> x in items
  {
    if items == {} then []
    else
      var x :| x in items;
      InsertByKeepsOrder(Listed(items - {x}, less), x, less);
      InsertBy(Listed(items - {x}, less), x, less)
  }

  /** However a set is enumerated, sorting the enumeration lists it. */
  method List<T(!new, ==)>(items: set<T>, less: (T, T) -> bool) returns (r: seq<T>)
    requires StrictTotal(less)
    ensures r == Listed(items, less)
  {
    r := [];
    var rest := items;
    while rest != {}
      invariant rest <= items && Ascending(r, less)
      invariant forall x :: x in r <==> x in items && x !in rest
    {
      var x :| x in rest;
      InsertByKeepsOrder(r, x, less);
      r := InsertBy(r, x, less);
      rest := rest - {x};
    }
    AscendingIsUnique(r, Listed(items, less), less);
  }

  // -- sums over maps -----------------------------------------------------------

  ghost function Pick<T>(s: set<T>): (x: T)
    requires s != {}
    ensures x in s
  {
    var x :| x in s; x
  }

  /** The next entry of an iteration in unspecified order. */
  method Take<T(==)>(s: set<T>) returns (x: T)
    requires s != {}
    ensures x in s
  {
    x :| x in s;
  }

  /** The entries of `m` under `keys`, added in some order. */
  ghost function Sum(m: map<int, int>, keys: set<int>): int
    requires keys <= m.Keys
  {
    if keys == {} then 0
    else
      var k := Pick(keys);
      m[k] + Sum(m, keys - {k})
  }

  /** The sum does not depend on which entry is taken first. */
  lemma {:induction false} SumTakes(m: map<int, int>, keys: set<int>, k: int)
    requires keys <= m.Keys && k in keys
    ensures Sum(m, keys) == m[k] + Sum(m, keys - {k})
    decreases |keys|
  {
    var first := Pick(keys);
    if first != k {
      SumTakes(m, keys - {first}, k);
      SumTakes(m, keys - {k}, first);
      assert keys - {first} - {k} == keys - {k} - {first};
    }
  }

  lemma {:induction false} SumUnion(m: map<int, int>, a: set<int>, b: set<int>)
    requires a <= m.Keys && b <= m.Keys && a !! b
    ensures Sum(m, a + b) == Sum(m, a) + Sum(m, b)
    decreases |b|
  {
    hide Sum;
    if b == {} {
      NoneSum(m);
      assert a + b == a;
    } else {
      var k := Pick(b);
      SumTakes(m, b, k);
      SumTakes(m, a + b, k);
      assert a + b - {k} == a + (b - {k});
      SumUnion(m, a, b - {k});
    }
  }

  lemma NoneSum(m: map<int, int>)
    ensures Sum(m, {}) == 0
  {
  }

  lemma {:induction false} SumNonNegative(m: map<int, int>, keys: set<int>)
    requires keys <= m.Keys && forall d :: d in m ==> m[d] >= 0
    ensures Sum(m, keys) >= 0
    decreases |keys|
  {
    if keys != {} {
      var k := Pick(keys);
      SumNonNegative(m, keys - {k});
    }
  }

  /** The keys up to `hi`, and those above `lo` among them. */
  function UpTo(m: map<int, int>, hi: int): set<int> { set d | d in m && d <= hi }
  function Between(m: map<int, int>, lo: int, hi: int): set<int> { set d | d in m && lo < d <= hi }

  lemma SumSplits(m: map<int, int>, lo: int, hi: int)
    requires lo <= hi
    ensures Sum(m, UpTo(m, hi)) == Sum(m, UpTo(m, lo)) + Sum(m, Between(m, lo, hi))
  {
    assert UpTo(m, hi) == UpTo(m, lo) + Between(m, lo, hi);
    SumUnion(m, UpTo(m, lo), Between(m, lo, hi));
  }

  /** Adding up a window of a map in whatever order its entries come. */
  method SumWindow(m: map<int, int>, lo: int, hi: int) returns (sum: int)
    ensures sum == Sum(m, Between(m, lo, hi))
  {
    sum := 0;
    var rest := m.Keys;
    NoneSum(m);
    while rest != {}
      invariant rest <= m.Keys
      invariant sum == Sum(m, Between(m, lo, hi) - rest)
    {
      var d := Take(rest);
      if lo < d <= hi {
        sum := sum + m[d];
        SumTakes(m, Between(m, lo, hi) - (rest - {d}), d);
        assert Between(m, lo, hi) - (rest - {d}) - {d} == Between(m, lo, hi) - rest;
      } else {
        assert Between(m, lo, hi) - (rest - {d}) == Between(m, lo, hi) - rest;
      }
      rest := rest - {d};
    }
    assert Between(m, lo, hi) - rest == Between(m, lo, hi);
  }
}
