/** Sorting a finite set by a strict total order. The rest of the project uses it for database
    `ORDER BY` clauses and for Go's sort of map keys. */
module Ordering {

  ghost predicate TotalOrder<T(!new)>(less: (T, T) -> bool) {
    && (forall x :: !less(x, x))
    && (forall x, y :: x != y ==> less(x, y) || less(y, x))
    && (forall x, y, z :: less(x, y) && less(y, z) ==> less(x, z))
  }

  ghost predicate IsLeast<T(!new)>(less: (T, T) -> bool, s: set<T>, m: T) {
    m in s && forall x :: x in s && x != m ==> less(m, x)
  }

  ghost predicate HasLeast<T(!new)>(less: (T, T) -> bool, s: set<T>) {
    exists m :: IsLeast(less, s, m)
  }

  /** What sorting needs of the order: it never holds both ways, and every non-empty set has a least element. */
  ghost predicate Linear<T(!new)>(less: (T, T) -> bool) {
    && (forall x, y :: less(x, y) ==> !less(y, x))
    && (forall s: set<T> :: s != {} ==> HasLeast(less, s))
  }

  lemma TotalIsLinear<T(!new)>(less: (T, T) -> bool)
    requires TotalOrder(less)
    ensures Linear(less)
  {
    forall s: set<T> | s != {} ensures HasLeast(less, s) {
      LeastExists(less, s);
    }
  }

  lemma {:induction false} LeastExists<T(!new)>(less: (T, T) -> bool, s: set<T>)
    requires TotalOrder(less) && s != {}
    ensures HasLeast(less, s)
    decreases s
  {
    var x :| x in s;
    if s - {x} == {} {
      assert s == {x};
      assert IsLeast(less, s, x);
    } else {
      LeastExists(less, s - {x});
      var m :| IsLeast(less, s - {x}, m);
      if less(x, m) {
        forall y | y in s && y != x ensures less(x, y) { assert y in s - {x}; }
        assert IsLeast(less, s, x);
      } else {
        assert IsLeast(less, s, m);
      }
    }
  }

  /** The least element, as `ORDER BY ... LIMIT 1` finds it. */
  function Least<T(!new, ==)>(less: (T, T) -> bool, s: set<T>): (m: T)
    requires Linear(less) && s != {}
    ensures IsLeast(less, s, m)
  {
    assert HasLeast(less, s);
    var m :| m in s && forall x :: x in s && x != m ==> less(m, x);
    m
  }

  ghost predicate Ascending<T(!new)>(less: (T, T) -> bool, s: seq<T>) {
    forall i, j :: 0 <= i < j < |s| ==> less(s[i], s[j])
  }

  function Sort<T(!new, ==)>(less: (T, T) -> bool, s: set<T>): (r: seq<T>)
    requires Linear(less)
    ensures |r| == |s|
    ensures forall x :: x in r <==> x in s
    ensures Ascending(less, r)
    decreases s
  {
    if s == {} then [] else
      var m := Least(less, s);
      [m] + Sort(less, s - {m})
  }

  /** A sorted listing is determined by its elements. */
  lemma {:induction false} SortUnique<T(!new)>(less: (T, T) -> bool, s: set<T>, r: seq<T>)
    requires Linear(less) && Ascending(less, r)
    requires forall x :: x in r <==> x in s
    ensures r == Sort(less, s)
    decreases |r|
  {
    if |r| == 0 {
      assert s == {};
    } else {
      assert r[0] in s;
      var m := Least(less, s);
      assert m in r;
      assert r[0] == m;
      var rest := r[1..];
      forall x ensures x in rest <==> x in s - {m} {
        if x in rest {
          var i :| 0 <= i < |rest| && rest[i] == x;
          assert x == r[i + 1] && less(r[0], r[i + 1]);
        }
        if x in s - {m} {
          var i :| 0 <= i < |r| && r[i] == x;
          assert rest[i - 1] == x;
        }
      }
      SortUnique(less, s - {m}, rest);
      assert r == [m] + rest;
    }
  }

  function Elements<T>(r: seq<T>): set<T> {
    set x | x in r
  }

  ghost predicate Distinct<T>(r: seq<T>) {
    forall i, j :: 0 <= i < j < |r| ==> r[i] != r[j]
  }

  lemma {:induction false} DistinctSize<T>(r: seq<T>)
    requires Distinct(r)
    ensures |Elements(r)| == |r|
  {
    if |r| > 0 {
      var last := |r| - 1;
      DistinctSize(r[..last]);
      assert r == r[..last] + [r[last]];
      assert Elements(r) == Elements(r[..last]) + {r[last]};
    }
  }
}
