/**
 The order in which the document store hands back the documents of a query.
 A query without an explicit ordering returns its matches in ascending
 document-id order, so a handler that walks a snapshot with `forEach` sees the
 ids from the smallest to the largest, and the last one it sees is the largest.
 */
module Snapshots {

  /** `a` sorts strictly before `b`: character-wise lexicographic order on ids. */
  predicate Below(a: string, b: string)
  {
    if a == [] then b != []
    else if b == [] then false
    else a[0] < b[0] || (a[0] == b[0] && Below(a[1..], b[1..]))
  }

  lemma {:induction false} BelowAsymmetric(a: string, b: string)
    ensures !(Below(a, b) && Below(b, a))
  {
    if a != [] && b != [] && a[0] == b[0] {
      BelowAsymmetric(a[1..], b[1..]);
    }
  }

  lemma {:induction false} BelowTransitive(a: string, b: string, c: string)
    requires Below(a, b) && Below(b, c)
    ensures Below(a, c)
  {
    if a != [] && b != [] && c != [] && a[0] == b[0] && b[0] == c[0] {
      BelowTransitive(a[1..], b[1..], c[1..]);
    }
  }

  lemma {:induction false} BelowTotal(a: string, b: string)
    ensures a == b || Below(a, b) || Below(b, a)
  {
    if a != [] && b != [] && a[0] == b[0] {
      BelowTotal(a[1..], b[1..]);
      assert a == [a[0]] + a[1..] && b == [b[0]] + b[1..];
    }
  }

  /** A snapshot lists its ids in strictly ascending order (hence without repeats). */
  ghost predicate Ascending(ids: seq<string>)
  {
    forall i, j :: 0 <= i < j < |ids| ==> Below(ids[i], ids[j])
  }

  /** The largest id in a non-empty set of ids. */
  ghost predicate IsLatest(m: string, s: set<string>)
  {
    m in s && forall y :: y in s && y != m ==> Below(y, m)
  }

  lemma {:induction false} LatestExists(s: set<string>)
    requires s != {}
    ensures exists m :: IsLatest(m, s)
    decreases |s|
  {
    var x :| x in s;
    var rest := s - {x};
    if rest == {} {
      assert s == {x};
      assert IsLatest(x, s);
    } else {
      LatestExists(rest);
      var m :| IsLatest(m, rest);
      BelowTotal(x, m);
      if Below(x, m) {
        assert IsLatest(m, s);
      } else {
        forall y | y in s && y != x
          ensures Below(y, x)
        {
          if y != m {
            BelowTransitive(y, m, x);
          }
        }
        assert IsLatest(x, s);
      }
    }
  }

  lemma LatestUnique(m: string, n: string, s: set<string>)
    requires IsLatest(m, s) && IsLatest(n, s)
    ensures m == n
  {
    BelowAsymmetric(m, n);
  }

  /** The id a `forEach` over the snapshot of `s` leaves behind in a variable it overwrites. */
  ghost function Latest(s: set<string>): (m: string)
    requires s != {}
    ensures IsLatest(m, s)
  {
    LatestExists(s);
    var m :| IsLatest(m, s); m
  }

  /** The last id of an ascending snapshot is the largest id in it. */
  lemma LastOfAscending(ids: seq<string>, s: set<string>)
    requires Ascending(ids) && ids != []
    requires forall k :: k in ids <==> k in s
    ensures s != {} && Latest(s) == ids[|ids| - 1]
  {
    var last := ids[|ids| - 1];
    assert last in s;
    forall y | y in s && y != last
      ensures Below(y, last)
    {
      var i :| 0 <= i < |ids| && ids[i] == y;
    }
    LatestUnique(last, Latest(s), s);
  }

  /** The smallest id of a non-empty set, found by one pass over it. */
  method Least(s: set<string>) returns (m: string)
    requires s != {}
    ensures m in s
    ensures forall y :: y in s && y != m ==> Below(m, y)
  {
    m :| m in s;
    var todo := s - {m};
    while todo != {}
      invariant todo <= s && m in s && m !in todo
      invariant forall y :: y in s && y !in todo && y != m ==> Below(m, y)
      decreases |todo|
    {
      var y :| y in todo;
      BelowTotal(y, m);
      if Below(y, m) {
        forall z | z in s && z !in todo && z != y
          ensures Below(y, z)
        {
          if z != m {
            BelowTransitive(y, m, z);
          }
        }
        m := y;
      }
      todo := todo - {y};
    }
  }

  /** The snapshot of a query whose matches are `s`: its ids in ascending order. */
  method SortedIds(s: set<string>) returns (ids: seq<string>)
    ensures Ascending(ids)
    ensures forall k :: k in ids <==> k in s
    ensures ids == [] <==> s == {}
  {
    ids := [];
    var rest := s;
    while rest != {}
      invariant rest <= s
      invariant ids == [] ==> rest == s
      invariant ids != [] ==> ids[0] in s
      invariant forall k :: k in ids <==> k in s && k !in rest
      invariant Ascending(ids)
      invariant forall x, y :: x in ids && y in rest ==> Below(x, y)
      decreases |rest|
    {
      var m := Least(rest);
      ids := ids + [m];
      rest := rest - {m};
    }
  }
}
