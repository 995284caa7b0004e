/** Rows with strictly increasing ids, compared as sets. */
module SortedRows {
  predicate Increasing<T>(rows: seq<T>, id: T -> int) {
    forall i, j | 0 <= i < j < |rows| :: id(rows[i]) < id(rows[j])
  }

  predicate Within<T(==)>(a: seq<T>, b: seq<T>) { forall r | r in a :: r in b }

  /** Rows only came, or only went. */
  predicate OneSided<T(==)>(a: seq<T>, b: seq<T>) { Within(a, b) || Within(b, a) }

  /** Increasing rows that lie within others are fewer, unless they are the same. */
  lemma {:induction false} FewerWithin<T>(a: seq<T>, b: seq<T>, id: T -> int)
    requires Increasing(a, id) && Increasing(b, id) && Within(a, b)
    ensures |a| <= |b| && (|a| == |b| ==> a == b)
  {
    if |a| > 0 {
      var m, n := |a| - 1, |b| - 1;
      assert a[m] in b;
      var i :| 0 <= i < |b| && b[i] == a[m];
      if i == n {
        forall r | r in a[..m] ensures r in b[..n] { Earlier(a, b, id, r); }
        FewerWithin(a[..m], b[..n], id);
        assert a == a[..m] + [a[m]] && b == b[..n] + [b[n]];
      } else {
        forall r | r in a ensures r in b[..n] { NotLast(a, b, id, i, r); }
        FewerWithin(a, b[..n], id);
      }
    }
  }

  lemma Earlier<T>(a: seq<T>, b: seq<T>, id: T -> int, r: T)
    requires Increasing(a, id) && Within(a, b) && |a| > 0 && |b| > 0 && a[|a| - 1] == b[|b| - 1]
    requires r in a[..|a| - 1]
    ensures r in b[..|b| - 1]
  {
    var j :| 0 <= j < |a| - 1 && a[j] == r;
    assert a[j] in a;
    var k :| 0 <= k < |b| && b[k] == r;
    assert k < |b| - 1;
    assert b[..|b| - 1][k] == r;
  }

  lemma NotLast<T>(a: seq<T>, b: seq<T>, id: T -> int, i: nat, r: T)
    requires Increasing(a, id) && Increasing(b, id) && Within(a, b)
    requires |a| > 0 && i < |b| - 1 && b[i] == a[|a| - 1] && r in a
    ensures r in b[..|b| - 1]
  {
    var j :| 0 <= j < |a| && a[j] == r;
    var k :| 0 <= k < |b| && b[k] == r;
    assert k <= i;
    assert b[..|b| - 1][k] == r;
  }
}
