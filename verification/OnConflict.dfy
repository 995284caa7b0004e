/** INSERT ... ON CONFLICT DO NOTHING over a table keyed by its conflict target. */
module OnConflict {
  function FirstWins<K, V>(table: map<K, V>, rows: seq<(K, V)>): map<K, V> {
    if |rows| == 0 then table
    else
      var n := |rows| - 1;
      var before := FirstWins(table, rows[..n]);
      if rows[n].0 in before then before else before[rows[n].0 := rows[n].1]
  }

  lemma {:induction false} FirstWinsConcat<K, V>(table: map<K, V>, a: seq<(K, V)>, b: seq<(K, V)>)
    ensures FirstWins(table, a + b) == FirstWins(FirstWins(table, a), b)
  {
    if |b| == 0 {
      assert a + b == a;
    } else {
      var n := |b| - 1;
      FirstWinsConcat(table, a, b[..n]);
      assert (a + b)[..|a| + n] == a + b[..n];
    }
  }

  /** A stored row never changes; a new key gets the first row offered for it. */
  lemma {:induction false} FirstWinsIs<K, V>(table: map<K, V>, rows: seq<(K, V)>, k: K)
    ensures var after := FirstWins(table, rows);
      && (k in table ==> k in after && after[k] == table[k])
      && (k in after && k !in table ==>
          exists i :: 0 <= i < |rows| && rows[i] == (k, after[k]) && forall j | 0 <= j < i :: rows[j].0 != k)
      && ((exists i :: 0 <= i < |rows| && rows[i].0 == k) ==> k in after)
  {
    if |rows| > 0 {
      var n := |rows| - 1;
      FirstWinsIs(table, rows[..n], k);
      var before := FirstWins(table, rows[..n]);
      if k in before && k !in table {
        var i :| 0 <= i < n && rows[..n][i] == (k, before[k]) && forall j | 0 <= j < i :: rows[..n][j].0 != k;
        assert rows[i] == (k, before[k]) && forall j | 0 <= j < i :: rows[j].0 != k by {
          forall j | 0 <= j < i ensures rows[j].0 != k { assert rows[..n][j].0 != k; }
        }
      } else if k !in before {
        forall j | 0 <= j < n ensures rows[j].0 != k { assert rows[..n][j].0 == rows[j].0; }
      }
    }
  }
}
