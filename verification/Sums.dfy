/** Sums of a weight over the rows of a table. */
module Sums {

  ghost function Sum<K, R>(rows: map<K, R>, w: R -> nat): nat
    decreases rows.Keys
  {
    if rows == map[] then 0 else
      var k :| k in rows;
      w(rows[k]) + Sum(rows - {k}, w)
  }

  ghost function Only<K, R>(rows: map<K, R>, keys: set<K>): map<K, R> {
    map k | k in rows && k in keys :: rows[k]
  }

  // The choice of row does not matter.
  lemma {:induction false} SumTake<K, R>(rows: map<K, R>, k: K, w: R -> nat)
    requires k in rows
    ensures Sum(rows, w) == w(rows[k]) + Sum(rows - {k}, w)
    decreases rows.Keys
  {
    var x :| x in rows && Sum(rows, w) == w(rows[x]) + Sum(rows - {x}, w);
    if x != k {
      SumTake(rows - {x}, k, w);
      SumTake(rows - {k}, x, w);
      assert rows - {x} - {k} == rows - {k} - {x};
    }
  }

  lemma SumAdd<K, R>(rows: map<K, R>, k: K, r: R, w: R -> nat)
    requires k !in rows
    ensures Sum(rows[k := r], w) == Sum(rows, w) + w(r)
  {
    SumTake(rows[k := r], k, w);
    assert rows[k := r] - {k} == rows;
  }

  lemma SumSet<K, R>(rows: map<K, R>, k: K, r: R, w: R -> nat)
    requires k in rows
    ensures Sum(rows[k := r], w) + w(rows[k]) == Sum(rows, w) + w(r)
  {
    SumTake(rows, k, w);
    SumTake(rows[k := r], k, w);
    assert rows[k := r] - {k} == rows - {k};
  }

  lemma {:induction false} SumSplit<K, R>(rows: map<K, R>, keys: set<K>, w: R -> nat)
    ensures Sum(rows, w) == Sum(rows - keys, w) + Sum(Only(rows, keys), w)
    decreases rows.Keys
  {
    if rows == map[] {
      assert rows - keys == map[] && Only(rows, keys) == map[];
    } else {
      var k :| k in rows;
      SumTake(rows, k, w);
      SumSplit(rows - {k}, keys, w);
      if k in keys {
        SumTake(Only(rows, keys), k, w);
        assert Only(rows, keys) - {k} == Only(rows - {k}, keys);
        assert rows - {k} - keys == rows - keys;
      } else {
        SumTake(rows - keys, k, w);
        assert rows - keys - {k} == rows - {k} - keys;
        assert Only(rows - {k}, keys) == Only(rows, keys);
      }
    }
  }

  lemma {:induction false} SumSame<K, R>(rows: map<K, R>, w: R -> nat, rows': map<K, R>, w': R -> nat)
    requires rows.Keys == rows'.Keys && forall k :: k in rows ==> w(rows[k]) == w'(rows'[k])
    ensures Sum(rows, w) == Sum(rows', w')
    decreases rows.Keys
  {
    if rows == map[] {
      assert rows' == map[];
    } else {
      var k :| k in rows;
      SumTake(rows, k, w);
      SumTake(rows', k, w');
      SumSame(rows - {k}, w, rows' - {k}, w');
    }
  }

  lemma SumOfNone<K, R>(w: R -> nat)
    ensures Sum<K, R>(map[], w) == 0
  {
  }

  lemma {:induction false} SumIsPositive<K, R>(rows: map<K, R>, w: R -> nat)
    ensures Sum(rows, w) > 0 <==> exists k :: k in rows && w(rows[k]) > 0
    decreases rows.Keys
  {
    if rows != map[] {
      var k :| k in rows;
      SumTake(rows, k, w);
      SumIsPositive(rows - {k}, w);
      if w(rows[k]) == 0 && exists x :: x in rows && w(rows[x]) > 0 {
        var x :| x in rows && w(rows[x]) > 0;
        assert x in rows - {k};
      }
    }
  }

  lemma SumAtLeast<K, R>(rows: map<K, R>, k: K, w: R -> nat)
    requires k in rows
    ensures w(rows[k]) <= Sum(rows, w)
  {
    SumTake(rows, k, w);
  }
}
