/**
 * How the store answers a `select`.  The model assumes SQLite's plain table
 * scan: with no `order by`, the rows of a table keyed by an integer primary
 * key come out in ascending key order (SQL itself does not promise an order).
 * A `where` clause keeps the rows it matches without reordering them.
 */
module Query {

  /** The rows of `m` whose keys lie in [lo, hi), in ascending key order. */
  function InKeyOrder<R(!new)>(m: map<int, R>, lo: int, hi: int): (rows: seq<R>)
    ensures forall x :: x in rows <==> exists k :: lo <= k < hi && k in m && m[k] == x
    decreases hi - lo
  {
    if lo >= hi then []
    else
      var rest := InKeyOrder(m, lo + 1, hi);
      assert forall x :: x in rest ==> exists k :: lo <= k < hi && k in m && m[k] == x;
      (if lo in m then [m[lo]] else []) + rest
  }

  /** The rows a `where` clause keeps, in their original order. */
  function Filter<R(!new)>(rows: seq<R>, keep: R -> bool): (kept: seq<R>)
    ensures |kept| <= |rows|
    ensures forall x :: x in kept <==> x in rows && keep(x)
  {
    if rows == [] then []
    else
      var rest := Filter(rows[1..], keep);
      assert forall x :: x in rows <==> x == rows[0] || x in rows[1..];
      (if keep(rows[0]) then [rows[0]] else []) + rest
  }

  /** A `where` clause that keeps every row returns the rows unchanged. */
  lemma {:induction false} FilterAll<R(!new)>(rows: seq<R>, keep: R -> bool)
    requires forall x :: keep(x)
    ensures Filter(rows, keep) == rows
  {
    if rows != [] {
      FilterAll(rows[1..], keep);
      assert rows == [rows[0]] + rows[1..];
    }
  }

  /** The keys of `rows` strictly increase: the rows are in table order and distinct. */
  ghost predicate Ascending<R>(rows: seq<R>, key: R -> int)
  {
    forall i, j :: 0 <= i < j < |rows| ==> key(rows[i]) < key(rows[j])
  }

  /** A table whose rows carry their own key yields them in strictly ascending key order. */
  lemma {:induction false} InKeyOrderAscending<R(!new)>(m: map<int, R>, lo: int, hi: int, key: R -> int)
    requires forall k :: k in m ==> key(m[k]) == k
    ensures Ascending(InKeyOrder(m, lo, hi), key)
    decreases hi - lo
  {
    if lo < hi {
      var rest := InKeyOrder(m, lo + 1, hi);
      InKeyOrderAscending(m, lo + 1, hi, key);
      forall x | x in rest
        ensures key(x) > lo
      {
        var k :| lo + 1 <= k < hi && k in m && m[k] == x;
      }
      var rows := InKeyOrder(m, lo, hi);
      if lo in m {
        assert rows == [m[lo]] + rest;
        forall i, j | 0 <= i < j < |rows|
          ensures key(rows[i]) < key(rows[j])
        {
          if i > 0 {
            assert rows[i] == rest[i - 1] && rows[j] == rest[j - 1];
          } else {
            assert rows[j] == rest[j - 1];
            assert rows[j] in rest;
          }
        }
      }
    }
  }

  /** A `where` clause keeps the table order. */
  lemma {:induction false} FilterAscending<R(!new)>(rows: seq<R>, keep: R -> bool, key: R -> int)
    requires Ascending(rows, key)
    ensures Ascending(Filter(rows, keep), key)
  {
    if rows != [] {
      var rest := Filter(rows[1..], keep);
      assert Ascending(rows[1..], key) by {
        forall i, j | 0 <= i < j < |rows[1..]|
          ensures key(rows[1..][i]) < key(rows[1..][j])
        {
          assert rows[1..][i] == rows[i + 1] && rows[1..][j] == rows[j + 1];
        }
      }
      FilterAscending(rows[1..], keep, key);
      forall x | x in rest
        ensures key(rows[0]) < key(x)
      {
        var j :| 0 <= j < |rows[1..]| && rows[1..][j] == x;
        assert rows[j + 1] == x;
      }
      var kept := Filter(rows, keep);
      if keep(rows[0]) {
        assert kept == [rows[0]] + rest;
        forall i, j | 0 <= i < j < |kept|
          ensures key(kept[i]) < key(kept[j])
        {
          assert kept[j] == rest[j - 1];
          if i > 0 {
            assert kept[i] == rest[i - 1];
          } else {
            assert kept[j] in rest;
          }
        }
      }
    }
  }

  /** The first row a `where` clause yields on a keyed table is the matching row
      with the smallest key, and there is one exactly when some row matches. */
  lemma FirstMatch<R(!new)>(m: map<int, R>, lo: int, hi: int, keep: R -> bool, key: R -> int)
    requires forall k :: k in m ==> key(m[k]) == k && lo <= k < hi
    ensures var matches := Filter(InKeyOrder(m, lo, hi), keep);
      && (|matches| > 0 <==> exists k :: k in m && keep(m[k]))
      && (|matches| > 0 ==>
            && key(matches[0]) in m
            && m[key(matches[0])] == matches[0]
            && keep(matches[0])
            && forall k :: k in m && keep(m[k]) ==> key(matches[0]) <= k)
  {
    var rows := InKeyOrder(m, lo, hi);
    var matches := Filter(rows, keep);
    if exists k :: k in m && keep(m[k]) {
      var k :| k in m && keep(m[k]);
      assert m[k] in rows;
      assert m[k] in matches;
    }
    if |matches| > 0 {
      assert matches[0] in matches;
      var k0 :| lo <= k0 < hi && k0 in m && m[k0] == matches[0];
      InKeyOrderAscending(m, lo, hi, key);
      FilterAscending(rows, keep, key);
      forall k | k in m && keep(m[k])
        ensures key(matches[0]) <= k
      {
        assert m[k] in rows;
        assert m[k] in matches;
        var j :| 0 <= j < |matches| && matches[j] == m[k];
        if j > 0 {
          assert key(matches[0]) < key(matches[j]);
        }
      }
    }
  }
}
