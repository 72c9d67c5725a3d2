/** Row-level edits the controllers make to a table held as a sequence of rows in storage
    order: `destroy` of one row, and `destroy({ where })` of every matching row. */
module Tables {
  import opened Common

  /** The table without row `i`; the other rows keep their order. */
  function RemoveAt<T>(rows: seq<T>, i: nat): (r: seq<T>)
    requires i < |rows|
    ensures |r| == |rows| - 1
    ensures forall j :: 0 <= j < i ==> r[j] == rows[j]
    ensures forall j :: i < j < |rows| ==> r[j - 1] == rows[j]
  {
    rows[..i] + rows[i + 1..]
  }

  /** The rows `keep` accepts, in their original order. */
  function Filter<T(!new)>(rows: seq<T>, keep: T -> bool): (r: seq<T>)
    ensures forall x :: x in r <==> x in rows && keep(x)
    ensures |r| <= |rows|
  {
    if rows == [] then []
    else if keep(rows[0]) then [rows[0]] + Filter(rows[1..], keep)
    else Filter(rows[1..], keep)
  }

  /** Filtering distributes over concatenation, so it keeps the relative order of the rows. */
  lemma {:induction false} FilterAppend<T(!new)>(a: seq<T>, b: seq<T>, keep: T -> bool)
    ensures Filter(a + b, keep) == Filter(a, keep) + Filter(b, keep)
  {
    if a == [] {
      assert a + b == b;
    } else {
      assert (a + b)[0] == a[0];
      assert (a + b)[1..] == a[1..] + b;
      FilterAppend(a[1..], b, keep);
    }
  }

  /** A row count split by a condition: the rows it keeps and the rows it drops add up to all. */
  lemma {:induction false} FilterPartition<T(!new)>(rows: seq<T>, keep: T -> bool, drop: T -> bool)
    requires forall x :: drop(x) == !keep(x)
    ensures |Filter(rows, keep)| + |Filter(rows, drop)| == |rows|
  {
    if rows != [] {
      FilterPartition(rows[1..], keep, drop);
    }
  }

  /** Dropping rows that a search never matches does not change the row it finds first. */
  lemma {:induction false} FindFirstFilter<T(!new)>(rows: seq<T>, keep: T -> bool, matches: T -> bool)
    requires forall x :: matches(x) ==> keep(x)
    ensures FindFirst(Filter(rows, keep), matches) == FindFirst(rows, matches)
  {
    if rows != [] {
      FindFirstFilter(rows[1..], keep, matches);
      assert rows == [rows[0]] + rows[1..];
      FindFirstCons(rows[0], rows[1..], matches);
      if keep(rows[0]) {
        FindFirstCons(rows[0], Filter(rows[1..], keep), matches);
      }
    }
  }

  /** No two rows share a key. */
  predicate UniqueKeys<T, K(==)>(rows: seq<T>, key: T -> K) {
    forall a, b :: 0 <= a < b < |rows| ==> key(rows[a]) != key(rows[b])
  }

  /** Removing row `i` of a table with unique keys removes its key. */
  lemma RemovedKeyGone<T, K>(rows: seq<T>, i: nat, key: T -> K)
    requires i < |rows| && UniqueKeys(rows, key)
    ensures forall x :: x in RemoveAt(rows, i) ==> key(x) != key(rows[i])
  {
    var r := RemoveAt(rows, i);
    forall x | x in r ensures key(x) != key(rows[i]) {
      var k :| 0 <= k < |r| && r[k] == x;
      if k >= i {
        assert x == rows[k + 1];
      }
    }
  }

  /** Removing row `i` keeps every row with another key. */
  lemma OtherKeysKept<T, K>(rows: seq<T>, i: nat, key: T -> K)
    requires i < |rows|
    ensures forall x :: x in rows && key(x) != key(rows[i]) ==> x in RemoveAt(rows, i)
  {
    var r := RemoveAt(rows, i);
    forall x | x in rows && key(x) != key(rows[i]) ensures x in r {
      var j :| 0 <= j < |rows| && rows[j] == x;
      if j < i {
        assert r[j] == x;
      } else {
        assert r[j - 1] == x;
      }
    }
  }

  /** Removing a row keeps the keys unique. */
  lemma RemoveKeepsUnique<T, K>(rows: seq<T>, i: nat, key: T -> K)
    requires i < |rows| && UniqueKeys(rows, key)
    ensures UniqueKeys(RemoveAt(rows, i), key)
  {
    var r := RemoveAt(rows, i);
    forall a, b | 0 <= a < b < |r| ensures key(r[a]) != key(r[b]) {
      var a' := if a < i then a else a + 1;
      var b' := if b < i then b else b + 1;
      assert r[a] == rows[a'] && r[b] == rows[b'];
    }
  }

  /** The first two rows of a table with unique keys carry two different keys. */
  lemma FirstTwoDiffer<T, K>(rows: seq<T>, key: T -> K)
    requires UniqueKeys(rows, key)
    ensures |rows| >= 2 ==> rows[0] in rows && rows[1] in rows && key(rows[0]) != key(rows[1])
  {
  }

  /** Appending a row whose key no row has keeps the keys unique. */
  lemma AppendNewKey<T, K>(rows: seq<T>, x: T, key: T -> K)
    requires UniqueKeys(rows, key) && forall y :: y in rows ==> key(y) != key(x)
    ensures UniqueKeys(rows + [x], key)
  {
    var r := rows + [x];
    forall a, b | 0 <= a < b < |r| ensures key(r[a]) != key(r[b]) {
      if b == |rows| {
        assert r[a] in rows;
      }
    }
  }

  /** Filtering keeps the keys unique. */
  lemma {:induction false} FilterKeepsUnique<T(!new), K>(rows: seq<T>, keep: T -> bool, key: T -> K)
    requires UniqueKeys(rows, key)
    ensures UniqueKeys(Filter(rows, keep), key)
  {
    if rows != [] {
      var tail := rows[1..];
      assert UniqueKeys(tail, key) by {
        forall a, b | 0 <= a < b < |tail| ensures key(tail[a]) != key(tail[b]) {
          assert tail[a] == rows[a + 1] && tail[b] == rows[b + 1];
        }
      }
      FilterKeepsUnique(tail, keep, key);
      if keep(rows[0]) {
        var f := Filter(tail, keep);
        forall y | y in f ensures key(y) != key(rows[0]) {
          var k :| 0 <= k < |tail| && tail[k] == y;
          assert y == rows[k + 1];
        }
        var r := [rows[0]] + f;
        forall a, b | 0 <= a < b < |r| ensures key(r[a]) != key(r[b]) {
          if a == 0 {
            assert r[b] in f;
          } else {
            assert r[a] == f[a - 1] && r[b] == f[b - 1];
          }
        }
      }
    }
  }
}
