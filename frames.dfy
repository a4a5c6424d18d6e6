/**
 * Row selection by a boolean mask, `df[mask]` in pandas: the rows that satisfy
 * the mask, in their original order, re-numbered from zero.
 */
module Frames {

  /** The rows of `rows` for which `keep` holds, in order. */
  function Where<T>(rows: seq<T>, keep: T -> bool): (r: seq<T>)
    ensures |r| <= |rows|
    ensures forall x :: x in r ==> x in rows && keep(x)
  {
    if rows == [] then []
    else
      var last := rows[|rows| - 1];
      Where(rows[..|rows| - 1], keep) + (if keep(last) then [last] else [])
  }

  /** Every row that satisfies the mask is kept. */
  lemma {:induction false} WhereComplete<T>(rows: seq<T>, keep: T -> bool, x: T)
    requires x in rows && keep(x)
    ensures x in Where(rows, keep)
  {
    var n := |rows|;
    if rows[n - 1] != x {
      assert x in rows[..n - 1] by {
        var i :| 0 <= i < n && rows[i] == x;
        assert rows[..n - 1][i] == x;
      }
      WhereComplete(rows[..n - 1], keep, x);
    }
  }

  /** Selection distributes over concatenation: relative order is preserved. */
  lemma {:induction false} WhereAppend<T>(a: seq<T>, b: seq<T>, keep: T -> bool)
    ensures Where(a + b, keep) == Where(a, keep) + Where(b, keep)
  {
    if b == [] {
      assert a + b == a;
    } else {
      var n := |b|;
      var ab, init, last := a + b, b[..n - 1], b[n - 1];
      assert ab[..|ab| - 1] == a + init;
      assert ab[|ab| - 1] == last;
      WhereAppend(a, init, keep);
      var t := if keep(last) then [last] else [];
      assert Where(ab, keep) == Where(a + init, keep) + t;
      assert Where(b, keep) == Where(init, keep) + t;
      assert Where(a, keep) + Where(init, keep) + t == Where(a, keep) + (Where(init, keep) + t);
    }
  }

  /** Each row is kept with its full multiplicity, or not at all. */
  lemma {:induction false} WhereMultiset<T>(rows: seq<T>, keep: T -> bool, x: T)
    ensures multiset(Where(rows, keep))[x] == if keep(x) then multiset(rows)[x] else 0
  {
    if rows != [] {
      var n := |rows|;
      assert rows == rows[..n - 1] + [rows[n - 1]];
      WhereMultiset(rows[..n - 1], keep, x);
    }
  }

  /** A mask that keeps every row selects the whole table. */
  lemma {:induction false} WhereAll<T>(rows: seq<T>, keep: T -> bool)
    requires forall i :: 0 <= i < |rows| ==> keep(rows[i])
    ensures Where(rows, keep) == rows
  {
    if rows != [] {
      var n := |rows|;
      var init := rows[..n - 1];
      forall i | 0 <= i < |init| ensures keep(init[i]) {
        assert init[i] == rows[i];
      }
      WhereAll(init, keep);
      assert keep(rows[n - 1]);
      assert init + [rows[n - 1]] == rows;
    }
  }

  /** A mask that keeps no row selects nothing. */
  lemma {:induction false} WhereNone<T>(rows: seq<T>, keep: T -> bool)
    requires forall i :: 0 <= i < |rows| ==> !keep(rows[i])
    ensures Where(rows, keep) == []
  {
    if rows != [] {
      WhereNone(rows[..|rows| - 1], keep);
    }
  }

  /** Applying the same mask twice changes nothing. */
  lemma WhereIdempotent<T>(rows: seq<T>, keep: T -> bool)
    ensures Where(Where(rows, keep), keep) == Where(rows, keep)
  {
    var r := Where(rows, keep);
    forall i | 0 <= i < |r| ensures keep(r[i]) {
      assert r[i] in r;
    }
    WhereAll(r, keep);
  }
}
