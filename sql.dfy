/** The relational operators the routes lean on, over in-memory sequences:
    `SUM` (NULL on no rows) and `COALESCE(…, 0)`, `ORDER BY` as a stable
    sort under a total preorder, `LIMIT`/`take`, and `GROUP BY` with summed
    columns. Rows with equal sort keys keep their input order; the database
    leaves that order unspecified. */
module Sql {
  import opened Common

  function Sum(xs: seq<int>): int
  {
    if xs == [] then 0 else Sum(xs[..|xs| - 1]) + xs[|xs| - 1]
  }

  lemma {:induction false} SumAppend(a: seq<int>, b: seq<int>)
    ensures Sum(a + b) == Sum(a) + Sum(b)
    decreases |b|
  {
    if b == [] {
      assert a + b == a;
    } else {
      assert (a + b)[..|a + b| - 1] == a + b[..|b| - 1];
      SumAppend(a, b[..|b| - 1]);
    }
  }

  lemma {:induction false} SumPermutation(a: seq<int>, b: seq<int>)
    requires multiset(a) == multiset(b)
    ensures Sum(a) == Sum(b)
    decreases |a|
  {
    if a == [] {
      assert b == [] by { assert |multiset(b)| == 0; }
    } else {
      var x := a[|a| - 1];
      assert x in multiset(b);
      var i :| 0 <= i < |b| && b[i] == x;
      var rest := b[..i] + b[i + 1..];
      assert b == b[..i] + [x] + b[i + 1..];
      assert a == a[..|a| - 1] + [x];
      assert multiset(a) == multiset(a[..|a| - 1]) + multiset{x};
      assert multiset(b) == multiset(rest) + multiset{x};
      assert multiset(a[..|a| - 1]) == multiset(a) - multiset{x};
      assert multiset(rest) == multiset(b) - multiset{x};
      SumPermutation(a[..|a| - 1], rest);
      SumAppend(b[..i] + [x], b[i + 1..]);
      SumAppend(b[..i], [x]);
      SumAppend(b[..i], b[i + 1..]);
    }
  }

  /** SQL `SUM`: NULL over no rows. */
  function SqlSum(xs: seq<int>): (r: Option<int>)
    ensures r.None? <==> xs == []
    ensures r.Some? ==> r.value == Sum(xs)
  {
    if xs == [] then None else Some(Sum(xs))
  }

  /** `COALESCE(x, 0)`, and also what `formatNumber` does with a null. */
  function CoalesceZero(x: Option<int>): int
  {
    x.GetOr(0)
  }

  lemma CoalesceSqlSum(xs: seq<int>)
    ensures CoalesceZero(SqlSum(xs)) == Sum(xs)
  {
  }

  /** `LIMIT k` / `take: k`. */
  function Take<T>(s: seq<T>, k: nat): (r: seq<T>)
    ensures |r| <= k && |r| <= |s|
    ensures |s| <= k ==> r == s
    ensures |s| > k ==> |r| == k
    ensures r == s[..|r|]
  {
    if |s| <= k then s else s[..k]
  }

  /** `WHERE p`: the rows satisfying `p`, in their order. */
  function Where<T(!new)>(s: seq<T>, p: T -> bool): (r: seq<T>)
    ensures forall x :: x in r <==> x in s && p(x)
    ensures |r| <= |s|
    ensures forall x :: multiset(r)[x] == if p(x) then multiset(s)[x] else 0
  {
    if s == [] then []
    else
      assert s == [s[0]] + s[1..];
      (if p(s[0]) then [s[0]] else []) + Where(s[1..], p)
  }

  lemma {:induction false} WhereAll<T(!new)>(s: seq<T>, p: T -> bool)
    requires forall x :: x in s ==> p(x)
    ensures Where(s, p) == s
  {
    if s != [] {
      WhereAll(s[1..], p);
      assert s == [s[0]] + s[1..];
    }
  }

  ghost predicate TotalPreorder<T(!new)>(le: (T, T) -> bool)
  {
    && (forall a, b :: le(a, b) || le(b, a))
    && (forall a, b, c :: le(a, b) && le(b, c) ==> le(a, c))
  }

  ghost predicate Sorted<T>(s: seq<T>, le: (T, T) -> bool)
  {
    forall i, j :: 0 <= i < j < |s| ==> le(s[i], s[j])
  }

  function Insert<T>(x: T, s: seq<T>, le: (T, T) -> bool): (r: seq<T>)
    ensures multiset(r) == multiset(s) + multiset{x}
    ensures |r| == |s| + 1
  {
    if s == [] then [x]
    else if le(x, s[0]) then [x] + s
    else
      assert s == [s[0]] + s[1..];
      [s[0]] + Insert(x, s[1..], le)
  }

  lemma {:induction false} InsertSorted<T(!new)>(x: T, s: seq<T>, le: (T, T) -> bool)
    requires TotalPreorder(le) && Sorted(s, le)
    ensures Sorted(Insert(x, s, le), le)
  {
    if s != [] && !le(x, s[0]) {
      InsertSorted(x, s[1..], le);
      var r := Insert(x, s, le);
      assert le(s[0], x);
      forall j | 1 <= j < |r| ensures le(r[0], r[j]) {
        var y := r[j];
        assert y in multiset(Insert(x, s[1..], le));
        assert y in multiset(s[1..]) + multiset{x};
        if y != x {
          assert y in s[1..];
        }
      }
    }
  }

  /** `ORDER BY` under `le`: a stable insertion sort. */
  function SortBy<T>(s: seq<T>, le: (T, T) -> bool): (r: seq<T>)
    ensures multiset(r) == multiset(s)
    ensures |r| == |s|
  {
    if s == [] then []
    else
      assert s == [s[0]] + s[1..];
      Insert(s[0], SortBy(s[1..], le), le)
  }

  lemma {:induction false} SortBySorted<T(!new)>(s: seq<T>, le: (T, T) -> bool)
    requires TotalPreorder(le)
    ensures Sorted(SortBy(s, le), le)
  {
    if s != [] {
      SortBySorted(s[1..], le);
      InsertSorted(s[0], SortBy(s[1..], le), le);
    }
  }

  /** `ORDER BY … LIMIT k`: the rows kept are ordered, come from the input,
      and none of the rows cut off sorts before a kept one. */
  lemma TopK<T(!new)>(s: seq<T>, le: (T, T) -> bool, k: nat)
    requires TotalPreorder(le)
    ensures var r := Take(SortBy(s, le), k);
      && Sorted(r, le)
      && multiset(r) <= multiset(s)
      && (forall x :: x in r ==> x in s)
      && |r| == (if |s| <= k then |s| else k)
      && forall x, i :: x in s && 0 <= i < |r| && x !in r ==> le(r[i], x)
  {
    var t := SortBy(s, le);
    var r := Take(t, k);
    SortBySorted(s, le);
    assert t == r + t[|r|..];
    assert multiset(t) == multiset(r) + multiset(t[|r|..]);
    forall x | x in r ensures x in s {
      assert x in multiset(r);
      assert x in multiset(t);
    }
    forall x, i | x in s && 0 <= i < |r| && x !in r ensures le(r[i], x) {
      assert x in multiset(t);
      var j :| 0 <= j < |t| && t[j] == x;
      assert j >= |r|;
    }
  }

  /** One row of a grouped aggregate: the group's key and the sums of its
      two numeric columns. */
  datatype Agg<K> = Agg(key: K, quantity: int, total: int)

  predicate HasKey<K(==)>(gs: seq<Agg<K>>, k: K)
  {
    exists i :: 0 <= i < |gs| && gs[i].key == k
  }

  predicate DistinctKeys<K(==)>(gs: seq<Agg<K>>)
  {
    forall i, j :: 0 <= i < j < |gs| ==> gs[i].key != gs[j].key
  }

  /** Sums of the rows with key `k`, the reference a grouping must agree with. */
  function QuantityOf<K(==)>(rows: seq<Agg<K>>, k: K): int
  {
    if rows == [] then 0
    else QuantityOf(rows[..|rows| - 1], k)
         + (if rows[|rows| - 1].key == k then rows[|rows| - 1].quantity else 0)
  }

  function TotalOf<K(==)>(rows: seq<Agg<K>>, k: K): int
  {
    if rows == [] then 0
    else TotalOf(rows[..|rows| - 1], k)
         + (if rows[|rows| - 1].key == k then rows[|rows| - 1].total else 0)
  }

  /** Position of the group with key `k`, or -1 when there is none. */
  function IndexOfKey<K(==)>(gs: seq<Agg<K>>, k: K): (i: int)
    ensures -1 <= i < |gs|
    ensures 0 <= i ==> gs[i].key == k
    ensures i < 0 <==> !HasKey(gs, k)
  {
    if gs == [] then -1
    else if gs[0].key == k then 0
    else
      var j := IndexOfKey(gs[1..], k);
      assert HasKey(gs, k) ==> HasKey(gs[1..], k) by {
        if HasKey(gs, k) {
          var m :| 0 <= m < |gs| && gs[m].key == k;
          assert gs[1..][m - 1].key == k;
        }
      }
      if j < 0 then -1 else j + 1
  }

  /** Adds one row into the groups: into its key's group if there is one,
      otherwise as a new group at the end. */
  function AddRow<K(==)>(gs: seq<Agg<K>>, r: Agg<K>): seq<Agg<K>>
  {
    var i := IndexOfKey(gs, r.key);
    if i < 0 then gs + [r]
    else gs[i := Agg(r.key, gs[i].quantity + r.quantity, gs[i].total + r.total)]
  }

  /** `GROUP BY key` with `SUM` on both columns; groups appear in the order
      their key first appears. */
  function GroupBy<K(==)>(rows: seq<Agg<K>>): seq<Agg<K>>
  {
    if rows == [] then [] else AddRow(GroupBy(rows[..|rows| - 1]), rows[|rows| - 1])
  }

  /** Every group's sums agree with the rows of its key, keys are distinct,
      and a key has a group exactly when some row carries it. */
  lemma {:induction false} GroupBySpec<K>(rows: seq<Agg<K>>)
    ensures DistinctKeys(GroupBy(rows))
    ensures forall k :: HasKey(GroupBy(rows), k) <==> HasKey(rows, k)
    ensures forall i :: 0 <= i < |GroupBy(rows)| ==>
      GroupBy(rows)[i].quantity == QuantityOf(rows, GroupBy(rows)[i].key)
      && GroupBy(rows)[i].total == TotalOf(rows, GroupBy(rows)[i].key)
  {
    if rows != [] {
      var init := rows[..|rows| - 1];
      var last := rows[|rows| - 1];
      GroupBySpec(init);
      var gs := GroupBy(init);
      var g := GroupBy(rows);
      var idx := IndexOfKey(gs, last.key);
      forall k ensures HasKey(rows, k) <==> HasKey(init, k) || k == last.key {
        if HasKey(rows, k) && k != last.key {
          var m :| 0 <= m < |rows| && rows[m].key == k;
          assert init[m].key == k;
        }
        if HasKey(init, k) {
          var m :| 0 <= m < |init| && init[m].key == k;
          assert rows[m].key == k;
        }
        if k == last.key {
          assert rows[|rows| - 1].key == k;
        }
      }
      if idx < 0 {
        assert g == gs + [last];
        NoRowsZero(init, last.key);
        forall k ensures HasKey(g, k) <==> HasKey(gs, k) || k == last.key {
          if HasKey(g, k) && k != last.key {
            var m :| 0 <= m < |g| && g[m].key == k;
            assert gs[m].key == k;
          }
          if HasKey(gs, k) {
            var m :| 0 <= m < |gs| && gs[m].key == k;
            assert g[m].key == k;
          }
          if k == last.key {
            assert g[|gs|].key == k;
          }
        }
      } else {
        forall k ensures HasKey(g, k) <==> HasKey(gs, k) {
          if HasKey(g, k) {
            var m :| 0 <= m < |g| && g[m].key == k;
            assert gs[m].key == k;
          }
          if HasKey(gs, k) {
            var m :| 0 <= m < |gs| && gs[m].key == k;
            assert g[m].key == k;
          }
        }
      }
    }
  }

  /** A key no row carries sums to nothing. */
  lemma {:induction false} NoRowsZero<K>(rows: seq<Agg<K>>, k: K)
    requires !HasKey(rows, k)
    ensures QuantityOf(rows, k) == 0 && TotalOf(rows, k) == 0
  {
    if rows != [] {
      var init := rows[..|rows| - 1];
      forall m | 0 <= m < |init| ensures init[m].key != k {
        assert init[m] == rows[m];
      }
      assert rows[|rows| - 1].key != k;
      NoRowsZero(init, k);
    }
  }
}
