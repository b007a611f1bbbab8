/** The group-and-reduce steps of the report (`DataFrame.groupby(key)[col]`
    followed by `.sum()`, `.count()` or `.mean()`, and `Series.sort_values`).
    A grouped result is a sequence of `(key, value)` pairs with distinct keys.
    As in pandas, a row whose group key is missing (NaN) belongs to no group. */
module Aggregate {
  import opened Wrappers

  // ---------------------------------------------------------------------
  // Reference quantities over the rows

  /** Sum of `val` over the rows whose key is `k`. */
  function SumWhere<R, K(==,!new)>(rows: seq<R>, key: R -> Option<K>, val: R -> real, k: K): real
  {
    if |rows| == 0 then 0.0
    else
      var last := rows[|rows| - 1];
      SumWhere(rows[..|rows| - 1], key, val, k) + (if key(last) == Some(k) then val(last) else 0.0)
  }

  /** Number of rows whose key is `k`. */
  function CountWhere<R, K(==,!new)>(rows: seq<R>, key: R -> Option<K>, k: K): nat
  {
    if |rows| == 0 then 0
    else CountWhere(rows[..|rows| - 1], key, k) + (if key(rows[|rows| - 1]) == Some(k) then 1 else 0)
  }

  /** Sum of `val` over the rows that have a key. */
  function KeyedTotal<R, K>(rows: seq<R>, key: R -> Option<K>, val: R -> real): real
  {
    if |rows| == 0 then 0.0
    else
      var last := rows[|rows| - 1];
      KeyedTotal(rows[..|rows| - 1], key, val) + (if key(last).Some? then val(last) else 0.0)
  }

  /** Number of rows that have a key. */
  function KeyedCount<R, K>(rows: seq<R>, key: R -> Option<K>): nat
  {
    if |rows| == 0 then 0
    else KeyedCount(rows[..|rows| - 1], key) + (if key(rows[|rows| - 1]).Some? then 1 else 0)
  }

  /** Sum of `val` over all rows. */
  function Total<R>(rows: seq<R>, val: R -> real): real
  {
    if |rows| == 0 then 0.0 else Total(rows[..|rows| - 1], val) + val(rows[|rows| - 1])
  }

  /** When every row has a key, the keyed total is the plain total. */
  lemma {:induction false} EveryRowKeyedTotal<R, K>(rows: seq<R>, key: R -> Option<K>, val: R -> real)
    requires forall r :: key(r).Some?
    ensures KeyedTotal(rows, key, val) == Total(rows, val)
  {
    if |rows| > 0 { EveryRowKeyedTotal(rows[..|rows| - 1], key, val); }
  }

  /** When every row has a key, every row is counted. */
  lemma {:induction false} EveryRowKeyedCount<R, K>(rows: seq<R>, key: R -> Option<K>)
    requires forall r :: key(r).Some?
    ensures KeyedCount(rows, key) == |rows|
  {
    if |rows| > 0 { EveryRowKeyedCount(rows[..|rows| - 1], key); }
  }

  /** The keys that occur in the rows; each is the key of at least one row. */
  function RowKeys<R, K(==,!new)>(rows: seq<R>, key: R -> Option<K>): (ks: set<K>)
    ensures forall k :: k in ks <==> CountWhere(rows, key, k) > 0
  {
    if |rows| == 0 then {}
    else
      var last := rows[|rows| - 1];
      RowKeys(rows[..|rows| - 1], key) + (if key(last).Some? then {key(last).value} else {})
  }

  // ---------------------------------------------------------------------
  // Group tables

  function Keys<K(==), V>(g: seq<(K, V)>): set<K>
  {
    if |g| == 0 then {} else {g[0].0} + Keys(g[1..])
  }

  predicate DistinctKeys<K(==), V>(g: seq<(K, V)>)
  {
    |g| == 0 || (g[0].0 !in Keys(g[1..]) && DistinctKeys(g[1..]))
  }

  /** The value stored under `k`, as `Series[k]` would give it. */
  function Find<K(==,!new), V>(g: seq<(K, V)>, k: K): Option<V>
  {
    if |g| == 0 then None
    else if g[0].0 == k then Some(g[0].1)
    else Find(g[1..], k)
  }

  function SumOf<K>(g: seq<(K, real)>): real
  {
    if |g| == 0 then 0.0 else g[0].1 + SumOf(g[1..])
  }

  function CountOf<K>(g: seq<(K, nat)>): nat
  {
    if |g| == 0 then 0 else g[0].1 + CountOf(g[1..])
  }

  /** In a table with distinct keys, each entry is what `Find` returns for
      its key. */
  lemma {:induction false} FindAt<K(!new), V>(g: seq<(K, V)>, i: nat)
    requires DistinctKeys(g) && i < |g|
    ensures Find(g, g[i].0) == Some(g[i].1)
  {
    if i > 0 {
      KeysHold(g[1..], i - 1);
      FindAt(g[1..], i - 1);
    }
  }

  /** Every key of a table is the key of one of its entries. */
  lemma {:induction false} KeyAt<K, V>(g: seq<(K, V)>, k: K) returns (i: nat)
    requires k in Keys(g)
    ensures i < |g| && g[i].0 == k
  {
    if g[0].0 == k {
      i := 0;
    } else {
      var j := KeyAt(g[1..], k);
      i := j + 1;
    }
  }

  lemma {:induction false} KeysHold<K, V>(g: seq<(K, V)>, i: nat)
    requires i < |g|
    ensures g[i].0 in Keys(g)
  {
    if i > 0 { KeysHold(g[1..], i - 1); }
  }

  /** Adds `v` to the entry for `k`, creating it at the end when absent. */
  function AddTo<K(==,!new)>(g: seq<(K, real)>, k: K, v: real): (r: seq<(K, real)>)
    ensures Keys(r) == Keys(g) + {k}
    ensures DistinctKeys(g) ==> DistinctKeys(r)
    ensures forall k' :: Find(r, k') == if k' == k then Some(Find(g, k).GetOr(0.0) + v) else Find(g, k')
    ensures SumOf(r) == SumOf(g) + v
  {
    if |g| == 0 then [(k, v)]
    else if g[0].0 == k then
      var r := [(k, g[0].1 + v)] + g[1..];
      assert r[1..] == g[1..];
      r
    else
      var r := [g[0]] + AddTo(g[1..], k, v);
      assert r[1..] == AddTo(g[1..], k, v);
      r
  }

  /** Adds one to the count for `k`, creating it at the end when absent. */
  function AddOne<K(==,!new)>(g: seq<(K, nat)>, k: K): (r: seq<(K, nat)>)
    ensures Keys(r) == Keys(g) + {k}
    ensures DistinctKeys(g) ==> DistinctKeys(r)
    ensures forall k' :: Find(r, k') == if k' == k then Some(Find(g, k).GetOr(0) + 1) else Find(g, k')
    ensures CountOf(r) == CountOf(g) + 1
  {
    if |g| == 0 then [(k, 1)]
    else if g[0].0 == k then
      var r := [(k, g[0].1 + 1)] + g[1..];
      assert r[1..] == g[1..];
      r
    else
      var r := [g[0]] + AddOne(g[1..], k);
      assert r[1..] == AddOne(g[1..], k);
      r
  }

  /** `groupby(key)[val].sum()`: one entry per key that occurs; each holds
      the sum over its rows; the entries add up to the total over all rows
      that have a key (the partition-sum identity). */
  function GroupSum<R, K(==,!new)>(rows: seq<R>, key: R -> Option<K>, val: R -> real): (g: seq<(K, real)>)
    ensures DistinctKeys(g)
    ensures Keys(g) == RowKeys(rows, key)
    ensures forall k :: Find(g, k) == if k in RowKeys(rows, key) then Some(SumWhere(rows, key, val, k)) else None
    ensures SumOf(g) == KeyedTotal(rows, key, val)
  {
    if |rows| == 0 then []
    else
      var g := GroupSum(rows[..|rows| - 1], key, val);
      var last := rows[|rows| - 1];
      match key(last)
      case None => g
      case Some(k) =>
        SumWhereAbsent(rows[..|rows| - 1], key, val, k);
        AddTo(g, k, val(last))
  }

  /** A key that no row carries sums to zero. */
  lemma {:induction false} SumWhereAbsent<R, K(!new)>(rows: seq<R>, key: R -> Option<K>, val: R -> real, k: K)
    ensures CountWhere(rows, key, k) == 0 ==> SumWhere(rows, key, val, k) == 0.0
  {
    if |rows| > 0 { SumWhereAbsent(rows[..|rows| - 1], key, val, k); }
  }

  /** When every row has a group key, the group sums partition the total:
      they add up to the sum over all rows, and each is its key's sum. */
  lemma {:induction false} GroupSumPartition<R, K(!new)>(rows: seq<R>, key: R -> Option<K>, val: R -> real)
    requires forall r :: key(r).Some?
    ensures SumOf(GroupSum(rows, key, val)) == Total(rows, val)
    ensures forall k :: Find(GroupSum(rows, key, val), k).Some? ==>
      Find(GroupSum(rows, key, val), k).value == SumWhere(rows, key, val, k)
  {
    EveryRowKeyedTotal(rows, key, val);
  }

  /** `groupby(key)[col].count()`: one entry per key that occurs, holding
      its number of rows; the counts add up to the number of rows that have
      a key. */
  function GroupCount<R, K(==,!new)>(rows: seq<R>, key: R -> Option<K>): (g: seq<(K, nat)>)
    ensures DistinctKeys(g)
    ensures Keys(g) == RowKeys(rows, key)
    ensures forall k :: Find(g, k) == if k in RowKeys(rows, key) then Some(CountWhere(rows, key, k)) else None
    ensures CountOf(g) == KeyedCount(rows, key)
  {
    if |rows| == 0 then []
    else
      var g := GroupCount(rows[..|rows| - 1], key);
      match key(rows[|rows| - 1])
      case None => g
      case Some(k) => AddOne(g, k)
  }

  /** When every row has a group key, the group counts add up to the
      number of rows, and each is its key's number of rows. */
  lemma {:induction false} GroupCountTotal<R, K(!new)>(rows: seq<R>, key: R -> Option<K>)
    requires forall r :: key(r).Some?
    ensures CountOf(GroupCount(rows, key)) == |rows|
    ensures forall k :: Find(GroupCount(rows, key), k).Some? ==>
      Find(GroupCount(rows, key), k).value == CountWhere(rows, key, k)
  {
    EveryRowKeyedCount(rows, key);
  }

  /** A key with a row is the key of one of the rows. */
  lemma {:induction false} KeyOfSomeRow<R, K(!new)>(rows: seq<R>, key: R -> Option<K>, k: K) returns (i: nat)
    requires CountWhere(rows, key, k) > 0
    ensures i < |rows| && key(rows[i]) == Some(k)
  {
    var n := |rows| - 1;
    if CountWhere(rows[..n], key, k) > 0 {
      i := KeyOfSomeRow(rows[..n], key, k);
      assert rows[..n][i] == rows[i];
    } else {
      i := n;
    }
  }

  /** The arithmetic mean of `n` values whose sum is `total`. */
  function Mean(total: real, n: nat): (m: real)
    requires n > 0
    ensures m * (n as real) == total
  {
    total / (n as real)
  }

  /** Divides each group's sum by its row count. */
  function Means<R, K(==,!new)>(sums: seq<(K, real)>, rows: seq<R>, key: R -> Option<K>): (g: seq<(K, real)>)
    requires Keys(sums) <= RowKeys(rows, key)
    ensures Keys(g) == Keys(sums)
    ensures DistinctKeys(sums) ==> DistinctKeys(g)
    ensures |g| == |sums|
    ensures forall i :: 0 <= i < |g| ==>
      g[i].0 == sums[i].0 && CountWhere(rows, key, g[i].0) > 0 &&
      g[i].1 == Mean(sums[i].1, CountWhere(rows, key, g[i].0))
  {
    if |sums| == 0 then []
    else
      var (k, s) := sums[0];
      assert k in Keys(sums);
      var rest := Means(sums[1..], rows, key);
      var g := [(k, Mean(s, CountWhere(rows, key, k)))] + rest;
      assert g[1..] == rest;
      assert forall i :: 1 <= i < |g| ==> g[i] == rest[i - 1] && sums[i] == sums[1..][i - 1];
      g
  }

  /** `groupby(key)[val].mean()`: one entry per key that occurs, holding the
      mean of its rows, that is its sum divided by its (non-zero) row count. */
  function GroupMean<R, K(==,!new)>(rows: seq<R>, key: R -> Option<K>, val: R -> real): (g: seq<(K, real)>)
    ensures DistinctKeys(g)
    ensures Keys(g) == RowKeys(rows, key)
    ensures forall i :: 0 <= i < |g| ==>
      CountWhere(rows, key, g[i].0) > 0 &&
      g[i].1 == Mean(SumWhere(rows, key, val, g[i].0), CountWhere(rows, key, g[i].0))
  {
    var sums := GroupSum(rows, key, val);
    var g := Means(sums, rows, key);
    assert forall i :: 0 <= i < |sums| ==> sums[i].1 == SumWhere(rows, key, val, sums[i].0) by {
      forall i | 0 <= i < |sums| ensures sums[i].1 == SumWhere(rows, key, val, sums[i].0) {
        FindAt(sums, i);
        KeysHold(sums, i);
      }
    }
    g
  }

  // ---------------------------------------------------------------------
  // sort_values(ascending=False)

  predicate NonIncreasing<K>(g: seq<(K, real)>)
  {
    forall i, j :: 0 <= i < j < |g| ==> g[i].1 >= g[j].1
  }

  function Insert<K(==,!new)>(x: (K, real), g: seq<(K, real)>): (r: seq<(K, real)>)
    requires NonIncreasing(g)
    ensures NonIncreasing(r)
    ensures multiset(r) == multiset(g) + multiset{x}
  {
    if |g| == 0 then [x]
    else if x.1 >= g[0].1 then [x] + g
    else
      var rest := Insert(x, g[1..]);
      assert g == [g[0]] + g[1..];
      HeadBoundsRest(x, g, rest);
      [g[0]] + rest
  }

  /** Inserting below the head of a sorted table: every entry of the
      result's tail is at most the head. */
  lemma HeadBoundsRest<K(!new)>(x: (K, real), g: seq<(K, real)>, rest: seq<(K, real)>)
    requires NonIncreasing(g) && |g| > 0 && x.1 < g[0].1
    requires multiset(rest) == multiset(g[1..]) + multiset{x}
    ensures forall j :: 0 <= j < |rest| ==> rest[j].1 <= g[0].1
  {
    forall j | 0 <= j < |rest| ensures rest[j].1 <= g[0].1 {
      var y := rest[j];
      assert y in multiset(rest);
      if y != x {
        assert y in multiset(g[1..]);
        var m :| 0 <= m < |g[1..]| && g[1..][m] == y;
        assert g[m + 1] == y;
      }
    }
  }

  /** `Series.sort_values(ascending=False)`: the same entries, largest value
      first. */
  function SortDescending<K(==,!new)>(g: seq<(K, real)>): (r: seq<(K, real)>)
    ensures NonIncreasing(r)
    ensures multiset(r) == multiset(g)
  {
    if |g| == 0 then []
    else
      assert g == [g[0]] + g[1..];
      Insert(g[0], SortDescending(g[1..]))
  }

  /** Inserting adds the entry's key, and keeps the keys distinct when it
      is new. */
  lemma {:induction false} InsertKeys<K(!new)>(x: (K, real), g: seq<(K, real)>)
    requires NonIncreasing(g)
    ensures Keys(Insert(x, g)) == Keys(g) + {x.0}
    ensures DistinctKeys(g) && x.0 !in Keys(g) ==> DistinctKeys(Insert(x, g))
  {
    var r := Insert(x, g);
    if |g| == 0 {
      assert r[1..] == [];
    } else if x.1 >= g[0].1 {
      assert r[1..] == g;
    } else {
      var rest := Insert(x, g[1..]);
      assert r[1..] == rest && r[0] == g[0];
      InsertKeys(x, g[1..]);
    }
  }

  /** Sorting keeps the keys, and keeps them distinct. */
  lemma {:induction false} SortKeys<K(!new)>(g: seq<(K, real)>)
    ensures Keys(SortDescending(g)) == Keys(g)
    ensures DistinctKeys(g) ==> DistinctKeys(SortDescending(g))
  {
    if |g| > 0 {
      SortKeys(g[1..]);
      InsertKeys(g[0], SortDescending(g[1..]));
    }
  }
}
