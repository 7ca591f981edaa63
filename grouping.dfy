/**
 * `groupby(...)` over a transaction batch, for any key: the groups, the
 * distinct keys in order of first appearance and in the ascending order
 * `groupby` emits them in, and the column reductions both
 * aggregations take per group (`sum`/`count`/`min`/`max` of the amount,
 * `nunique`, `value_counts`).  A row whose key is null belongs to no group,
 * as with `groupby`'s default `dropna=True`.
 */
module Grouping {
  import opened Wrappers
  import opened Rows
  import opened Numeric
  import opened Ordering

  /** The string columns whose distinct values the aggregations count. */
  function CustomerIdOf(t: Txn): Option<string> { t.customerId }
  function TransactionIdOf(t: Txn): Option<string> { t.transactionId }
  function TransactionTypeOf(t: Txn): Option<string> { t.transactionType }

  /** The rows of `s` whose key is `k`, in order. */
  function Group<K(==, !new)>(key: Txn -> Option<K>, s: Batch, k: K): (g: Batch)
    ensures |g| <= |s|
    ensures forall t :: t in g <==> t in s && key(t) == Some(k)
  {
    if s == [] then []
    else
      assert forall t :: t in s <==> t == s[0] || t in s[1..];
      (if key(s[0]) == Some(k) then [s[0]] else []) + Group(key, s[1..], k)
  }

  /** The distinct keys of `s`, in order of first appearance. */
  function GroupKeys<K(==, !new)>(key: Txn -> Option<K>, s: Batch): (ks: seq<K>)
    ensures forall k :: k in ks <==> exists t :: t in s && key(t) == Some(k)
    ensures forall i, j :: 0 <= i < j < |ks| ==> ks[i] != ks[j]
    decreases |s|
  {
    if s == [] then []
    else
      var p := s[..|s| - 1];
      var x := s[|s| - 1];
      assert s == p + [x];
      assert forall t :: t in s <==> t in p || t == x;
      var kp := GroupKeys(key, p);
      if key(x).None? || key(x).value in kp then kp else kp + [key(x).value]
  }

  // ---------------------------------------------------------------------------
  // Reductions

  /** The numeric amounts of `s`, in order: what `sum`, `count`, `mean`, `min` and `max` see (NaN is skipped). */
  function AmountValues(s: Batch): (xs: seq<real>)
    ensures |xs| <= |s|
    ensures (forall t :: t in s ==> NumericAmount(t).Some?) ==> |xs| == |s|
    ensures forall x :: x in xs <==> exists t :: t in s && NumericAmount(t) == Some(x)
  {
    if s == [] then []
    else
      assert forall t :: t in s <==> t == s[0] || t in s[1..];
      (if NumericAmount(s[0]).Some? then [NumericAmount(s[0]).value] else []) + AmountValues(s[1..])
  }

  /** `nunique()` of a string column: its distinct non-null values. */
  function DistinctValues(field: Txn -> Option<string>, s: Batch): set<string> {
    set t | t in s && field(t).Some? :: field(t).value
  }

  /** A column has no more distinct values than the batch has rows. */
  lemma {:induction false} DistinctValuesBound(field: Txn -> Option<string>, s: Batch)
    ensures |DistinctValues(field, s)| <= |s|
    decreases |s|
  {
    if s != [] {
      var p := s[..|s| - 1];
      var x := s[|s| - 1];
      assert s == p + [x];
      DistinctValuesBound(field, p);
      var dp := DistinctValues(field, p);
      var extra: set<string> := if field(x).Some? then {field(x).value} else {};
      assert DistinctValues(field, s) == dp + extra by {
        forall v | v in DistinctValues(field, s) ensures v in dp + extra {
          var t :| t in s && field(t).Some? && field(t).value == v;
          if t != x {
            assert t in p;
          }
        }
        forall v | v in dp ensures v in DistinctValues(field, s) {
          var t :| t in p && field(t).Some? && field(t).value == v;
          assert t in s;
        }
        assert x in s;
      }
      if field(x).Some? && field(x).value in dp {
        assert dp + extra == dp;
      }
    }
  }

  /** `value_counts().to_dict()`: each non-null value of a column and the number of rows holding it. */
  function ValueCounts(field: Txn -> Option<string>, s: Batch): (m: map<string, nat>)
    ensures m.Keys == DistinctValues(field, s)
    ensures forall v :: v in m ==> 1 <= m[v] <= |s|
    ensures forall v :: v in m ==> m[v] == |Group(field, s, v)|
  {
    var m := map v | v in DistinctValues(field, s) :: |Group(field, s, v)|;
    assert forall v :: v in m ==> 1 <= m[v] by {
      forall v | v in m ensures 1 <= m[v] {
        var t :| t in s && field(t).Some? && field(t).value == v;
        assert t in Group(field, s, v);
      }
    }
    m
  }

  // ---------------------------------------------------------------------------
  // Group sizes add up

  /** The rows with a key among `ks` and a numeric amount. */
  function CountedIn<K(==, !new)>(key: Txn -> Option<K>, s: Batch, ks: seq<K>): nat {
    if s == [] then 0
    else
      (if key(s[0]).Some? && key(s[0]).value in ks && NumericAmount(s[0]).Some? then 1 else 0)
      + CountedIn(key, s[1..], ks)
  }

  /** The rows that have a key and a numeric amount: those some group's `count` includes. */
  function KeyedCount<K(==, !new)>(key: Txn -> Option<K>, s: Batch): (n: nat)
    ensures n <= |s|
    ensures (forall t :: t in s ==> key(t).Some? && NumericAmount(t).Some?) ==> n == |s|
  {
    if s == [] then 0
    else
      assert forall t :: t in s[1..] ==> t in s;
      (if key(s[0]).Some? && NumericAmount(s[0]).Some? then 1 else 0) + KeyedCount(key, s[1..])
  }

  /** The `count` of every key in `ks`, added up. */
  function GroupCounts<K(==, !new)>(key: Txn -> Option<K>, s: Batch, ks: seq<K>): nat
    decreases |ks|
  {
    if ks == [] then 0
    else GroupCounts(key, s, ks[..|ks| - 1]) + |AmountValues(Group(key, s, ks[|ks| - 1]))|
  }

  lemma AmountValuesCons(x: Txn, r: Batch)
    ensures AmountValues([x] + r) == (if NumericAmount(x).Some? then [NumericAmount(x).value] else []) + AmountValues(r)
  {
    assert ([x] + r)[0] == x && ([x] + r)[1..] == r;
  }

  /** Adding a key not yet among `ks` adds its group's count. */
  lemma {:induction false} CountedInSnoc<K(!new)>(key: Txn -> Option<K>, s: Batch, ks: seq<K>, k: K)
    requires k !in ks
    ensures CountedIn(key, s, ks + [k]) == CountedIn(key, s, ks) + |AmountValues(Group(key, s, k))|
    decreases |s|
  {
    if s != [] {
      CountedInSnoc(key, s[1..], ks, k);
      var rest := Group(key, s[1..], k);
      if key(s[0]) == Some(k) {
        AmountValuesCons(s[0], rest);
      } else {
        assert Group(key, s, k) == rest;
      }
    }
  }

  lemma {:induction false} GroupCountsSum<K(!new)>(key: Txn -> Option<K>, s: Batch, ks: seq<K>)
    requires forall i, j :: 0 <= i < j < |ks| ==> ks[i] != ks[j]
    ensures GroupCounts(key, s, ks) == CountedIn(key, s, ks)
    decreases |ks|
  {
    if ks == [] {
      CountedInNone(key, s);
    } else {
      var p := ks[..|ks| - 1];
      var k := ks[|ks| - 1];
      assert ks == p + [k];
      GroupCountsSum(key, s, p);
      CountedInSnoc(key, s, p, k);
    }
  }

  lemma {:induction false} CountedInNone<K(!new)>(key: Txn -> Option<K>, s: Batch)
    ensures CountedIn(key, s, []) == 0
  {
    if s != [] {
      CountedInNone(key, s[1..]);
    }
  }

  lemma {:induction false} CountedInAll<K(!new)>(key: Txn -> Option<K>, s: Batch, ks: seq<K>)
    requires forall t :: t in s && key(t).Some? ==> key(t).value in ks
    ensures CountedIn(key, s, ks) == KeyedCount(key, s)
  {
    if s != [] {
      assert forall t :: t in s[1..] ==> t in s;
      CountedInAll(key, s[1..], ks);
    }
  }

  /** Over all groups, the counts add up to the rows that have a key and a numeric amount. */
  lemma GroupCountsTotal<K(!new)>(key: Txn -> Option<K>, s: Batch)
    ensures GroupCounts(key, s, GroupKeys(key, s)) == KeyedCount(key, s)
  {
    var ks := GroupKeys(key, s);
    GroupCountsSum(key, s, ks);
    CountedInAll(key, s, ks);
  }

  /** A rank that tells keys apart, as a key's own fields do. */
  ghost predicate RankInjective<K(!new)>(rank: K -> (string, int)) {
    forall k1, k2 :: rank(k1) == rank(k2) ==> k1 == k2
  }

  /** The distinct keys of `s` in ascending rank: `groupby`'s default `sort=True`. */
  function SortedKeys<K(==, !new)>(key: Txn -> Option<K>, rank: K -> (string, int), s: Batch): (ks: seq<K>)
    ensures forall k :: k in ks <==> exists t :: t in s && key(t) == Some(k)
    ensures multiset(ks) == multiset(GroupKeys(key, s))
  {
    SortByRank(rank, GroupKeys(key, s))
  }

  /**
   * The sorted keys are strictly ascending, hence distinct, and their groups'
   * counts add up to the rows that have a key and a numeric amount.
   */
  lemma SortedKeysFacts<K(!new)>(key: Txn -> Option<K>, rank: K -> (string, int), s: Batch)
    requires RankInjective(rank)
    ensures SortedByRank(rank, SortedKeys(key, rank, s))
    ensures forall i, j :: 0 <= i < j < |SortedKeys(key, rank, s)| ==> SortedKeys(key, rank, s)[i] != SortedKeys(key, rank, s)[j]
    ensures GroupCounts(key, s, SortedKeys(key, rank, s)) == KeyedCount(key, s)
  {
    var gs := GroupKeys(key, s);
    var ks := SortedKeys(key, rank, s);
    SortByRankSorted(rank, gs);
    SortedDistinct(rank, ks);
    GroupCountsSum(key, s, ks);
    CountedInAll(key, s, ks);
  }
}
