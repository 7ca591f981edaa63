/**
 * The order `groupby` emits its groups in (the default `sort=True`): keys
 * are (bank_id, date) tuples, compared as Python compares tuples, the string
 * first by code points, and sorted ascending.
 */
module Ordering {
  /** Python's `<` on strings: lexicographic by code point, a proper prefix first. */
  predicate StrLess(a: string, b: string)
    decreases |a|
  {
    if a == [] then b != []
    else if b == [] then false
    else a[0] < b[0] || (a[0] == b[0] && StrLess(a[1..], b[1..]))
  }

  lemma {:induction false} StrLessIrreflexive(a: string)
    ensures !StrLess(a, a)
    decreases |a|
  {
    if a != [] {
      StrLessIrreflexive(a[1..]);
    }
  }

  lemma {:induction false} StrLessTrans(a: string, b: string, c: string)
    requires StrLess(a, b) && StrLess(b, c)
    ensures StrLess(a, c)
    decreases |a|
  {
    if a != [] && a[0] == b[0] && b[0] == c[0] {
      StrLessTrans(a[1..], b[1..], c[1..]);
    }
  }

  /** Two different strings are ordered one way or the other. */
  lemma {:induction false} StrLessTotal(a: string, b: string)
    ensures a == b || StrLess(a, b) || StrLess(b, a)
    decreases |a|
  {
    if a != [] && b != [] && a[0] == b[0] {
      StrLessTotal(a[1..], b[1..]);
      assert a == [a[0]] + a[1..] && b == [b[0]] + b[1..];
    }
  }

  /** Python's `<` on a (string, int) tuple. */
  predicate PairLess(p: (string, int), q: (string, int)) {
    StrLess(p.0, q.0) || (p.0 == q.0 && p.1 < q.1)
  }

  lemma PairLessIrreflexive(p: (string, int))
    ensures !PairLess(p, p)
  {
    StrLessIrreflexive(p.0);
  }

  lemma PairLessTrans(p: (string, int), q: (string, int), r: (string, int))
    requires PairLess(p, q) && PairLess(q, r)
    ensures PairLess(p, r)
  {
    if StrLess(p.0, q.0) && StrLess(q.0, r.0) {
      StrLessTrans(p.0, q.0, r.0);
    }
  }

  lemma PairLessTotal(p: (string, int), q: (string, int))
    ensures p == q || PairLess(p, q) || PairLess(q, p)
  {
    StrLessTotal(p.0, q.0);
  }

  /** Each key strictly below the next by rank. */
  ghost predicate SortedByRank<K>(rank: K -> (string, int), s: seq<K>) {
    forall i, j :: 0 <= i < j < |s| ==> PairLess(rank(s[i]), rank(s[j]))
  }

  /** No two keys share a rank. */
  ghost predicate DistinctRanks<K>(rank: K -> (string, int), s: seq<K>) {
    forall i, j :: 0 <= i < j < |s| ==> rank(s[i]) != rank(s[j])
  }

  /** `x` placed before the first key of `s` that ranks above it. */
  function Insert<K(==)>(rank: K -> (string, int), x: K, s: seq<K>): (r: seq<K>)
    ensures multiset(r) == multiset(s) + multiset{x}
  {
    if s == [] then [x]
    else if PairLess(rank(x), rank(s[0])) then [x] + s
    else
      assert s == [s[0]] + s[1..];
      [s[0]] + Insert(rank, x, s[1..])
  }

  /** The keys in ascending rank (an insertion sort). */
  function SortByRank<K(==,!new)>(rank: K -> (string, int), s: seq<K>): (r: seq<K>)
    ensures multiset(r) == multiset(s)
    ensures |r| == |s|
    ensures forall k :: k in r <==> k in s
  {
    if s == [] then []
    else
      assert s == [s[0]] + s[1..];
      var r := Insert(rank, s[0], SortByRank(rank, s[1..]));
      assert |multiset(r)| == |multiset(s)|;
      assert forall k :: k in r <==> k in multiset(r);
      r
  }

  /** Inserting a key of a new rank into a sorted sequence keeps it sorted. */
  lemma {:induction false} InsertSorted<K>(rank: K -> (string, int), x: K, s: seq<K>)
    requires SortedByRank(rank, s)
    requires forall y :: y in s ==> rank(y) != rank(x)
    ensures SortedByRank(rank, Insert(rank, x, s))
    decreases |s|
  {
    if s != [] {
      if PairLess(rank(x), rank(s[0])) {
        var r := [x] + s;
        forall i, j | 0 <= i < j < |r|
          ensures PairLess(rank(r[i]), rank(r[j]))
        {
          if i == 0 && j > 1 {
            PairLessTrans(rank(x), rank(s[0]), rank(s[j - 1]));
          }
        }
      } else {
        PairLessTotal(rank(x), rank(s[0]));
        var t := s[1..];
        assert SortedByRank(rank, t) by {
          forall i, j | 0 <= i < j < |t| ensures PairLess(rank(t[i]), rank(t[j])) {
            assert t[i] == s[i + 1] && t[j] == s[j + 1];
          }
        }
        InsertSorted(rank, x, t);
        var u := Insert(rank, x, t);
        forall y | y in u
          ensures PairLess(rank(s[0]), rank(y))
        {
          assert y in multiset(u);
          if y != x {
            assert y in multiset(t);
            var j :| 0 <= j < |t| && t[j] == y;
            assert s[j + 1] == y;
          }
        }
        var r := [s[0]] + u;
        forall i, j | 0 <= i < j < |r|
          ensures PairLess(rank(r[i]), rank(r[j]))
        {
          if i == 0 {
            assert r[j] in u;
          } else {
            assert r[i] == u[i - 1] && r[j] == u[j - 1];
          }
        }
      }
    }
  }

  /** Keys of distinct ranks come out strictly ascending. */
  lemma {:induction false} SortByRankSorted<K(!new)>(rank: K -> (string, int), s: seq<K>)
    requires DistinctRanks(rank, s)
    ensures SortedByRank(rank, SortByRank(rank, s))
    decreases |s|
  {
    if s != [] {
      var t := s[1..];
      assert DistinctRanks(rank, t) by {
        forall i, j | 0 <= i < j < |t| ensures rank(t[i]) != rank(t[j]) {
          assert t[i] == s[i + 1] && t[j] == s[j + 1];
        }
      }
      SortByRankSorted(rank, t);
      var u := SortByRank(rank, t);
      forall y | y in u
        ensures rank(y) != rank(s[0])
      {
        var j :| 0 <= j < |t| && t[j] == y;
        assert s[j + 1] == y;
      }
      InsertSorted(rank, s[0], u);
    }
  }

  /** Strictly ascending keys are distinct. */
  lemma SortedDistinct<K>(rank: K -> (string, int), s: seq<K>)
    requires SortedByRank(rank, s)
    ensures forall i, j :: 0 <= i < j < |s| ==> s[i] != s[j]
  {
    forall i, j | 0 <= i < j < |s|
      ensures s[i] != s[j]
    {
      PairLessIrreflexive(rank(s[i]));
    }
  }
}
