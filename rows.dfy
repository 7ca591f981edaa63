/**
 * The transaction frame shared by both pipelines: a set of columns and a
 * sequence of rows.  Every row keeps the index label it had in the frame it
 * was read into; row filters keep labels, so what a stage does to a frame is
 * stated label by label (`RowAt`), and "order preserved" is "labels still
 * increasing".
 */
module Rows {
  import opened Wrappers

  /** The columns a transaction frame can have. */
  datatype Column =
    | TransactionId | BankId | CustomerId | Amount | TransactionDate
    | TransactionType | Description | CreatedAt
    | Extra(name: string)

  /** An amount cell: a number, or text that numeric coercion turns into NaN. */
  datatype AmountCell = Num(v: real) | AmountText(text: string)

  /** A date cell: a timestamp in seconds, or text that date parsing rejects. */
  datatype DateCell = Stamp(seconds: int) | DateText(text: string)

  /** One transaction row; `None` is a null cell (NaN, None or NaT). */
  datatype Txn = Txn(
    rowIndex: nat,
    transactionId: Option<string>,
    bankId: Option<string>,
    customerId: Option<string>,
    amount: Option<AmountCell>,
    transactionDate: Option<DateCell>,
    transactionType: Option<string>,
    description: Option<string>,
    createdAt: Option<DateCell>)

  type Batch = seq<Txn>

  datatype Frame = Frame(columns: set<Column>, rows: Batch)

  /** Labels strictly increase along the frame (a fresh or read-in frame has 0, 1, 2, ...). */
  ghost predicate Increasing(s: Batch) {
    forall j, k :: 0 <= j < k < |s| ==> s[j].rowIndex < s[k].rowIndex
  }

  /** Seconds in a day; a timestamp's calendar day is `seconds / SecondsPerDay`. */
  const SecondsPerDay: int := 86400

  function Day(seconds: int): int {
    seconds / SecondsPerDay
  }

  /** The numeric value of an amount cell, `None` for a null or non-numeric cell (`pd.to_numeric(errors='coerce')`). */
  function NumericAmount(t: Txn): Option<real> {
    if t.amount.Some? && t.amount.value.Num? then Some(t.amount.value.v) else None
  }

  /** The parsed timestamp of a date cell, `None` for NaT (`pd.to_datetime(errors='coerce')`). */
  function ParsedStamp(c: Option<DateCell>): Option<int> {
    if c.Some? && c.value.Stamp? then Some(c.value.seconds) else None
  }

  // ---------------------------------------------------------------------------
  // Lookup by label

  /** The first row carrying label `i`. */
  function RowAt(s: Batch, i: nat): (r: Option<Txn>)
    ensures r.Some? ==> r.value in s && r.value.rowIndex == i
    ensures r.None? <==> forall k :: 0 <= k < |s| ==> s[k].rowIndex != i
  {
    if s == [] then None
    else if s[0].rowIndex == i then Some(s[0])
    else
      var rest := RowAt(s[1..], i);
      assert forall k :: 1 <= k < |s| ==> s[k] == s[1..][k - 1];
      rest
  }

  lemma {:induction false} RowAtIndex(s: Batch, k: nat)
    requires Increasing(s) && k < |s|
    ensures RowAt(s, s[k].rowIndex) == Some(s[k])
  {
    if k > 0 {
      assert s[0].rowIndex < s[k].rowIndex;
      assert s[1..][k - 1] == s[k];
      RowAtIndex(s[1..], k - 1);
    }
  }

  /** In a frame with increasing labels, a row is present exactly when its label finds it. */
  lemma RowAtMember(s: Batch, t: Txn)
    requires Increasing(s)
    ensures t in s <==> RowAt(s, t.rowIndex) == Some(t)
  {
    if t in s {
      var k :| 0 <= k < |s| && s[k] == t;
      RowAtIndex(s, k);
    }
  }

  /** Rows of an increasing frame are pairwise distinct. */
  lemma IncreasingDistinct(s: Batch)
    requires Increasing(s)
    ensures forall j, k :: 0 <= j < k < |s| ==> s[j] != s[k]
  {
  }

  // ---------------------------------------------------------------------------
  // Row filters and row maps

  /** The rows that satisfy `keep`, in order (boolean indexing / `dropna`). */
  function FilterRows(keep: Txn -> bool, s: Batch): (r: Batch)
    ensures |r| <= |s|
    ensures forall t :: t in r <==> t in s && keep(t)
  {
    if s == [] then []
    else
      var rest := FilterRows(keep, s[1..]);
      assert forall t :: t in s <==> t == s[0] || t in s[1..];
      (if keep(s[0]) then [s[0]] else []) + rest
  }

  /** `keep` applied to an optional row. */
  function Kept(keep: Txn -> bool, o: Option<Txn>): Option<Txn> {
    if o.Some? && keep(o.value) then o else None
  }

  /** The tail of an increasing frame is increasing, and every label in it is above the head's. */
  lemma IncreasingTail(s: Batch)
    requires Increasing(s) && s != []
    ensures Increasing(s[1..])
    ensures forall t :: t in s[1..] ==> s[0].rowIndex < t.rowIndex
  {
    var rest := s[1..];
    forall j, k | 0 <= j < k < |rest| ensures rest[j].rowIndex < rest[k].rowIndex {
      assert rest[j] == s[j + 1] && rest[k] == s[k + 1];
    }
    forall t | t in rest ensures s[0].rowIndex < t.rowIndex {
      var k :| 0 <= k < |rest| && rest[k] == t;
      assert s[k + 1] == t;
    }
  }

  /** A filter keeps labels increasing. */
  lemma {:induction false} FilterRowsIncreasing(keep: Txn -> bool, s: Batch)
    requires Increasing(s)
    ensures Increasing(FilterRows(keep, s))
  {
    if s != [] {
      IncreasingTail(s);
      FilterRowsIncreasing(keep, s[1..]);
      var fr := FilterRows(keep, s[1..]);
      var r := FilterRows(keep, s);
      if keep(s[0]) {
        assert r == [s[0]] + fr;
        IncreasingCons(s[0], fr);
      } else {
        assert r == fr;
      }
    }
  }

  /** A row labelled below every row of an increasing frame can go in front of it. */
  lemma IncreasingCons(x: Txn, r: Batch)
    requires Increasing(r) && forall t :: t in r ==> x.rowIndex < t.rowIndex
    ensures Increasing([x] + r)
  {
    var c := [x] + r;
    forall j, k | 0 <= j < k < |c| ensures c[j].rowIndex < c[k].rowIndex {
      assert c[k] == r[k - 1];
      if j == 0 {
        assert r[k - 1] in r;
      } else {
        assert c[j] == r[j - 1];
      }
    }
  }

  /** A row labelled above every row of an increasing frame can go after it. */
  lemma IncreasingSnoc(r: Batch, x: Txn)
    requires Increasing(r) && forall t :: t in r ==> t.rowIndex < x.rowIndex
    ensures Increasing(r + [x])
  {
    var c := r + [x];
    forall j, k | 0 <= j < k < |c| ensures c[j].rowIndex < c[k].rowIndex {
      assert c[j] == r[j];
      if k == |r| {
        assert r[j] in r;
      } else {
        assert c[k] == r[k];
      }
    }
  }

  /** The row labelled `i` survives a filter exactly when it satisfies it. */
  lemma {:induction false} FilterRowsAtLabel(keep: Txn -> bool, s: Batch, i: nat)
    requires Increasing(s)
    ensures RowAt(FilterRows(keep, s), i) == Kept(keep, RowAt(s, i))
  {
    if s != [] {
      IncreasingTail(s);
      FilterRowsAtLabel(keep, s[1..], i);
      var fr := FilterRows(keep, s[1..]);
      var r := FilterRows(keep, s);
      assert r == (if keep(s[0]) then [s[0]] else []) + fr;
      if i == s[0].rowIndex {
        if !keep(s[0]) {
          assert RowAt(s[1..], i) == None by {
            forall k | 0 <= k < |s[1..]| ensures s[1..][k].rowIndex != i {
              assert s[1..][k] in s[1..];
            }
          }
        }
      } else if keep(s[0]) {
        assert r[1..] == fr;
      }
    }
  }

  lemma FilterRowsAt(keep: Txn -> bool, s: Batch)
    ensures Increasing(s) ==> Increasing(FilterRows(keep, s))
    ensures Increasing(s) ==> forall i: nat :: RowAt(FilterRows(keep, s), i) == Kept(keep, RowAt(s, i))
  {
    if Increasing(s) {
      FilterRowsIncreasing(keep, s);
      forall i: nat ensures RowAt(FilterRows(keep, s), i) == Kept(keep, RowAt(s, i)) {
        FilterRowsAtLabel(keep, s, i);
      }
    }
  }

  /** `f` applied to every row (column assignment). */
  function MapRows(f: Txn -> Txn, s: Batch): (r: Batch)
    ensures |r| == |s|
    ensures forall k :: 0 <= k < |s| ==> r[k] == f(s[k])
  {
    seq(|s|, k requires 0 <= k < |s| => f(s[k]))
  }

  /** `f` applied to an optional row. */
  function Mapped(f: Txn -> Txn, o: Option<Txn>): Option<Txn> {
    if o.Some? then Some(f(o.value)) else None
  }

  /** A row map that never changes a label. */
  ghost predicate KeepsLabels(f: Txn -> Txn) {
    forall t :: f(t).rowIndex == t.rowIndex
  }

  lemma MapRowsAt(f: Txn -> Txn, s: Batch)
    requires KeepsLabels(f)
    ensures Increasing(s) ==> Increasing(MapRows(f, s))
    ensures Increasing(s) ==> forall i: nat :: RowAt(MapRows(f, s), i) == Mapped(f, RowAt(s, i))
  {
    if Increasing(s) {
      MapRowsAtIncreasing(f, s);
    }
  }

  lemma MapRowsAtIncreasing(f: Txn -> Txn, s: Batch)
    requires KeepsLabels(f) && Increasing(s)
    ensures Increasing(MapRows(f, s))
    ensures forall i: nat :: RowAt(MapRows(f, s), i) == Mapped(f, RowAt(s, i))
  {
    var r := MapRows(f, s);
    assert forall k :: 0 <= k < |s| ==> r[k].rowIndex == s[k].rowIndex;
    forall i: nat ensures RowAt(r, i) == Mapped(f, RowAt(s, i)) {
      if RowAt(s, i).Some? {
        var k :| 0 <= k < |s| && s[k] == RowAt(s, i).value;
        RowAtIndex(s, k);
        RowAtIndex(r, k);
      }
    }
  }

  /** The rows of `s` that satisfy `p`, counted. */
  function CountRows(p: Txn -> bool, s: Batch): (n: nat)
    ensures n <= |s|
  {
    |FilterRows(p, s)|
  }

  /** Every row is either kept or dropped by a filter: the two counts add up to the frame size. */
  lemma {:induction false} FilterSplit(p: Txn -> bool, s: Batch)
    ensures |FilterRows(p, s)| + |FilterRows(t => !p(t), s)| == |s|
  {
    if s != [] {
      FilterSplit(p, s[1..]);
    }
  }

  /** Filters that agree on every row of `s` select the same rows. */
  lemma {:induction false} FilterRowsExt(p: Txn -> bool, q: Txn -> bool, s: Batch)
    requires forall t :: t in s ==> p(t) == q(t)
    ensures FilterRows(p, s) == FilterRows(q, s)
  {
    if s != [] {
      assert forall t :: t in s[1..] ==> t in s;
      FilterRowsExt(p, q, s[1..]);
    }
  }

  /** Filtering twice is filtering once by both conditions: the same rows, in the same order. */
  lemma {:induction false} FilterRowsFuse(p: Txn -> bool, q: Txn -> bool, both: Txn -> bool, s: Batch)
    requires forall t :: both(t) == (p(t) && q(t))
    ensures FilterRows(q, FilterRows(p, s)) == FilterRows(both, s)
  {
    if s != [] {
      FilterRowsFuse(p, q, both, s[1..]);
      var rest := FilterRows(p, s[1..]);
      var x := FilterRows(p, s);
      if p(s[0]) {
        assert x[0] == s[0] && x[1..] == rest;
      } else {
        assert x == rest;
        assert FilterRows(both, s) == FilterRows(both, s[1..]);
      }
    }
  }
}
