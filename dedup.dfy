/**
 * `detect_duplicates`: rows whose values in the available columns among
 * bank_id, customer_id, amount and transaction_date repeat an earlier row's
 * are dropped, the first occurrence kept (`duplicated(keep='first')`).  Null
 * cells compare equal to each other, as they do in `duplicated`.
 */
module Dedup {
  import opened Wrappers
  import opened Rows
  import opened ProcessorConfig

  /** The values of the duplicate-criteria columns; an absent column contributes nothing (`None`). */
  datatype DupKey = DupKey(
    bankId: Option<string>,
    customerId: Option<string>,
    amount: Option<AmountCell>,
    transactionDate: Option<DateCell>)

  function KeyOf(cols: set<Column>, t: Txn): DupKey {
    DupKey(
      if BankId in cols then t.bankId else None,
      if CustomerId in cols then t.customerId else None,
      if Amount in cols then t.amount else None,
      if TransactionDate in cols then t.transactionDate else None)
  }

  /** The keys occurring in `s`. */
  function KeysOf(cols: set<Column>, s: Batch): set<DupKey> {
    set t | t in s :: KeyOf(cols, t)
  }

  lemma KeysOfSnoc(cols: set<Column>, p: Batch, x: Txn)
    ensures KeysOf(cols, p + [x]) == KeysOf(cols, p) + {KeyOf(cols, x)}
  {
    assert forall t :: t in p + [x] <==> t in p || t == x;
  }

  /** No two rows of `s` share a key. */
  ghost predicate NoRepeatedKeys(cols: set<Column>, s: Batch) {
    forall j, k :: 0 <= j < k < |s| ==> KeyOf(cols, s[j]) != KeyOf(cols, s[k])
  }

  /** Row `k` repeats the key of an earlier row: `duplicated(keep='first')` is true for it. */
  predicate IsDuplicate(cols: set<Column>, s: Batch, k: nat)
    requires k < |s|
  {
    KeyOf(cols, s[k]) in KeysOf(cols, s[..k])
  }

  /** `df[~df.duplicated(subset, keep='first')]`. */
  function KeepFirst(cols: set<Column>, s: Batch): (r: Batch)
    ensures |r| <= |s|
    ensures forall t :: t in r ==> t in s
    ensures KeysOf(cols, r) == KeysOf(cols, s)
    ensures NoRepeatedKeys(cols, r)
    decreases |s|
  {
    if s == [] then []
    else
      var p := s[..|s| - 1];
      var x := s[|s| - 1];
      assert s == p + [x];
      var rp := KeepFirst(cols, p);
      KeysOfSnoc(cols, p, x);
      if KeyOf(cols, x) in KeysOf(cols, p) then rp
      else
        KeysOfSnoc(cols, rp, x);
        assert forall j :: 0 <= j < |rp| ==> rp[j] in rp;
        rp + [x]
  }

  /** The number of rows marked by `duplicated(keep='first')`. */
  function DuplicateCount(cols: set<Column>, s: Batch): (n: nat)
    ensures n + |KeepFirst(cols, s)| == |s|
    decreases |s|
  {
    if s == [] then 0
    else
      var p := s[..|s| - 1];
      KeysOfSnoc(cols, p, s[|s| - 1]);
      DuplicateCount(cols, p) + if KeyOf(cols, s[|s| - 1]) in KeysOf(cols, p) then 1 else 0
  }

  /** Keeping first occurrences of `p + [x]`: those of `p`, then `x` unless its key occurs in `p`. */
  lemma KeepFirstSnoc(cols: set<Column>, p: Batch, x: Txn)
    ensures KeepFirst(cols, p + [x]) == KeepFirst(cols, p) + if KeyOf(cols, x) in KeysOf(cols, p) then [] else [x]
  {
    var s := p + [x];
    assert s[..|s| - 1] == p && s[|s| - 1] == x;
  }

  /** On a frame with increasing labels, keeping first occurrences keeps the labels increasing. */
  lemma {:induction false} KeepFirstIncreasing(cols: set<Column>, s: Batch)
    requires Increasing(s)
    ensures Increasing(KeepFirst(cols, s))
    decreases |s|
  {
    if s != [] {
      var p := s[..|s| - 1];
      var x := s[|s| - 1];
      assert s == p + [x];
      KeepFirstIncreasing(cols, p);
      KeepFirstSnoc(cols, p, x);
      var rp := KeepFirst(cols, p);
      forall t | t in rp ensures t.rowIndex < x.rowIndex {
        var j :| 0 <= j < |p| && p[j] == t;
        assert s[j] == t;
      }
      if KeyOf(cols, x) !in KeysOf(cols, p) {
        IncreasingSnoc(rp, x);
      }
    }
  }

  /** On a frame with increasing labels, an input row is kept exactly when it is not a duplicate of an earlier one. */
  lemma {:induction false} KeepFirstMembers(cols: set<Column>, s: Batch)
    requires Increasing(s)
    ensures forall k :: 0 <= k < |s| ==> (s[k] in KeepFirst(cols, s) <==> !IsDuplicate(cols, s, k))
    decreases |s|
  {
    if s != [] {
      var p := s[..|s| - 1];
      var x := s[|s| - 1];
      assert s == p + [x];
      KeepFirstMembers(cols, p);
      forall k | 0 <= k < |s| ensures s[k] in KeepFirst(cols, s) <==> !IsDuplicate(cols, s, k) {
        if k < |p| {
          KeepFirstMemberEarlier(cols, p, x, k);
        } else {
          KeepFirstMemberLast(cols, p, x);
        }
      }
    }
  }

  lemma KeepFirstMemberEarlier(cols: set<Column>, p: Batch, x: Txn, k: nat)
    requires Increasing(p + [x]) && k < |p|
    requires p[k] in KeepFirst(cols, p) <==> !IsDuplicate(cols, p, k)
    ensures (p + [x])[k] in KeepFirst(cols, p + [x]) <==> !IsDuplicate(cols, p + [x], k)
  {
    var s := p + [x];
    KeepFirstSnoc(cols, p, x);
    assert s[k] == p[k] && s[..k] == p[..k];
    assert s[k].rowIndex < s[|p|].rowIndex;
  }

  lemma KeepFirstMemberLast(cols: set<Column>, p: Batch, x: Txn)
    requires Increasing(p + [x])
    ensures x in KeepFirst(cols, p + [x]) <==> !IsDuplicate(cols, p + [x], |p|)
  {
    var s := p + [x];
    KeepFirstSnoc(cols, p, x);
    var rp := KeepFirst(cols, p);
    forall t | t in rp ensures t != x {
      var j :| 0 <= j < |p| && p[j] == t;
      assert s[j] == t && s[|p|] == x;
    }
    assert s[..|p|] == p;
  }

  /** A frame without repeated keys is returned unchanged, so keeping first occurrences is idempotent. */
  lemma {:induction false} KeepFirstOfUnique(cols: set<Column>, s: Batch)
    requires NoRepeatedKeys(cols, s)
    ensures KeepFirst(cols, s) == s
    decreases |s|
  {
    if s != [] {
      var p := s[..|s| - 1];
      var x := s[|s| - 1];
      assert s == p + [x];
      KeepFirstOfUnique(cols, p);
      assert KeyOf(cols, x) !in KeysOf(cols, p);
    }
  }

  lemma KeepFirstIdempotent(cols: set<Column>, s: Batch)
    ensures KeepFirst(cols, KeepFirst(cols, s)) == KeepFirst(cols, s)
  {
    KeepFirstOfUnique(cols, KeepFirst(cols, s));
  }

  /** A frame without repeated keys has as many rows as keys. */
  lemma {:induction false} UniqueKeysCount(cols: set<Column>, s: Batch)
    requires NoRepeatedKeys(cols, s)
    ensures |KeysOf(cols, s)| == |s|
    decreases |s|
  {
    if s != [] {
      var p := s[..|s| - 1];
      var x := s[|s| - 1];
      assert s == p + [x];
      UniqueKeysCount(cols, p);
      KeysOfSnoc(cols, p, x);
      assert KeyOf(cols, x) !in KeysOf(cols, p);
    }
  }

  /** Deduplication leaves one row per distinct key. */
  lemma KeepFirstSize(cols: set<Column>, s: Batch)
    ensures |KeepFirst(cols, s)| == |KeysOf(cols, s)|
  {
    UniqueKeysCount(cols, KeepFirst(cols, s));
  }

  /** `detect_duplicates`. */
  function DetectDuplicates(cfg: Config, f: Frame): (r: Frame)
    ensures r.columns == f.columns
    ensures !cfg.removeDuplicates ==> r == f
    ensures cfg.removeDuplicates ==> NoRepeatedKeys(f.columns, r.rows)
    ensures cfg.removeDuplicates ==> KeysOf(f.columns, r.rows) == KeysOf(f.columns, f.rows)
    ensures cfg.removeDuplicates ==> |r.rows| + DuplicateCount(f.columns, f.rows) == |f.rows|
    ensures forall t :: t in r.rows ==> t in f.rows
  {
    if !cfg.removeDuplicates then f
    else Frame(f.columns, KeepFirst(f.columns, f.rows))
  }

  /** Deduplication keeps labels increasing and keeps exactly the first occurrence of each key. */
  lemma DetectDuplicatesAt(cfg: Config, f: Frame)
    requires Increasing(f.rows)
    ensures Increasing(DetectDuplicates(cfg, f).rows)
    ensures forall k :: 0 <= k < |f.rows| ==>
      (f.rows[k] in DetectDuplicates(cfg, f).rows <==> !cfg.removeDuplicates || !IsDuplicate(f.columns, f.rows, k))
  {
    KeepFirstIncreasing(f.columns, f.rows);
    KeepFirstMembers(f.columns, f.rows);
  }
}
