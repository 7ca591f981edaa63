/** String handling used when identifier columns are validated: `astype(str).str.strip()`. */
module Text {
  import opened Wrappers

  /** The ASCII characters Python's `str.strip()` removes: the six whitespace characters and the four separators 0x1C to 0x1F. */
  predicate IsSpace(c: char) {
    || c == ' ' || c == '\t' || c == '\n' || c == '\r' || c == '\U{B}' || c == '\U{C}'
    || c == '\U{1C}' || c == '\U{1D}' || c == '\U{1E}' || c == '\U{1F}'
  }

  function TrimLeft(s: string): (r: string)
    ensures |r| <= |s|
    ensures r == s[|s| - |r|..]
    ensures r != [] ==> !IsSpace(r[0])
    ensures forall k :: 0 <= k < |s| - |r| ==> IsSpace(s[k])
  {
    if s != [] && IsSpace(s[0]) then
      var r := TrimLeft(s[1..]);
      assert forall k :: 1 <= k < |s| ==> s[k] == s[1..][k - 1];
      r
    else s
  }

  function TrimRight(s: string): (r: string)
    ensures |r| <= |s|
    ensures r == s[..|r|]
    ensures r != [] ==> !IsSpace(r[|r| - 1])
    ensures forall k :: |r| <= k < |s| ==> IsSpace(s[k])
  {
    if s != [] && IsSpace(s[|s| - 1]) then
      var r := TrimRight(s[..|s| - 1]);
      assert forall k :: 0 <= k < |s| - 1 ==> s[k] == s[..|s| - 1][k];
      r
    else s
  }

  /** `str.strip()`: the string without leading and trailing whitespace. */
  function Strip(s: string): (r: string)
  {
    TrimRight(TrimLeft(s))
  }

  /** `r` occurs in `s` starting at offset `i`. */
  predicate PieceAt(s: string, i: int, r: string) {
    0 <= i <= |s| - |r| && r == s[i..i + |r|]
  }

  /** The stripped string is a contiguous piece of the original with no whitespace at either end. */
  lemma StripShape(s: string)
    ensures var r := Strip(s);
      && (r != [] ==> !IsSpace(r[0]) && !IsSpace(r[|r| - 1]))
      && exists i :: PieceAt(s, i, r)
  {
    var l := TrimLeft(s);
    StripPieces(s, l, Strip(s));
    assert PieceAt(s, |s| - |l|, Strip(s));
  }

  /** A suffix without leading whitespace, cut to a prefix without trailing whitespace. */
  lemma StripPieces(s: string, l: string, r: string)
    requires |l| <= |s| && l == s[|s| - |l|..] && (l != [] ==> !IsSpace(l[0]))
    requires |r| <= |l| && r == l[..|r|] && (r != [] ==> !IsSpace(r[|r| - 1]))
    ensures r != [] ==> !IsSpace(r[0]) && !IsSpace(r[|r| - 1])
    ensures var i := |s| - |l|; i + |r| <= |s| && r == s[i..i + |r|]
  {
    assert |r| > 0 ==> r[0] == l[0];
  }

  /** A string strips to the empty string exactly when it is all whitespace. */
  lemma StripEmptyIff(s: string)
    ensures Strip(s) == "" <==> forall k :: 0 <= k < |s| ==> IsSpace(s[k])
  {
    var l := TrimLeft(s);
    var i := |s| - |l|;
    assert |l| > 0 ==> l[0] == s[i];
    assert forall k :: i <= k < |s| ==> s[k] == l[k - i];
  }

  /** A string with no whitespace at either end strips to itself. */
  lemma StripOfTrimmed(s: string)
    requires s != [] && !IsSpace(s[0]) && !IsSpace(s[|s| - 1])
    ensures Strip(s) == s
  {
    assert TrimLeft(s) == s;
  }

  /** Stripping twice is stripping once. */
  lemma StripIdempotent(s: string)
    ensures Strip(Strip(s)) == Strip(s)
  {
    var r := Strip(s);
    if r != [] {
      StripShape(s);
      assert TrimLeft(r) == r;
      assert TrimRight(r) == r;
    }
  }

  /** `astype(str)` on an object cell: a null cell becomes the text "nan". */
  function AsStr(c: Option<string>): string {
    if c.Some? then c.value else "nan"
  }
}
