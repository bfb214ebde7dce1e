/** Python's `str.strip()` with no argument, as the roster forms use it on
    participant and item names. */
module Text {

  /** Python's `str.isspace()` on one character: the C0 separators and
      formatting controls, the space, NEL, NO-BREAK SPACE and the Unicode
      space separators and line/paragraph separators. */
  predicate IsSpace(c: char) {
    || ('\U{9}' <= c <= '\U{d}')
    || ('\U{1c}' <= c <= '\U{1f}')
    || c == ' '
    || c == '\U{85}'
    || c == '\U{a0}'
    || c == '\U{1680}'
    || ('\U{2000}' <= c <= '\U{200a}')
    || c == '\U{2028}'
    || c == '\U{2029}'
    || c == '\U{202f}'
    || c == '\U{205f}'
    || c == '\U{3000}'
  }

  predicate AllSpace(s: string) {
    forall k :: 0 <= k < |s| ==> IsSpace(s[k])
  }

  /** Drops the leading whitespace: the result is a suffix of `s`, everything
      dropped is whitespace and the result does not start with whitespace. */
  function TrimLeft(s: string): (r: string)
    ensures |r| <= |s| && r == s[|s| - |r|..]
    ensures forall k :: 0 <= k < |s| - |r| ==> IsSpace(s[k])
    ensures r != [] ==> !IsSpace(r[0])
  {
    if s != [] && IsSpace(s[0]) then
      var r := TrimLeft(s[1..]);
      assert s[1..][|s| - 1 - |r|..] == s[|s| - |r|..];
      assert forall k :: 1 <= k < |s| ==> s[k] == s[1..][k - 1];
      r
    else s
  }

  /** Drops the trailing whitespace: the result is a prefix of `s`, everything
      dropped is whitespace and the result does not end with whitespace. */
  function TrimRight(s: string): (r: string)
    ensures |r| <= |s| && r == s[..|r|]
    ensures forall k :: |r| <= k < |s| ==> IsSpace(s[k])
    ensures r != [] ==> !IsSpace(r[|r| - 1])
  {
    if s != [] && IsSpace(s[|s| - 1]) then
      var r := TrimRight(s[..|s| - 1]);
      assert s[..|s| - 1][..|r|] == s[..|r|];
      assert forall k :: 0 <= k < |s| - 1 ==> s[k] == s[..|s| - 1][k];
      r
    else s
  }

  /** `s.strip()`: empty exactly when `s` is all whitespace, and otherwise
      neither starts nor ends with whitespace. */
  function Strip(s: string): (r: string)
    ensures r == [] <==> AllSpace(s)
    ensures r != [] ==> !IsSpace(r[0]) && !IsSpace(r[|r| - 1])
    ensures |r| <= |s|
  {
    var t := TrimLeft(s);
    assert forall k :: |s| - |t| <= k < |s| ==> s[k] == t[k - (|s| - |t|)];
    TrimRight(t)
  }

  /** The whitespace-free core of `s` is unique: whatever slice `s[lo..hi]`
      has only whitespace around it and non-whitespace at both of its ends
      is the slice `Strip` returns. */
  lemma {:induction false} StripIsCore(s: string, lo: nat, hi: nat)
    requires lo <= hi <= |s|
    requires forall k :: 0 <= k < lo ==> IsSpace(s[k])
    requires forall k :: hi <= k < |s| ==> IsSpace(s[k])
    requires lo < hi ==> !IsSpace(s[lo]) && !IsSpace(s[hi - 1])
    ensures Strip(s) == s[lo..hi]
  {
    var t := TrimLeft(s);
    if lo == hi {
      assert AllSpace(s) by {
        forall k | 0 <= k < |s| ensures IsSpace(s[k]) {
          if k < lo {} else {}
        }
      }
    } else {
      TrimLeftExact(s, lo);
      TrimRightExact(s, lo, hi);
    }
  }

  /** Leading whitespace up to a non-whitespace character at `lo` (or the
      end) is exactly what `TrimLeft` drops. */
  lemma {:induction false} TrimLeftExact(s: string, lo: nat)
    requires lo <= |s|
    requires forall k :: 0 <= k < lo ==> IsSpace(s[k])
    requires lo < |s| ==> !IsSpace(s[lo])
    ensures TrimLeft(s) == s[lo..]
  {
    if lo > 0 {
      TrimLeftExact(s[1..], lo - 1);
      assert s[1..][lo - 1..] == s[lo..];
    }
  }

  /** Trailing whitespace down to a non-whitespace character at `hi - 1` is
      exactly what `TrimRight` drops from the suffix starting at `lo`. */
  lemma {:induction false} TrimRightExact(s: string, lo: nat, hi: nat)
    requires lo < hi <= |s|
    requires forall k :: hi <= k < |s| ==> IsSpace(s[k])
    requires !IsSpace(s[hi - 1])
    ensures TrimRight(s[lo..]) == s[lo..hi]
  {
    if hi < |s| {
      TrimRightExact(s[..|s| - 1], lo, hi);
      assert s[lo..][..|s| - 1 - lo] == s[..|s| - 1][lo..];
    }
  }

  /** Stripping twice is stripping once: a stored stripped name is its own
      `strip()`. */
  lemma StripIdempotent(s: string)
    ensures Strip(Strip(s)) == Strip(s)
  {
    var r := Strip(s);
    StripIsCore(r, 0, |r|);
  }
}
