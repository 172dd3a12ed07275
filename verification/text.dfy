/**
 Character classes and the two string clean-ups the row parser applies:
 Python's `str.strip()` (whitespace trimming) and the guarded `s[1:-1]`
 that removes one pair of wrapping double quotes.
 */
module Text {

  /** Python's `str.isspace()`: the ASCII control whitespace, the separators
      U+001C..U+001F, and the Unicode space and line/paragraph separators. */
  predicate IsSpace(c: char) {
    || ('\t' <= c <= '\r')
    || ('\U{1C}' <= c <= '\U{1F}')
    || c == ' '
    || c == '\U{85}'
    || c == '\U{A0}'
    || c == '\U{1680}'
    || ('\U{2000}' <= c <= '\U{200A}')
    || c == '\U{2028}'
    || c == '\U{2029}'
    || c == '\U{202F}'
    || c == '\U{205F}'
    || c == '\U{3000}'
  }

  predicate AllSpace(s: string) {
    forall k :: 0 <= k < |s| ==> IsSpace(s[k])
  }

  /** Neither end of `s` is whitespace. */
  predicate IsStripped(s: string) {
    |s| == 0 || (!IsSpace(s[0]) && !IsSpace(s[|s| - 1]))
  }

  /** Length of the longest all-whitespace prefix. */
  function LeadingSpaces(s: string): (n: nat)
    ensures n <= |s|
    ensures forall k :: 0 <= k < n ==> IsSpace(s[k])
    ensures n < |s| ==> !IsSpace(s[n])
  {
    if |s| == 0 || !IsSpace(s[0]) then 0 else 1 + LeadingSpaces(s[1..])
  }

  /** Length of the longest all-whitespace suffix. */
  function TrailingSpaces(s: string): (n: nat)
    ensures n <= |s|
    ensures forall k :: |s| - n <= k < |s| ==> IsSpace(s[k])
    ensures n < |s| ==> !IsSpace(s[|s| - n - 1])
  {
    if |s| == 0 || !IsSpace(s[|s| - 1]) then 0 else 1 + TrailingSpaces(s[..|s| - 1])
  }

  /** Python's `s.strip()`: `s` with its whitespace margins removed. The
      result is stripped, and `s` is the result padded on each side by
      whitespace only. */
  function Strip(s: string): (r: string)
    ensures IsStripped(r)
    ensures exists i :: 0 <= i <= |s| - |r| && s[i..i + |r|] == r && AllSpace(s[..i]) && AllSpace(s[i + |r|..])
  {
    var lo := LeadingSpaces(s);
    var t := TrailingSpaces(s);
    var hi := if lo == |s| then lo else |s| - t;
    StripMargins(s, lo, t, hi);
    s[lo..hi]
  }

  /** The cut points of `Strip`, from the margin lengths alone: whitespace
      before `lo` and from `hi` on, and no whitespace at either end of what
      lies between. */
  lemma StripMargins(s: string, lo: nat, t: nat, hi: nat)
    requires lo <= |s| && (forall k :: 0 <= k < lo ==> IsSpace(s[k])) && (lo < |s| ==> !IsSpace(s[lo]))
    requires t <= |s| && (forall k :: |s| - t <= k < |s| ==> IsSpace(s[k])) && (t < |s| ==> !IsSpace(s[|s| - t - 1]))
    requires hi == if lo == |s| then lo else |s| - t
    ensures lo <= hi <= |s|
    ensures AllSpace(s[..lo]) && AllSpace(s[hi..]) && IsStripped(s[lo..hi])
    ensures s[lo..lo + (hi - lo)] == s[lo..hi]
  {
    assert forall k :: 0 <= k < lo ==> s[..lo][k] == s[k];
    if lo < |s| {
      assert lo < hi;
      assert forall k :: 0 <= k < |s| - hi ==> s[hi..][k] == s[hi + k];
      assert s[lo..hi][0] == s[lo];
      assert s[lo..hi][hi - lo - 1] == s[hi - 1];
    }
  }

  /** The three properties in `LeadingSpaces`' contract pin its value down. */
  lemma LeadingSpacesUnique(s: string, n: nat)
    requires n <= |s| && (forall k :: 0 <= k < n ==> IsSpace(s[k])) && (n < |s| ==> !IsSpace(s[n]))
    ensures LeadingSpaces(s) == n
  {
  }

  /** The three properties in `TrailingSpaces`' contract pin its value down. */
  lemma TrailingSpacesUnique(s: string, n: nat)
    requires n <= |s| && (forall k :: |s| - n <= k < |s| ==> IsSpace(s[k])) && (n < |s| ==> !IsSpace(s[|s| - n - 1]))
    ensures TrailingSpaces(s) == n
  {
  }

  lemma AllSpaceConcat(a: string, b: string)
    requires AllSpace(a) && AllSpace(b)
    ensures AllSpace(a + b)
  {
    forall k | 0 <= k < |a + b| ensures IsSpace((a + b)[k]) {
      if k < |a| { assert (a + b)[k] == a[k]; } else { assert (a + b)[k] == b[k - |a|]; }
    }
  }

  /** Around a non-empty stripped core, the leading whitespace is the left padding. */
  lemma LeadingOfPadded(a: string, r: string, b: string)
    requires AllSpace(a) && IsStripped(r) && |r| > 0
    ensures LeadingSpaces(a + r + b) == |a|
  {
    var s := a + r + b;
    assert s[..|a|] == a;
    assert s[|a|] == r[0];
    LeadingSpacesUnique(s, |a|);
  }

  /** Around a non-empty stripped core, the trailing whitespace is the right padding. */
  lemma TrailingOfPadded(a: string, r: string, b: string)
    requires AllSpace(b) && IsStripped(r) && |r| > 0
    ensures TrailingSpaces(a + r + b) == |b|
  {
    var s := a + r + b;
    assert s[|s| - |b|..] == b;
    assert s[|s| - |b| - 1] == r[|r| - 1];
    TrailingSpacesUnique(s, |b|);
  }

  /** Stripping undoes whitespace padding of a stripped string, whatever the padding. */
  lemma StripUnpads(a: string, r: string, b: string)
    requires AllSpace(a) && AllSpace(b) && IsStripped(r)
    ensures Strip(a + r + b) == r
  {
    var s := a + r + b;
    if |r| == 0 {
      assert s == a + b;
      AllSpaceConcat(a, b);
      LeadingSpacesUnique(s, |s|);
    } else {
      LeadingOfPadded(a, r, b);
      TrailingOfPadded(a, r, b);
      assert s[|a|..|s| - |b|] == r;
    }
  }

  /** A stripped string is left unchanged, so `Strip` is idempotent. */
  lemma StripStripped(s: string)
    requires IsStripped(s)
    ensures Strip(s) == s
  {
    StripUnpads("", s, "");
    assert "" + s + "" == s;
  }

  /** `s` starts and ends with a double quote (one quote counts for both ends,
      as with Python's `startswith('"') and endswith('"')`). */
  predicate IsWrapped(s: string) {
    |s| >= 1 && s[0] == '"' && s[|s| - 1] == '"'
  }

  function Quote(s: string): string {
    "\"" + s + "\""
  }

  /** `if s.startswith('"') and s.endswith('"'): s = s[1:-1]`. A wrapped
      string loses exactly one quote at each end; a lone quote becomes empty;
      anything else is returned unchanged. */
  function Unquote(s: string): (r: string)
    ensures IsWrapped(s) && |s| >= 2 ==> s == Quote(r)
    ensures IsWrapped(s) && |s| < 2 ==> s == "\"" && r == ""
    ensures !IsWrapped(s) ==> r == s
  {
    if IsWrapped(s) then
      if |s| >= 2 then s[1..|s| - 1] else ""
    else s
  }

  /** Unquoting inverts quoting. */
  lemma UnquoteQuote(s: string)
    ensures Unquote(Quote(s)) == s
  {
    assert Quote(s)[1..|Quote(s)| - 1] == s;
  }

}
