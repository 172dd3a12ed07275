/**
 The `open_positions` value: the first maximal run of digits in the
 positions text, read as a decimal number, with a short cut to 0 for the
 empty text and for the literal "0 open positions".
 */
module Positions {
  import opened Decimal

  predicate NoDigits(s: string) {
    forall k :: 0 <= k < |s| ==> !IsDigit(s[k])
  }

  /** Index of the first digit of `s`, or `|s|` when there is none. */
  function FirstDigitIndex(s: string): (i: nat)
    ensures i <= |s|
    ensures forall k :: 0 <= k < i ==> !IsDigit(s[k])
    ensures i < |s| ==> IsDigit(s[i])
  {
    if |s| == 0 || IsDigit(s[0]) then 0 else 1 + FirstDigitIndex(s[1..])
  }

  /** Length of the longest all-digit prefix of `s`. */
  function LeadingDigits(s: string): (n: nat)
    ensures n <= |s|
    ensures forall k :: 0 <= k < n ==> IsDigit(s[k])
    ensures n < |s| ==> !IsDigit(s[n])
  {
    if |s| == 0 || !IsDigit(s[0]) then 0 else 1 + LeadingDigits(s[1..])
  }

  /** `re.findall(r'\d+', s)[0]`, or "" when the list is empty: the first
      maximal run of digits. It is empty exactly when `s` has no digit. */
  function FirstDigitRun(s: string): (run: string)
    ensures AllDigits(run)
    ensures run == "" <==> NoDigits(s)
  {
    var i := FirstDigitIndex(s);
    var rest := s[i..];
    assert i < |s| ==> rest[0] == s[i];
    rest[..LeadingDigits(rest)]
  }

  /** The properties in `FirstDigitIndex`' contract pin its value down. */
  lemma FirstDigitIndexUnique(s: string, i: nat)
    requires i <= |s| && (forall k :: 0 <= k < i ==> !IsDigit(s[k])) && (i < |s| ==> IsDigit(s[i]))
    ensures FirstDigitIndex(s) == i
  {
  }

  /** The properties in `LeadingDigits`' contract pin its value down. */
  lemma LeadingDigitsUnique(s: string, n: nat)
    requires n <= |s| && (forall k :: 0 <= k < n ==> IsDigit(s[k])) && (n < |s| ==> !IsDigit(s[n]))
    ensures LeadingDigits(s) == n
  {
  }

  /** The run is characterised independently of how it is found: whenever `s`
      splits into a digit-free prefix, a non-empty digit run and a remainder
      that does not start with a digit, that run is the one found. */
  lemma FirstDigitRunSplit(pre: string, run: string, post: string)
    requires NoDigits(pre) && AllDigits(run) && |run| > 0
    requires |post| == 0 || !IsDigit(post[0])
    ensures FirstDigitRun(pre + run + post) == run
  {
    var s := pre + run + post;
    assert s[|pre|] == run[0];
    FirstDigitIndexUnique(s, |pre|);
    var rest := s[|pre|..];
    assert rest == run + post;
    assert |run| < |rest| ==> rest[|run|] == post[0];
    LeadingDigitsUnique(rest, |run|);
    assert rest[..|run|] == run;
  }

  /** The value computed at lines 110-119: 0 for "" and for "0 open
      positions"; otherwise `int()` of the first digit run, or 0 when there
      is no digit or when `int()` raises because the run is longer than
      CPython converts. The short cut never changes the answer: the result
      is always that of the first run. */
  function OpenPositions(text: string): (n: nat)
    ensures text == "" || text == "0 open positions" ==> n == 0
    ensures NoDigits(text) ==> n == 0
    ensures var run := FirstDigitRun(text); n == if |run| <= MaxStrDigits then Value(run) else 0
  {
    if text != "" && text != "0 open positions" then
      var run := FirstDigitRun(text);
      if run != "" then
        match ParseInt(run)
        case Some(v) => v
        case None => 0
      else 0
    else
      assert text == "0 open positions" ==> Value(FirstDigitRun(text)) == 0 by {
        if text == "0 open positions" {
          LeadingDigitRun(text);
        }
      }
      0
  }

  /** A text made of a digit-free prefix, a numeral and a non-digit suffix
      yields the numeral's value, e.g. "2 open positions" yields 2, for every
      number `int()` converts. */
  lemma OpenPositionsOfNumeral(pre: string, n: nat, post: string)
    requires NoDigits(pre)
    requires |post| == 0 || !IsDigit(post[0])
    requires n < Pow10(MaxStrDigits)
    ensures OpenPositions(pre + Numeral(n) + post) == n
  {
    FirstDigitRunSplit(pre, Numeral(n), post);
    ParseIntNumeral(n);
  }

  /** A first digit run longer than `MaxStrDigits` makes `int()` raise, and
      the handler at lines 118-119 gives 0. */
  lemma OverlongRunGivesZero(pre: string, run: string, post: string)
    requires NoDigits(pre) && AllDigits(run) && |run| > MaxStrDigits
    requires |post| == 0 || !IsDigit(post[0])
    ensures OpenPositions(pre + run + post) == 0
  {
    FirstDigitRunSplit(pre, run, post);
  }

  /** A text that opens with a single digit has that digit as its first run. */
  lemma LeadingDigitRun(text: string)
    requires |text| >= 2 && IsDigit(text[0]) && !IsDigit(text[1])
    ensures FirstDigitRun(text) == [text[0]]
    ensures Value([text[0]]) == DigitValue(text[0])
  {
    FirstDigitIndexUnique(text, 0);
    assert text[0..] == text;
    LeadingDigitsUnique(text, 1);
    assert [text[0]][..0] == [];
  }

  /** A text that opens with a single digit, e.g. "2 open positions",
      yields that digit's value. */
  lemma OpenPositionsLeadingDigit(text: string)
    requires |text| >= 2 && IsDigit(text[0]) && !IsDigit(text[1])
    ensures OpenPositions(text) == DigitValue(text[0])
  {
    LeadingDigitRun(text);
  }

}
