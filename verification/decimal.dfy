/**
 ASCII decimal numerals: the value of a run of digits (Python's `int(...)`
 on a run found by `\d+`, with CPython's limit on the number of digits it
 converts) and the canonical numeral of a natural number (Python's `str(n)`,
 used to build document ids).
 */
module Decimal {
  import opened Wrappers

  predicate IsDigit(c: char) {
    '0' <= c <= '9'
  }

  predicate AllDigits(s: string) {
    forall k :: 0 <= k < |s| ==> IsDigit(s[k])
  }

  function DigitValue(c: char): (d: nat)
    requires IsDigit(c)
    ensures d < 10
  {
    (c as int) - ('0' as int)
  }

  function DigitChar(d: nat): (c: char)
    requires d < 10
    ensures IsDigit(c) && DigitValue(c) == d
  {
    (('0' as int) + d) as char
  }

  /** The value of a numeral read most-significant digit first; the empty
      numeral reads as 0. */
  function Value(s: string): (n: nat)
    requires AllDigits(s)
    ensures n < Pow10(|s|)
    decreases |s|
  {
    if |s| == 0 then 0
    else Value(s[..|s| - 1]) * 10 + DigitValue(s[|s| - 1])
  }

  function Pow10(k: nat): (p: nat)
    ensures p >= 1
  {
    if k == 0 then 1 else 10 * Pow10(k - 1)
  }

  /** Python's `str(n)` for a natural number: the shortest numeral for `n`. */
  function Numeral(n: nat): (s: string)
    ensures |s| >= 1 && AllDigits(s)
    ensures |s| > 1 ==> s[0] != '0'
    decreases n
  {
    if n < 10 then [DigitChar(n)] else Numeral(n / 10) + [DigitChar(n % 10)]
  }

  /** Reading a number's numeral gives the number back. */
  lemma {:induction false} ValueNumeral(n: nat)
    ensures Value(Numeral(n)) == n
    decreases n
  {
    if n >= 10 {
      var s := Numeral(n);
      assert s[..|s| - 1] == Numeral(n / 10);
      ValueNumeral(n / 10);
    }
  }

  /** Distinct numbers have distinct numerals. */
  lemma NumeralInjective(m: nat, n: nat)
    requires m != n
    ensures Numeral(m) != Numeral(n)
  {
    ValueNumeral(m);
    ValueNumeral(n);
  }

  /** CPython's default limit on the number of digits `int()` converts from a
      string, `sys.get_int_max_str_digits()`, in force from version 3.11 on. */
  const MaxStrDigits: nat := 4300

  /** Python's `int(s)` on a run of ASCII digits: the value, or `None` for
      the `ValueError` raised when the run has more than `MaxStrDigits`
      digits (leading zeros count). */
  function ParseInt(s: string): (r: Option<nat>)
    requires AllDigits(s)
    ensures r.Some? <==> |s| <= MaxStrDigits
    ensures r.Some? ==> r.value == Value(s)
  {
    if |s| <= MaxStrDigits then Some(Value(s)) else None
  }

  /** A number below `10^k` has a numeral of at most `k` digits. */
  lemma {:induction false} NumeralLength(n: nat, k: nat)
    requires 1 <= k && n < Pow10(k)
    ensures |Numeral(n)| <= k
    decreases n
  {
    if n >= 10 {
      assert Pow10(1) == 10;
      assert n / 10 < Pow10(k - 1);
      NumeralLength(n / 10, k - 1);
    }
  }

  /** `int(str(n)) == n` for every number CPython converts: every number
      below `10^4300`. */
  lemma ParseIntNumeral(n: nat)
    requires n < Pow10(MaxStrDigits)
    ensures ParseInt(Numeral(n)) == Some(n)
  {
    NumeralLength(n, MaxStrDigits);
    ValueNumeral(n);
  }

}
