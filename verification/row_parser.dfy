/**
 From one CSV cell to its cleaned fields (lines 73-102): strip one outer
 pair of quotes, split with the quote-toggling scanner, then strip one pair
 of quotes from every field.
 */
module RowParser {
  import opened Text
  import opened Scanner

  /** Lines 97-102: every field loses one wrapping pair of quotes; count and
      order are kept and unwrapped fields are untouched. */
  function Cleanup(fields: seq<string>): (cleaned: seq<string>)
    ensures |cleaned| == |fields|
    ensures forall i :: 0 <= i < |fields| && !IsWrapped(fields[i]) ==> cleaned[i] == fields[i]
    ensures forall i :: 0 <= i < |fields| && IsWrapped(fields[i]) ==>
      fields[i] == Quote(cleaned[i]) || (fields[i] == "\"" && cleaned[i] == "")
  {
    seq(|fields|, i requires 0 <= i < |fields| => Unquote(fields[i]))
  }

  /** The cleaned fields of a row's first cell. */
  function ParseCell(cell: string): (fields: seq<string>)
    ensures |fields| == |SplitFields(Unquote(cell))|
    ensures Unquote(cell) == "" ==> fields == []
  {
    Cleanup(SplitFields(Unquote(cell)))
  }

  /** There is one field per separator of the unwrapped cell, plus one when
      the text after the last separator is not empty. */
  lemma ParseCellFieldCount(cell: string)
    ensures var body := Unquote(cell); var ps := Pieces(body);
      |ParseCell(cell)| == |Separators(body)| + (if ps[|ps| - 1] != "" then 1 else 0)
  {
    SplitFieldsCount(Unquote(cell));
  }

  function QuoteAll(xs: seq<string>): (ys: seq<string>)
    ensures |ys| == |xs|
  {
    seq(|xs|, i requires 0 <= i < |xs| => Quote(xs[i]))
  }

  predicate NoQuotes(x: string) {
    forall k :: 0 <= k < |x| ==> x[k] != '"'
  }

  predicate NoCommas(x: string) {
    forall k :: 0 <= k < |x| ==> x[k] != ','
  }

  /** Quote-free text is copied into the accumulator as it is, provided it
      has no comma that the scanner would take for a separator. */
  lemma {:induction false} RunPlain(st: ScanState, x: string)
    requires NoQuotes(x) && (st.inQuotes || NoCommas(x))
    ensures Run(st, x) == ScanState(st.inQuotes, st.acc + x, st.fields)
    decreases |x|
  {
    if |x| > 0 {
      RunPlain(Step(st, x[0]), x[1..]);
      assert st.acc + [x[0]] + x[1..] == st.acc + x;
    }
  }

  /** A quoted, quote-free text read outside quotes lands, quotes and all, in
      the accumulator, and the scanner ends outside quotes again. */
  lemma RunQuoted(st: ScanState, x: string)
    requires NoQuotes(x) && !st.inQuotes
    ensures Run(st, Quote(x)) == ScanState(false, st.acc + Quote(x), st.fields)
  {
    assert Quote(x) == ['"'] + x + ['"'];
    RunAppend(st, ['"'] + x, ['"']);
    RunAppend(st, ['"'], x);
    var st1 := Run(st, ['"']);
    assert st1 == ScanState(true, st.acc + ['"'], st.fields);
    RunPlain(st1, x);
    assert st.acc + ['"'] + x + ['"'] == st.acc + Quote(x);
  }

  /** A separator read outside quotes emits the stripped accumulator. */
  lemma RunSeparator(s: string, acc: string, fields: seq<string>)
    requires Run(Start, s) == ScanState(false, acc, fields)
    requires IsStripped(acc)
    ensures Run(Start, s + ",") == ScanState(false, "", fields + [acc])
  {
    RunSnoc(Start, s, ',');
    assert s + "," == s + [','];
    StripStripped(acc);
  }

  /** Scanning quoted fields joined by commas: all but the last are emitted
      with their quotes, the last is still in the accumulator. */
  lemma {:induction false} RunQuotedFields(xs: seq<string>)
    requires |xs| >= 1
    requires forall i :: 0 <= i < |xs| ==> NoQuotes(xs[i])
    ensures Run(Start, Join(QuoteAll(xs), ",")) == ScanState(false, Quote(xs[|xs| - 1]), QuoteAll(xs[..|xs| - 1]))
    decreases |xs|
  {
    var n := |xs|;
    if n == 1 {
      RunQuoted(Start, xs[0]);
      assert "" + Quote(xs[0]) == Quote(xs[0]);
    } else {
      var init := xs[..n - 1];
      assert QuoteAll(xs)[..n - 1] == QuoteAll(init);
      RunQuotedFields(init);
      var j := Join(QuoteAll(init), ",");
      assert Join(QuoteAll(xs), ",") == j + "," + Quote(xs[n - 1]);
      var prev := Quote(init[n - 2]);
      assert IsStripped(prev);
      RunSeparator(j, prev, QuoteAll(init[..n - 2]));
      assert QuoteAll(init[..n - 2]) + [prev] == QuoteAll(init);
      RunAppend(Start, j + ",", Quote(xs[n - 1]));
      RunQuoted(ScanState(false, "", QuoteAll(init)), xs[n - 1]);
    }
  }

  /** Splitting quoted fields joined by commas gives the quoted fields. */
  lemma SplitQuotedFields(xs: seq<string>)
    requires |xs| >= 1
    requires forall i :: 0 <= i < |xs| ==> NoQuotes(xs[i])
    ensures SplitFields(Join(QuoteAll(xs), ",")) == QuoteAll(xs)
  {
    RunQuotedFields(xs);
    var last := Quote(xs[|xs| - 1]);
    StripStripped(last);
    assert QuoteAll(xs[..|xs| - 1]) + [last] == QuoteAll(xs);
  }

  /** Cleanup undoes `QuoteAll`. */
  lemma CleanupQuoteAll(xs: seq<string>)
    ensures Cleanup(QuoteAll(xs)) == xs
  {
    forall i | 0 <= i < |xs| ensures Unquote(Quote(xs[i])) == xs[i] {
      UnquoteQuote(xs[i]);
    }
  }

  /** Round trip: quote each field, join with commas and wrap the whole in
      one more pair of quotes; parsing gives the fields back, provided they
      contain no quote characters (commas and spaces inside are fine). */
  lemma ParseCellRoundTrip(xs: seq<string>)
    requires forall i :: 0 <= i < |xs| ==> NoQuotes(xs[i])
    ensures ParseCell(Quote(Join(QuoteAll(xs), ","))) == xs
  {
    UnquoteQuote(Join(QuoteAll(xs), ","));
    if |xs| >= 1 {
      SplitQuotedFields(xs);
      CleanupQuoteAll(xs);
    }
  }

  /** Joining quoted fields with commas is one quoted string whose inner
      fields are joined by `","`. */
  lemma {:induction false} JoinQuoteAll(xs: seq<string>)
    requires |xs| >= 1
    ensures Join(QuoteAll(xs), ",") == Quote(Join(xs, "\",\""))
    decreases |xs|
  {
    var n := |xs|;
    if n > 1 {
      var init := xs[..n - 1];
      assert QuoteAll(xs)[..n - 1] == QuoteAll(init);
      JoinQuoteAll(init);
      var g := Join(init, "\",\"");
      assert Join(QuoteAll(xs), ",") == Quote(g) + "," + Quote(xs[n - 1]);
      assert Join(xs, "\",\"") == g + "\",\"" + xs[n - 1];
      QuoteGlue(g, xs[n - 1]);
    }
  }

  lemma QuoteGlue(g: string, x: string)
    ensures Quote(g) + "," + Quote(x) == Quote(g + "\",\"" + x)
  {
    assert Quote(g) + "," + Quote(x) == "\"" + (g + "\",\"" + x) + "\"";
  }

  /** Fields glued by `","` stay in one accumulator: each `","` enters and
      leaves quotes around its comma. */
  lemma {:induction false} RunGlued(xs: seq<string>)
    requires |xs| >= 1
    requires forall i :: 0 <= i < |xs| ==> NoQuotes(xs[i]) && NoCommas(xs[i])
    ensures Run(Start, Join(xs, "\",\"")) == ScanState(false, Join(xs, "\",\""), [])
    decreases |xs|
  {
    var n := |xs|;
    if n == 1 {
      RunPlain(Start, xs[0]);
      assert "" + xs[0] == xs[0];
    } else {
      var init := xs[..n - 1];
      RunGlued(init);
      var g := Join(init, "\",\"");
      assert Join(xs, "\",\"") == (g + "\",\"") + xs[n - 1];
      RunAppend(Start, g + "\",\"", xs[n - 1]);
      RunAppend(Start, g, "\",\"");
      var st := ScanState(false, g + "\",\"", []);
      assert Run(ScanState(false, g, []), "\",\"") == st;
      RunPlain(st, xs[n - 1]);
    }
  }

  /** A cell whose quoted fields are NOT wrapped in an extra pair of quotes
      collapses into a single field: the outer strip removes the first and
      last quote, which puts every separating comma inside quotes. */
  lemma UnwrappedQuotedFieldsCollapse(xs: seq<string>)
    requires |xs| >= 2
    requires forall i :: 0 <= i < |xs| ==> NoQuotes(xs[i]) && NoCommas(xs[i])
    ensures |ParseCell(Join(QuoteAll(xs), ","))| == 1
  {
    JoinQuoteAll(xs);
    var g := Join(xs, "\",\"");
    UnquoteQuote(g);
    RunGlued(xs);
    var init := xs[..|xs| - 1];
    assert g == Join(init, "\",\"") + "\",\"" + xs[|xs| - 1];
    assert |g| > 0;
  }

}
