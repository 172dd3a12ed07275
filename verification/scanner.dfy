/**
 The field scanner of `parse_csv_data`: a two-state machine (inside or
 outside double quotes) that walks a row's text once and splits it on the
 commas met outside quotes, trimming each field as it is emitted.

 The machine itself (`Step`, `Run`, `SplitFields`) follows the loop
 character by character. Beside it sits a reference description that does
 not mention the machine: a comma is a separator when an even number of
 quotes precedes it (`IsSeparator`), and the raw fields are the text cut at
 the separators (`Pieces`). `RunMatchesPieces` ties the two together.
 */
module Scanner {
  import opened Text
  import opened Collections

  // ---------------------------------------------------------------------------
  // The machine
  // ---------------------------------------------------------------------------

  /** The loop's variables: `in_quotes`, `current_field` and `fields`. */
  datatype ScanState = ScanState(inQuotes: bool, acc: string, fields: seq<string>)

  const Start: ScanState := ScanState(false, "", [])

  /** One loop iteration. A quote toggles the flag and is still appended to
      the accumulator; only a comma outside quotes is consumed, closing the
      current field (trimmed, and kept even when empty). */
  function Step(st: ScanState, c: char): (r: ScanState)
    ensures r.inQuotes <==> (st.inQuotes != (c == '"'))
    ensures |r.fields| == |st.fields| + (if c == ',' && !st.inQuotes then 1 else 0)
    ensures r.fields[..|st.fields|] == st.fields
    ensures c == ',' && !st.inQuotes ==> r.acc == "" && IsStripped(r.fields[|st.fields|])
    ensures !(c == ',' && !st.inQuotes) ==> r.acc == st.acc + [c]
  {
    if c == '"' then ScanState(!st.inQuotes, st.acc + [c], st.fields)
    else if c == ',' && !st.inQuotes then ScanState(st.inQuotes, "", st.fields + [Strip(st.acc)])
    else ScanState(st.inQuotes, st.acc + [c], st.fields)
  }

  predicate AllStripped(fields: seq<string>) {
    forall k :: 0 <= k < |fields| ==> IsStripped(fields[k])
  }

  /** The loop over a whole text. Fields are only ever appended, and every
      appended field is trimmed. */
  function Run(st: ScanState, s: string): (r: ScanState)
    ensures |st.fields| <= |r.fields| && r.fields[..|st.fields|] == st.fields
    ensures AllStripped(st.fields) ==> AllStripped(r.fields)
    decreases |s|
  {
    if |s| == 0 then st else Run(Step(st, s[0]), s[1..])
  }

  /** Lines 94-95: the last accumulator becomes a field only when it is
      non-empty BEFORE trimming, so a trailing ", " gives a final "" while a
      trailing "," gives nothing. */
  function Finish(st: ScanState): (fields: seq<string>)
    ensures |fields| == |st.fields| + (if st.acc == "" then 0 else 1)
    ensures fields[..|st.fields|] == st.fields
    ensures AllStripped(st.fields) ==> AllStripped(fields)
  {
    if |st.acc| > 0 then st.fields + [Strip(st.acc)] else st.fields
  }

  // ---------------------------------------------------------------------------
  // Reference description: separators and raw pieces
  // ---------------------------------------------------------------------------

  /** Number of double quotes in `s`. */
  function QuoteCount(s: string): nat {
    multiset(s)['"']
  }

  /** Position `i` holds a comma that the loop meets with `in_quotes` false,
      i.e. after an even number of quotes. */
  predicate IsSeparator(s: string, i: int) {
    0 <= i < |s| && s[i] == ',' && QuoteCount(s[..i]) % 2 == 0
  }

  /** The separator positions of `s`, in increasing order: exactly the
      positions satisfying `IsSeparator`. */
  function Separators(s: string): (r: seq<nat>)
    ensures Increasing(r)
    ensures forall k :: 0 <= k < |r| ==> IsSeparator(s, r[k])
    ensures forall i :: IsSeparator(s, i) ==> i in r
    decreases |s|
  {
    if |s| == 0 then []
    else
      var p := s[..|s| - 1];
      assert forall i :: 0 <= i < |p| ==> p[..i] == s[..i];
      Separators(p) + (if IsSeparator(s, |p|) then [|p|] else [])
  }

  /** Cut positions are strictly increasing positions of `s`. */
  predicate ValidCuts(s: string, cs: seq<nat>) {
    Increasing(cs) && forall k :: 0 <= k < |cs| ==> cs[k] < |s|
  }

  /** The pieces of `s` between the cut positions; the characters at the cut
      positions themselves belong to no piece. */
  function Cut(s: string, cs: seq<nat>): (pieces: seq<string>)
    requires ValidCuts(s, cs)
    ensures |pieces| == |cs| + 1
    decreases |cs|
  {
    if |cs| == 0 then [s]
    else
      var k := cs[|cs| - 1];
      Cut(s[..k], cs[..|cs| - 1]) + [s[k + 1..]]
  }

  /** Python's `sep.join(ps)`. */
  function Join(ps: seq<string>, sep: string): string
    decreases |ps|
  {
    if |ps| == 0 then ""
    else if |ps| == 1 then ps[0]
    else Join(ps[..|ps| - 1], sep) + sep + ps[|ps| - 1]
  }

  /** Cutting at commas and joining the pieces with commas gives the text back. */
  lemma {:induction false} JoinCut(s: string, cs: seq<nat>)
    requires ValidCuts(s, cs)
    requires forall k :: 0 <= k < |cs| ==> s[cs[k]] == ','
    ensures Join(Cut(s, cs), ",") == s
    decreases |cs|
  {
    if |cs| > 0 {
      var k := cs[|cs| - 1];
      var init := cs[..|cs| - 1];
      assert ValidCuts(s[..k], init);
      JoinCut(s[..k], init);
      assert s == s[..k] + "," + s[k + 1..];
    }
  }

  /** The raw accumulators of the loop, one per separator plus the last one:
      joined with commas they rebuild the text. */
  function Pieces(s: string): (ps: seq<string>)
    ensures |ps| == |Separators(s)| + 1
  {
    Cut(s, Separators(s))
  }

  /** Joined with commas, the raw pieces rebuild the text: every character
      other than a separator went into some accumulator, in order. */
  lemma PiecesJoin(s: string)
    ensures Join(Pieces(s), ",") == s
  {
    JoinCut(s, Separators(s));
  }

  function StripAll(xs: seq<string>): (ys: seq<string>)
    ensures |ys| == |xs|
  {
    seq(|xs|, i requires 0 <= i < |xs| => Strip(xs[i]))
  }

  // ---------------------------------------------------------------------------
  // The machine agrees with the reference description
  // ---------------------------------------------------------------------------

  lemma {:induction false} RunSnoc(st: ScanState, s: string, c: char)
    ensures Run(st, s + [c]) == Step(Run(st, s), c)
    decreases |s|
  {
    if |s| == 0 {
      assert s + [c] == [c];
    } else {
      assert (s + [c])[0] == s[0] && (s + [c])[1..] == s[1..] + [c];
      RunSnoc(Step(st, s[0]), s[1..], c);
    }
  }

  lemma {:induction false} RunAppend(st: ScanState, a: string, b: string)
    ensures Run(st, a + b) == Run(Run(st, a), b)
    decreases |a|
  {
    if |a| == 0 {
      assert a + b == b;
    } else {
      assert (a + b)[0] == a[0] && (a + b)[1..] == a[1..] + b;
      RunAppend(Step(st, a[0]), a[1..], b);
    }
  }

  /** A separator appended to `s` opens a new, empty piece. */
  lemma CutNewPiece(s: string, cs: seq<nat>)
    requires ValidCuts(s, cs)
    ensures ValidCuts(s + [','], cs + [|s|])
    ensures Cut(s + [','], cs + [|s|]) == Cut(s, cs) + [""]
  {
    var t := s + [','];
    var ds := cs + [|s|];
    assert ds[..|ds| - 1] == cs;
    assert t[..|s|] == s;
    assert t[|s| + 1..] == "";
  }

  /** Any other character appended to `s` extends the last piece. */
  lemma {:induction false} CutExtend(s: string, cs: seq<nat>, c: char)
    requires ValidCuts(s, cs)
    ensures ValidCuts(s + [c], cs)
    ensures Cut(s + [c], cs) == Cut(s, cs)[..|cs|] + [Cut(s, cs)[|cs|] + [c]]
    decreases |cs|
  {
    if |cs| > 0 {
      var k := cs[|cs| - 1];
      var t := s + [c];
      assert t[..k] == s[..k];
      assert t[k + 1..] == s[k + 1..] + [c];
    }
  }

  lemma QuoteCountSnoc(s: string, c: char)
    ensures QuoteCount(s + [c]) == QuoteCount(s) + (if c == '"' then 1 else 0)
  {
    assert multiset(s + [c]) == multiset(s) + multiset{c};
  }

  /** A quote flips the parity of the quote count; any other character keeps it. */
  lemma QuoteParitySnoc(s: string, c: char)
    ensures (QuoteCount(s + [c]) % 2 == 1) == if c == '"' then QuoteCount(s) % 2 != 1 else QuoteCount(s) % 2 == 1
  {
    QuoteCountSnoc(s, c);
    var k := QuoteCount(s);
    if c == '"' {
      assert QuoteCount(s + [c]) == k + 1;
      assert (k + 1) % 2 == 1 <==> k % 2 == 0;
    }
  }

  /** How the raw pieces change when one character is read. */
  lemma PiecesSnoc(p: string, c: char)
    ensures var ps := Pieces(p); var n := |ps| - 1;
      Pieces(p + [c]) == if c == ',' && QuoteCount(p) % 2 == 0 then ps + [""] else ps[..n] + [ps[n] + [c]]
  {
    var s := p + [c];
    var cs := Separators(p);
    assert s[..|p|] == p;
    assert s[..|s| - 1] == p;
    if c == ',' && QuoteCount(p) % 2 == 0 {
      assert Separators(s) == cs + [|p|];
      CutNewPiece(p, cs);
    } else {
      assert Separators(s) == cs;
      CutExtend(p, cs, c);
    }
  }

  /** The loop state that holds the raw pieces `ps`: all but the last were
      emitted, trimmed, and the last is still being accumulated. */
  function StateOf(inQuotes: bool, ps: seq<string>): ScanState
    requires |ps| >= 1
  {
    ScanState(inQuotes, ps[|ps| - 1], StripAll(ps[..|ps| - 1]))
  }

  /** The state the loop agrees with after reading `s` from the start. */
  function Expected(s: string): ScanState {
    StateOf(QuoteCount(s) % 2 == 1, Pieces(s))
  }

  /** A separator closes the last piece and opens an empty one. */
  lemma StepAtSeparator(ps: seq<string>)
    requires |ps| >= 1
    ensures Step(StateOf(false, ps), ',') == StateOf(false, ps + [""])
  {
    var n := |ps| - 1;
    assert (ps + [""])[..n + 1] == ps;
    assert StripAll(ps) == StripAll(ps[..n]) + [Strip(ps[n])];
  }

  /** Any other character extends the last piece, toggling the flag on a quote. */
  lemma StepElsewhere(q: bool, ps: seq<string>, c: char)
    requires |ps| >= 1 && !(c == ',' && !q)
    ensures var n := |ps| - 1;
      Step(StateOf(q, ps), c) == StateOf(if c == '"' then !q else q, ps[..n] + [ps[n] + [c]])
  {
    var n := |ps| - 1;
    assert (ps[..n] + [ps[n] + [c]])[..n] == ps[..n];
  }

  /** The agreement below is kept by reading one more character. */
  lemma MatchSnoc(p: string, c: char)
    requires Run(Start, p) == Expected(p)
    ensures Run(Start, p + [c]) == Expected(p + [c])
  {
    RunSnoc(Start, p, c);
    QuoteParitySnoc(p, c);
    PiecesSnoc(p, c);
    var q := QuoteCount(p) % 2 == 1;
    var q' := QuoteCount(p + [c]) % 2 == 1;
    var ps := Pieces(p);
    assert Expected(p) == StateOf(q, ps);
    if c == ',' && !q {
      assert Pieces(p + [c]) == ps + [""];
      StepAtSeparator(ps);
    } else {
      var n := |ps| - 1;
      assert Pieces(p + [c]) == ps[..n] + [ps[n] + [c]];
      StepElsewhere(q, ps, c);
    }
  }

  /** The loop state after reading `s` from the start: the flag tells whether
      an odd number of quotes has been read, the accumulator is the last raw
      piece, and the emitted fields are the trimmed earlier pieces. */
  lemma {:induction false} RunMatchesPieces(s: string)
    ensures Run(Start, s) == Expected(s)
    decreases |s|
  {
    if |s| > 0 {
      var p := s[..|s| - 1];
      assert s == p + [s[|s| - 1]];
      RunMatchesPieces(p);
      MatchSnoc(p, s[|s| - 1]);
    }
  }

  // ---------------------------------------------------------------------------
  // The split, as a whole
  // ---------------------------------------------------------------------------

  /** Lines 80-95: the fields of a row's text. */
  function SplitFields(s: string): (fields: seq<string>)
    ensures AllStripped(fields)
    ensures s == "" ==> fields == []
  {
    Finish(Run(Start, s))
  }

  /** Every piece that ends at a separator becomes a trimmed field, even an
      empty one; the last piece becomes a trimmed field only when it is not
      empty before trimming. */
  lemma SplitFieldsSpec(s: string)
    ensures var ps := Pieces(s);
      SplitFields(s) == StripAll(ps[..|ps| - 1]) + (if ps[|ps| - 1] != "" then [Strip(ps[|ps| - 1])] else [])
  {
    RunMatchesPieces(s);
  }

  /** There is one field per separator (every piece but the last), plus
      one when the last piece is non-empty, and no field has whitespace at
      either end. */
  lemma SplitFieldsCount(s: string)
    ensures var ps := Pieces(s); |SplitFields(s)| == |ps| - 1 + (if ps[|ps| - 1] != "" then 1 else 0)
    ensures AllStripped(SplitFields(s))
  {
    SplitFieldsSpec(s);
  }

  /** Line 94: a trailing separator closes the last field and opens an
      empty accumulator, which is not emitted. */
  lemma TrailingSeparator(s: string)
    requires QuoteCount(s) % 2 == 0
    ensures SplitFields(s + [',']) == StripAll(Pieces(s))
  {
    var ps := Pieces(s);
    SplitFieldsSpec(s + [',']);
    PiecesSnoc(s, ',');
    assert (ps + [""])[..|ps|] == ps;
  }

  /** A separator then a space: the space opens a new one-character piece. */
  lemma PiecesSeparatorSpace(s: string)
    requires QuoteCount(s) % 2 == 0
    ensures Pieces(s + [',', ' ']) == Pieces(s) + [" "]
  {
    var ps := Pieces(s);
    var t := s + [','];
    PiecesSnoc(s, ',');
    PiecesSnoc(t, ' ');
    assert t + [' '] == s + [',', ' '];
    assert (ps + [""])[|ps|] == "";
    assert (ps + [""])[..|ps|] == ps;
  }

  /** Lines 88 and 94: a trailing separator followed by a space leaves the
      accumulator " ", non-empty before trimming, so it is emitted as "". */
  lemma TrailingSeparatorSpace(s: string)
    requires QuoteCount(s) % 2 == 0
    ensures SplitFields(s + [',', ' ']) == StripAll(Pieces(s)) + [""]
  {
    var ps := Pieces(s);
    PiecesSeparatorSpace(s);
    SplitFieldsSpec(s + [',', ' ']);
    assert (ps + [" "])[..|ps|] == ps;
    StripUnpads(" ", "", "");
    assert " " + "" + "" == " ";
  }

}
