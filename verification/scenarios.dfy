/**
 Worked rows: the documents the parser produces for concrete inputs,
 including the rows it drops and the id numbering gaps that follow.
 */
module Scenarios {
  import opened Wrappers
  import opened Text
  import opened Decimal
  import opened Positions
  import opened Scanner
  import opened RowParser
  import opened Documents
  import opened Collections

  const Fields: seq<string> := ["Acme Corp", "Da Nang", "3 open positions"]

  const AcmeDocument: Document := Document("company_1", "Acme Corp", "Da Nang", 3, true)

  /** The positions text examples: "0 open positions" and "" give 0, "2 open
      positions" gives 2. */
  lemma PositionsExamples()
    ensures OpenPositions("0 open positions") == 0
    ensures OpenPositions("") == 0
    ensures OpenPositions("2 open positions") == 2
  {
    OpenPositionsLeadingDigit("2 open positions");
  }

  lemma ThreeOpenPositions()
    ensures OpenPositions("3 open positions") == 3
  {
    OpenPositionsLeadingDigit("3 open positions");
  }

  lemma FirstId()
    ensures DocumentId(1) == "company_1"
  {
    assert Numeral(1) == "1";
  }

  lemma ThirdId()
    ensures DocumentId(3) == "company_3"
  {
    assert Numeral(3) == "3";
  }

  /** A positions text of 4301 digits: `int()` raises, so the count is 0
      and the company has no open positions. */
  lemma OverlongCountHasNoPositions()
    ensures BuildDocument(["Acme Corp", "Da Nang", seq(MaxStrDigits + 1, _ => '1')], 1)
      == Some(Document("company_1", "Acme Corp", "Da Nang", 0, false))
  {
    var text := seq(MaxStrDigits + 1, _ => '1');
    OverlongRunGivesZero("", text, "");
    assert "" + text + "" == text;
    FirstId();
  }

  /** Three fields build the expected document for row 1. */
  lemma BuildAcme()
    ensures BuildDocument(Fields, 1) == Some(AcmeDocument)
  {
    ThreeOpenPositions();
    FirstId();
    var doc := BuildDocument(Fields, 1);
    assert doc.Some?;
    assert doc.value.openPositions == 3;
  }

  /** The cell `""Acme Corp","Da Nang","3 open positions""`, whose quoted
      fields sit inside one more pair of quotes, yields the document, with
      the id of whatever row it is on. */
  lemma DoublyWrappedRowYieldsDocument(rowNum: nat)
    ensures RowDocument([Quote(Join(QuoteAll(Fields), ","))], rowNum)
      == Some(AcmeDocument.(id := DocumentId(rowNum)))
  {
    assert forall i :: 0 <= i < |Fields| ==> NoQuotes(Fields[i]);
    ParseCellRoundTrip(Fields);
    BuildAcme();
  }

  /** The fields, each quoted and joined by commas, spelled out. */
  lemma SinglyWrappedCellText()
    ensures Join(QuoteAll(Fields), ",") == "\"Acme Corp\",\"Da Nang\",\"3 open positions\""
  {
    var qs := QuoteAll(Fields);
    assert qs == [Quote("Acme Corp"), Quote("Da Nang"), Quote("3 open positions")];
    JoinThree(Quote("Acme Corp"), Quote("Da Nang"), Quote("3 open positions"), ",");
    LiteralConcat();
  }

  lemma LiteralConcat()
    ensures Quote("Acme Corp") + "," + Quote("Da Nang") + "," + Quote("3 open positions")
      == "\"Acme Corp\",\"Da Nang\",\"3 open positions\""
  {
    QuotedNames();
    GlueFirstTwo();
    GlueThird();
  }

  lemma QuotedNames()
    ensures Quote("Acme Corp") == "\"Acme Corp\""
    ensures Quote("Da Nang") == "\"Da Nang\""
    ensures Quote("3 open positions") == "\"3 open positions\""
  {
  }

  lemma GlueFirstTwo()
    ensures "\"Acme Corp\"" + "," + "\"Da Nang\"" == "\"Acme Corp\",\"Da Nang\""
  {
  }

  lemma GlueThird()
    ensures "\"Acme Corp\",\"Da Nang\"" + "," + "\"3 open positions\"" == "\"Acme Corp\",\"Da Nang\",\"3 open positions\""
  {
  }

  lemma JoinThree(a: string, b: string, c: string, sep: string)
    ensures Join([a, b, c], sep) == a + sep + b + sep + c
  {
    var xs := [a, b, c];
    var ys := [a, b];
    assert xs[..2] == ys;
    assert ys[..1] == [a];
    assert Join([a], sep) == a;
    assert Join(ys, sep) == a + sep + b;
    assert Join(xs, sep) == Join(ys, sep) + sep + c;
  }

  /** The cell `"Acme Corp","Da Nang","3 open positions"`, written both as
      the quoted fields joined by commas and as a literal, is treated as
      wrapped: its first and last quotes go, every comma ends up inside
      quotes, the cell parses to a single field and the row is dropped. */
  lemma SinglyWrappedRowIsDropped(rowNum: nat)
    ensures RowDocument([Join(QuoteAll(Fields), ",")], rowNum) == None
    ensures RowDocument(["\"Acme Corp\",\"Da Nang\",\"3 open positions\""], rowNum) == None
  {
    assert forall i :: 0 <= i < |Fields| ==> NoQuotes(Fields[i]) && NoCommas(Fields[i]);
    UnwrappedQuotedFieldsCollapse(Fields);
    SinglyWrappedCellText();
  }

  /** Three rows, an empty one, a dropped one and one that yields `d`: the
      only document is `d`. */
  lemma OnlyThirdRowYields(bad: string, good: string, d: Document)
    requires RowDocument([bad], 2) == None && RowDocument([good], 3) == Some(d)
    ensures ParseCsvData([[], [bad], [good]]) == [d]
  {
    OnlyThirdOutcomes(bad, good, d);
    ParseCsvDataCollects([[], [bad], [good]]);
    OnlyThirdSome(d);
  }

  lemma OnlyThirdOutcomes(bad: string, good: string, d: Document)
    requires RowDocument([bad], 2) == None && RowDocument([good], 3) == Some(d)
    ensures RowOutcomes([[], [bad], [good]]) == [None, None, Some(d)]
  {
    var rows := [[], [bad], [good]];
    var outcomes := RowOutcomes(rows);
    assert rows[0] == [] && rows[1] == [bad] && rows[2] == [good];
    assert outcomes[0] == None && outcomes[1] == None && outcomes[2] == Some(d);
  }

  /** `parse_csv_data` keeps the documents of the per-row outcomes. */
  lemma ParseCsvDataCollects(rows: seq<seq<string>>)
    ensures ParseCsvData(rows) == Somes(RowOutcomes(rows))
  {
  }

  lemma OnlyThirdSome<T>(x: T)
    ensures Somes([None, None, Some(x)]) == [x]
  {
    var none: Option<T> := None;
    var xs := [none, none, Some(x)];
    assert xs[..2] == [none, none];
    assert [none, none][..1] == [none];
    assert [none][..0] == [];
    assert Somes([none]) == [];
    assert Somes([none, none]) == [];
    assert Somes(xs) == [] + [x];
  }

  /** Row numbers count every row after the header: an empty row and a
      dropped row still use up numbers 1 and 2, so the only document is
      "company_3". */
  lemma DroppedRowsLeaveIdGaps()
    ensures ParseCsvData([[], [Join(QuoteAll(Fields), ",")], [Quote(Join(QuoteAll(Fields), ","))]])
      == [AcmeDocument.(id := "company_3")]
  {
    SinglyWrappedRowIsDropped(2);
    DoublyWrappedRowYieldsDocument(3);
    ThirdId();
    OnlyThirdRowYields(Join(QuoteAll(Fields), ","), Quote(Join(QuoteAll(Fields), ",")), AcmeDocument.(id := "company_3"));
  }

}
