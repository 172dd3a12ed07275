/**
 Building search documents from rows (lines 69-70 and 104-129): each row
 is numbered from 1, whether or not it yields a document; a row yields one
 when its first cell parses into at least three fields.
 */
module Documents {
  import opened Wrappers
  import opened Decimal
  import opened Positions
  import opened RowParser
  import opened Collections

  datatype Document = Document(
    id: string,
    companyName: string,
    location: string,
    openPositions: nat,
    hasPositions: bool
  )

  const IdPrefix: string := "company_"

  /** `f"company_{row_num}"`. */
  function DocumentId(rowNum: nat): (id: string)
    ensures |id| > |IdPrefix| && id[..|IdPrefix|] == IdPrefix
  {
    IdPrefix + Numeral(rowNum)
  }

  predicate IsDocumentId(id: string) {
    |id| > |IdPrefix| && id[..|IdPrefix|] == IdPrefix && AllDigits(id[|IdPrefix|..])
  }

  /** The row number an id was built from. */
  function RowNumberOf(id: string): nat
    requires IsDocumentId(id)
  {
    Value(id[|IdPrefix|..])
  }

  /** An id names its row: reading the number back gives the row number, so
      different rows never share an id. */
  lemma DocumentIdRoundTrip(rowNum: nat)
    ensures IsDocumentId(DocumentId(rowNum))
    ensures RowNumberOf(DocumentId(rowNum)) == rowNum
  {
    assert DocumentId(rowNum)[|IdPrefix|..] == Numeral(rowNum);
    ValueNumeral(rowNum);
  }

  /** Lines 104-127: no document for fewer than three fields; otherwise the
      first two fields verbatim, the positions count read from the third, the
      id from the row number, and `has_positions` exactly when the count is
      positive. Fields after the third play no part. */
  function BuildDocument(fields: seq<string>, rowNum: nat): (doc: Option<Document>)
    ensures doc.None? <==> |fields| < 3
    ensures doc.Some? ==>
      && doc.value.id == DocumentId(rowNum)
      && doc.value.companyName == fields[0]
      && doc.value.location == fields[1]
      && doc.value.openPositions == (var run := FirstDigitRun(fields[2]); if |run| <= MaxStrDigits then Value(run) else 0)
      && (doc.value.hasPositions <==> doc.value.openPositions > 0)
  {
    if |fields| >= 3 then
      var n := OpenPositions(fields[2]);
      Some(Document(DocumentId(rowNum), fields[0], fields[1], n, n > 0))
    else
      None
  }

  /** Extra fields after the third do not change the document. */
  lemma BuildDocumentIgnoresExtraFields(fields: seq<string>, extra: seq<string>, rowNum: nat)
    requires |fields| >= 3
    ensures BuildDocument(fields + extra, rowNum) == BuildDocument(fields, rowNum)
  {
    assert (fields + extra)[..3] == fields[..3];
  }

  /** One row of the CSV reader: only its first cell is used, and a row with
      no cell yields nothing. */
  function RowDocument(row: seq<string>, rowNum: nat): (doc: Option<Document>)
    ensures |row| == 0 ==> doc.None?
    ensures |row| >= 1 ==> (doc.Some? <==> |ParseCell(row[0])| >= 3)
    ensures doc.Some? ==> doc.value.id == DocumentId(rowNum)
  {
    if |row| >= 1 then BuildDocument(ParseCell(row[0]), rowNum) else None
  }

  /** What each row after the header yields, numbered from 1 as
      `enumerate(csv_reader, start=1)` does. */
  function RowOutcomes(rows: seq<seq<string>>): (outcomes: seq<Option<Document>>)
    ensures |outcomes| == |rows|
    ensures forall i :: 0 <= i < |rows| ==> outcomes[i] == RowDocument(rows[i], i + 1)
  {
    seq(|rows|, i requires 0 <= i < |rows| => RowDocument(rows[i], i + 1))
  }

  /** `parse_csv_data` on the rows after the header (lines 69-131): the
      documents of the rows that yield one, in row order. Every document comes
      from the row its id names, which yields exactly that document; ids
      strictly increase in row order, so they are distinct; and every row that
      yields a document contributes it. */
  function ParseCsvData(rows: seq<seq<string>>): (docs: seq<Document>)
    ensures |docs| <= |rows|
    ensures forall k :: 0 <= k < |docs| ==> IsDocumentId(docs[k].id)
    ensures forall k :: 0 <= k < |docs| ==>
      var n := RowNumberOf(docs[k].id);
      1 <= n <= |rows| && RowDocument(rows[n - 1], n) == Some(docs[k])
    ensures forall i, j :: 0 <= i < j < |docs| ==> RowNumberOf(docs[i].id) < RowNumberOf(docs[j].id)
    ensures forall i, j :: 0 <= i < j < |docs| ==> docs[i].id != docs[j].id
    ensures forall i :: 0 <= i < |rows| && RowDocument(rows[i], i + 1).Some? ==>
      RowDocument(rows[i], i + 1).value in docs
  {
    var outcomes := RowOutcomes(rows);
    CollectedDocuments(outcomes);
    Somes(outcomes)
  }

  /** The documents collected from per-row outcomes, where the row at
      position `i` can only yield a document with id `company_{i + 1}`. */
  lemma CollectedDocuments(outcomes: seq<Option<Document>>)
    requires forall i :: 0 <= i < |outcomes| && outcomes[i].Some? ==> outcomes[i].value.id == DocumentId(i + 1)
    ensures var docs := Somes(outcomes);
      && |docs| <= |outcomes|
      && (forall k :: 0 <= k < |docs| ==>
            && IsDocumentId(docs[k].id)
            && 1 <= RowNumberOf(docs[k].id) <= |outcomes|
            && outcomes[RowNumberOf(docs[k].id) - 1] == Some(docs[k]))
      && (forall i, j :: 0 <= i < j < |docs| ==> RowNumberOf(docs[i].id) < RowNumberOf(docs[j].id))
      && (forall i :: 0 <= i < |outcomes| && outcomes[i].Some? ==> outcomes[i].value in docs)
  {
    var docs := Somes(outcomes);
    var ps := SomeIndices(outcomes);
    IncreasingBelow(ps, |outcomes|);
    forall k | 0 <= k < |docs|
      ensures IsDocumentId(docs[k].id) && RowNumberOf(docs[k].id) == ps[k] + 1
    {
      assert outcomes[ps[k]] == Some(docs[k]);
      DocumentIdRoundTrip(ps[k] + 1);
    }
    forall i | 0 <= i < |outcomes| && outcomes[i].Some?
      ensures outcomes[i].value in docs
    {
      var k :| 0 <= k < |ps| && ps[k] == i;
      assert outcomes[ps[k]] == Some(docs[k]);
    }
  }

}
