# Row ingestion of the company search setup script

This project is a Dafny model of the part of `setup_typesense.py` that turns the
rows of the companies CSV file into search documents, `parse_csv_data`, and of
the batch loop of `import_data` that sends those documents to the search
service in slices of 50. It also proves properties of the model.

The source data uses a nonstandard quoting convention. A row's first cell is a
whole record: quoted sub-fields separated by commas, wrapped in one more pair of
quotes. `parse_csv_data` handles it in four stages, each modelled as a pure
function:

1. **Outer strip** (`Text.Unquote`). A cell that starts and ends with `"` loses
   one character at each end. A lone `"` becomes empty.
2. **Field scanner** (`Scanner`). A two-state machine walks the cell once. A
   quote toggles "inside quotes" and is kept in the field. A comma outside
   quotes closes the current field, which is trimmed and kept even when empty.
   The last accumulator is emitted only if it is non-empty before trimming.
3. **Field cleanup** (`RowParser.Cleanup`). Each field loses one wrapping pair
   of quotes.
4. **Document builder** (`Documents`). A row with at least three fields becomes
   a document:
   - the company name and location are fields 0 and 1;
   - `open_positions` is the first run of digits in field 2, read as a number,
     or 0 when `int()` refuses the run because it has more than 4300 digits;
   - the id is `company_<row number>`, where rows are numbered from 1 after
     the header.

The scanner is also described a second way that does not mention the machine.
A comma is a *separator* when an even number of quotes precedes it. The raw
fields are the text cut at the separators. `Scanner.RunMatchesPieces` proves
that the machine computes exactly this description.

Modules, in dependency order:

| module | file | contents |
|---|---|---|
| `Wrappers` | `wrappers.dfy` | `Option` |
| `Text` | `text.dfy` | Python `isspace`, `strip()`, the guarded `s[1:-1]` |
| `Decimal` | `decimal.dfy` | ASCII digits, `int()` of a digit string, `str()` of a natural |
| `Positions` | `positions.dfy` | the first digit run and `open_positions` |
| `Collections` | `collections.dfy` | the values and positions of the `Some` entries of a sequence |
| `Scanner` | `scanner.dfy` | the quote-toggling scanner and its reference description |
| `RowParser` | `row_parser.dfy` | outer strip, scanner and cleanup of one cell |
| `Documents` | `documents.dfy` | documents and ids, `parse_csv_data` over all rows |
| `Batching` | `batching.dfy` | the slices of 50 and the import loop |
| `Scenarios` | `scenarios.dfy` | worked rows |

Three behaviours of the code are easy to miss when reading its comments. The
comment at lines 71-72 says a row is a single quoted string. The comment at
line 97 says the cleanup removes quotes. The code behaves as follows, and the
model follows the code:

- **Quotes stay in the fields.** The quote branch at lines 85-86 falls through
  to line 91, so quote characters are kept in the accumulator. Only the
  cleanup at lines 98-102 removes one wrapping pair.
- **The last field is checked for emptiness before trimming.** At line 94 a trailing `", "`
  yields a final empty field. A trailing `","` yields nothing.
- **A once-wrapped cell collapses.** Take the cell `"Acme Corp","Da Nang","3
  open positions"`, whose quoted fields carry no extra outer pair.
  - The outer strip removes its first and last quote.
  - The remaining quotes then pair up around the commas, so every comma is
    inside quotes.
  - The cell scans to a single field and the row yields no document.
  - The doubly wrapped cell `""Acme Corp","Da Nang","3 open positions""`
    does yield the document with those three fields.
  - `Scenarios.SinglyWrappedRowIsDropped` and
    `Scenarios.DoublyWrappedRowYieldsDocument` state both cases.

## Model

| member | source | states |
|---|---|---|
| `Text.Strip` | setup_typesense.py:88 | the result has no whitespace at either end, and the input is the result with only whitespace before and after it |
| `Text.StripUnpads` | setup_typesense.py:88 | trimming a text that is whitespace, then a text with non-space ends, then whitespace gives back exactly the middle text |
| `Text.Unquote` | setup_typesense.py:76-77 | a cell that starts and ends with a quote loses exactly one quote at each end, and a lone quote becomes empty; any other cell is unchanged |
| `Text.UnquoteQuote` | setup_typesense.py:100-101 | removing a wrapping pair of quotes undoes adding one |
| `Decimal.Value` | setup_typesense.py:117 | `int()` of a digit string is below 10 to the power of its length; `Decimal.ValueNumeral` proves it inverts `Decimal.Numeral` |
| `Decimal.Numeral` | setup_typesense.py:122 | the decimal spelling of a row number is a non-empty digit string with no leading zero; `Decimal.ValueNumeral` proves `int()` reads it back |
| `Decimal.ParseInt` | setup_typesense.py:117-119 | `int()` of a digit run succeeds exactly when the run has at most 4300 digits, and then gives the run's value; otherwise it raises `ValueError` |
| `Decimal.NumeralLength` | setup_typesense.py:117 | a number below 10 to the power `k` is spelt with at most `k` digits |
| `Decimal.ParseIntNumeral` | setup_typesense.py:117 | `int()` reads back the spelling of any number below 10 to the power 4300 |
| `Decimal.ValueNumeral` | setup_typesense.py:117 | reading the decimal digits of a number back gives the number |
| `Decimal.NumeralInjective` | setup_typesense.py:122 | different row numbers have different decimal spellings |
| `Positions.FirstDigitRun` | setup_typesense.py:115-117 | the first match of `\d+` is all digits, and it is empty exactly when the text has no digit |
| `Positions.FirstDigitRunSplit` | setup_typesense.py:115-117 | a text that splits into a digit-free prefix, a non-empty digit run and a rest that does not start with a digit has that run as its first match |
| `Positions.OpenPositions` | setup_typesense.py:110-119 | `open_positions` is 0 for the empty text, for "0 open positions" and for a text with no digit; in every case it is the value of the first digit run when that run has at most 4300 digits and 0 when it is longer, so the short cut at line 111 never changes the result |
| `Positions.OpenPositionsOfNumeral` | setup_typesense.py:109-117 | a number below 10 to the power 4300, written between a digit-free prefix and a non-digit suffix, is read back as that number |
| `Positions.OverlongRunGivesZero` | setup_typesense.py:115-119 | a first digit run of more than 4300 digits makes `int()` raise, and the handler sets `open_positions` to 0 |
| `Positions.OpenPositionsLeadingDigit` | setup_typesense.py:110-117 | a text opening with one digit and then a non-digit yields that digit's value |
| `Scanner.Step` | setup_typesense.py:85-91 | a quote flips `in_quotes`; only a comma outside quotes closes a field, appending one trimmed field and emptying the accumulator; every other character, quotes included, is appended to the accumulator; `Scanner.RunMatchesPieces` lifts this to whole texts |
| `Scanner.Finish` | setup_typesense.py:94-95 | the fields gain one more entry exactly when the accumulator is non-empty before trimming, earlier fields are kept, and trimmed fields stay trimmed |
| `Scanner.Run` | setup_typesense.py:84-91 | the loop only appends to `fields`, and every field it appends is trimmed |
| `Scanner.Separators` | setup_typesense.py:85-90 | the commas that close a field are exactly the commas preceded by an even number of quotes, listed in increasing order |
| `Scanner.PiecesJoin` | setup_typesense.py:84-91 | the raw accumulators joined with commas rebuild the text: every character other than a separating comma, quotes included, lands in some accumulator, in order |
| `Scanner.RunMatchesPieces` | setup_typesense.py:84-91 | after reading any text, `in_quotes` says whether an odd number of quotes was read, the accumulator is the text after the last separator, and `fields` holds the trimmed earlier pieces, one per separator |
| `Scanner.SplitFields` | setup_typesense.py:80-95 | every field is trimmed and the empty text yields no field; `Scanner.SplitFieldsSpec` and `Scanner.SplitFieldsCount` state which fields come out |
| `Scanner.SplitFieldsSpec` | setup_typesense.py:80-95 | the fields are the trimmed pieces between separators, kept even when empty, plus the trimmed last piece only when it is non-empty before trimming |
| `Scanner.SplitFieldsCount` | setup_typesense.py:84-95 | there is one field per separator, plus one when the last piece is non-empty before trimming, and no field has whitespace at either end |
| `Scanner.TrailingSeparator` | setup_typesense.py:87-95 | a text ending in a separating comma yields one field per piece before it and no final empty field |
| `Scanner.TrailingSeparatorSpace` | setup_typesense.py:88-95 | a text ending in a separating comma followed by a space yields a final empty field |
| `RowParser.Cleanup` | setup_typesense.py:98-102 | cleanup keeps the number and order of fields, leaves fields without a wrapping pair of quotes unchanged, and removes exactly one quote from each end of the others |
| `RowParser.ParseCell` | setup_typesense.py:73-102 | the cleanup keeps the scanner's field count, and a cell that is empty after the outer strip yields no field; `RowParser.ParseCellRoundTrip` and `RowParser.ParseCellFieldCount` state what comes out |
| `RowParser.ParseCellFieldCount` | setup_typesense.py:76-102 | a cell yields one field per separator of its unwrapped text, plus one when the text after the last separator is non-empty |
| `RowParser.ParseCellRoundTrip` | setup_typesense.py:76-102 | quoting any list of quote-free fields, the empty list included, joining them with commas and wrapping the whole in one more pair of quotes gives a cell that parses back to those fields, including fields with commas and spaces inside |
| `RowParser.UnwrappedQuotedFieldsCollapse` | setup_typesense.py:76-102 | two or more quoted fields without quotes or commas inside, joined by commas with no extra outer pair of quotes, parse to a single field |
| `Documents.DocumentId` | setup_typesense.py:122 | an id starts with `company_` and has at least one character after it; `Documents.DocumentIdRoundTrip` proves the row number can be read back |
| `Documents.DocumentIdRoundTrip` | setup_typesense.py:122 | an id is `company_` followed by digits, and reading those digits back gives the row number it was built from |
| `Documents.BuildDocument` | setup_typesense.py:104-127 | a document is built exactly when there are at least three fields; it has the row's id, fields 0 and 1 as name and location, the value of the first digit run of field 2 as `open_positions` when that run has at most 4300 digits and 0 otherwise, and `has_positions` exactly when that is positive |
| `Documents.BuildDocumentIgnoresExtraFields` | setup_typesense.py:104-107 | fields after the third do not change the document |
| `Documents.RowDocument` | setup_typesense.py:70-107 | a row with no cell yields nothing; otherwise a document comes exactly when the first cell parses to at least three fields, and it carries the row's id |
| `Documents.ParseCsvData` | setup_typesense.py:60-131 | every document comes from the row its id names, which yields exactly that document; ids strictly increase in row order, so they are distinct; no row that yields a document is missed; and there are at most as many documents as rows |
| `Batching.BatchCount` | setup_typesense.py:164 | the number of offsets in `range(0, n, 50)`: the smallest count whose batches of 50 cover `n` documents |
| `Batching.Batch` | setup_typesense.py:165 | batch `k` holds at most 50 documents, is non-empty exactly when `k` is below the batch count, and holds the documents from offset `50 k` on, in order |
| `Batching.Slice` | setup_typesense.py:165 | Python slicing with bounds clamped to the length: the length of the clamped range, and the elements starting at the lower bound |
| `Batching.Batches` | setup_typesense.py:164-165 | there are `ceil(n / 50)` batches; all but the last hold 50 documents and the last holds 1 to 50; concatenated they give back the documents in order |
| `Batching.NextBatch` | setup_typesense.py:164-167 | each iteration sends the next batch in order and extends the imported prefix by that batch's length |
| `Batching.LastBatch` | setup_typesense.py:164-171 | when the offset passes the end, every batch has been sent and `total_imported` equals the number of documents |
| `Batching.ImportedPrefix` | setup_typesense.py:164-167 | the first `m` batches hold exactly the first `50 m` documents, or all of them, so `total_imported` counts the documents sent |
| `Batching.ImportData` | setup_typesense.py:161-175 | the sent batches are the first batches in order, each one accepted, and `total_imported` is the smaller of 50 per sent batch and the number of documents; the import succeeds exactly when every batch is accepted, and then all documents were imported; otherwise the first rejected batch is the one after those sent |
| `Scenarios.PositionsExamples` | setup_typesense.py:109-117 | "0 open positions" and "" give 0, and "2 open positions" gives 2 |
| `Scenarios.OverlongCountHasNoPositions` | setup_typesense.py:112-127 | a positions text of 4301 digits gives `open_positions` 0 and `has_positions` false |
| `Scenarios.BuildAcme` | setup_typesense.py:104-127 | the fields "Acme Corp", "Da Nang", "3 open positions" on row 1 give `company_1` with 3 open positions |
| `Scenarios.DoublyWrappedRowYieldsDocument` | setup_typesense.py:73-127 | the doubly wrapped Acme cell yields the Acme document with the id of its row |
| `Scenarios.SinglyWrappedRowIsDropped` | setup_typesense.py:76-107 | the once-wrapped Acme cell, built from the fields and written out as a literal, yields no document |
| `Scenarios.DroppedRowsLeaveIdGaps` | setup_typesense.py:69-129 | an empty row and a dropped row still use up row numbers 1 and 2, so the only document is `company_3` |

## Left out

- File access and `csv.reader` (lines 64-67) are not modelled. The input is the sequence of rows after the header. Each row is a sequence of cells, and only the first cell is used.
- The search service calls are not modelled, because they are calls to an external service. This covers collection delete and create, the `import_` call, search, and the connection retry loop with its sleeps. In `ImportData` the service's answer to batch `k` is the parameter `accepts(k)`, and a rejection stands for the exception that ends the loop.
- Batching.ImportData: per-document failures that `import_` reports in its return value without raising are not modelled. Progress printing is not modelled either.
- The configuration read from the environment and the constant collection schema are not modelled, because they hold no logic.
- `semantic_natural_demo.py` and `serve_demo_docker.py` are not part of this model. They are canned queries, printing and HTTP plumbing.
- Positions.FirstDigitRun: reads ASCII digits only. Python's `\d` also matches other Unicode decimal digits, and `int()` accepts them.
- Text.Strip: trims the characters Python's `str.isspace` accepts, written out as a fixed set. This set is Python's Unicode whitespace table, not a derivation of it.
- Decimal.ParseInt: assumes CPython's default limit of 4300 digits for `int()` of a string, which CPython has enforced since 3.11 and in the security releases that backported it. An interpreter without the limit, or one whose limit was changed through `PYTHONINTMAXSTRDIGITS` or `sys.set_int_max_str_digits`, is not modelled. The `IndexError` branch of the handler at lines 118-119 cannot be reached, because `numbers[0]` is read only when `numbers` is non-empty.
- Python's `int` is unbounded, so `open_positions` and row numbers are `nat`. No integer width is modelled.
