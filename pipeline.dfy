/** `main`: read the input rows, drop an optional header, look up every
    data row's identifier, and collect the output table that is then written
    as CSV. The lookup is a parameter `fetch`; the file is a parameter
    `Input` holding the rows the CSV reader yields. */
module Pipeline {
  import opened Text

  type Row = seq<string>

  /** The three cells a lookup fills in, already as text. */
  datatype Book = Book(title: string, publisher: string, price: string)

  /** The header row written before any data row. */
  const OutputHeader: Row := ["isbn", "title", "publisher", "PriceAmount"]

  /** The input file as the CSV reader sees it: it cannot be opened, or it
      yields `rows` and then either ends or, when `fault` holds, raises
      (a decoding or read error) instead of ending. */
  datatype Input =
    | Unopenable
    | Readable(rows: seq<Row>, fault: bool)

  /** Why the read block was left through its exception handler. */
  datatype ReadError =
    | CannotOpen        // open() raised
    | NoFirstRow        // next(reader) raised StopIteration on an empty file
    | EmptyFirstRow     // process_row[0] raised IndexError
    | ReadFailed        // the reader raised part way through

  /** How the run ends: the table is written and the exit status is 0, or
      the error is logged and the exit status is 1 with nothing written. */
  datatype Exit =
    | Written(table: seq<Row>)
    | Exit1(error: ReadError)

  /** What a run does: the identifiers it looked up, in order (each one also
      logged as "Processing started"), and how it ends. */
  datatype Outcome = Outcome(lookups: seq<string>, exit: Exit)

  /** The first cell, trimmed and lower-cased, is "isbn" or "id". */
  predicate IsHeaderCell(cell: string) {
    var key := Lower(Strip(cell));
    key == "isbn" || key == "id"
  }

  /** The test applied to the first row only: it is non-empty and its first
      cell names a header. */
  predicate IsHeaderRow(row: Row) {
    |row| > 0 && IsHeaderCell(row[0])
  }

  /** The output row for one processed input row. */
  function OutputRow(row: Row, fetch: string -> Book): (r: Row)
    requires |row| > 0
    ensures |r| == 4 && r[0] == Strip(row[0])
    ensures fetch(r[0]) == Book(r[1], r[2], r[3])
  {
    var isbn := Strip(row[0]);
    var book := fetch(isbn);
    [isbn, book.title, book.publisher, book.price]
  }

  /** The rows whose output and lookups follow the header decision: the
      first row unless it is a header, then all the others. */
  function Processed(rows: seq<Row>): (r: seq<Row>)
    requires |rows| > 0
    ensures IsHeaderRow(rows[0]) ==> r == rows[1..]
    ensures !IsHeaderRow(rows[0]) ==> r == rows
  {
    (if IsHeaderRow(rows[0]) then [] else [rows[0]]) + rows[1..]
  }

  /** The output rows appended for `rows`, in order: one per non-empty
      row, none for an empty one. */
  function Records(rows: seq<Row>, fetch: string -> Book): seq<Row> {
    if rows == [] then []
    else (if rows[0] == [] then [] else [OutputRow(rows[0], fetch)]) + Records(rows[1..], fetch)
  }

  /** The identifiers looked up for `rows`, in order. */
  function Lookups(rows: seq<Row>): seq<string> {
    if rows == [] then []
    else (if rows[0] == [] then [] else [Strip(rows[0][0])]) + Lookups(rows[1..])
  }

  /** A run of `main` on `input`, as one value. */
  function Run(input: Input, fetch: string -> Book): (r: Outcome)
    ensures r.exit.Written? ==> |r.exit.table| >= 1 && r.exit.table[0] == OutputHeader
    ensures r.exit.Written? || r.exit == Exit1(ReadFailed) || r.lookups == []
  {
    match input
    case Unopenable => Outcome([], Exit1(CannotOpen))
    case Readable(rows, fault) =>
      if rows == [] then Outcome([], Exit1(if fault then ReadFailed else NoFirstRow))
      else if rows[0] == [] then Outcome([], Exit1(EmptyFirstRow))
      else
        var lookups := Lookups(Processed(rows));
        if fault then Outcome(lookups, Exit1(ReadFailed))
        else Outcome(lookups, Written([OutputHeader] + Records(Processed(rows), fetch)))
  }

  /** The steps `main` takes for each processed row: trim the first cell,
      log it, look it up, and build the output row. */
  method ProcessRow(row: Row, fetch: string -> Book) returns (isbn: string, outputRow: Row)
    requires |row| > 0
    ensures isbn == Strip(row[0]) && outputRow == OutputRow(row, fetch)
  {
    isbn := Strip(row[0]);
    outputRow := OutputRow(row, fetch);
  }

  /** One turn of the loop: the row at `i` adds its output row and lookup,
      if any, after those of the rows before it. */
  lemma PrefixStep(rest: seq<Row>, i: nat, fetch: string -> Book)
    requires i < |rest|
    ensures Records(rest[..i + 1], fetch) ==
      Records(rest[..i], fetch) + (if rest[i] == [] then [] else [OutputRow(rest[i], fetch)])
    ensures Lookups(rest[..i + 1]) ==
      Lookups(rest[..i]) + (if rest[i] == [] then [] else [Strip(rest[i][0])])
  {
    assert rest[..i + 1] == rest[..i] + [rest[i]];
    RecordsAppend(rest[..i], [rest[i]], fetch);
    LookupsAppend(rest[..i], [rest[i]]);
    assert [rest[i]][1..] == [];
  }

  /** The loop over the rows after the first: empty rows are skipped, every
      other row is processed and its output row appended. */
  method ProcessRemaining(rest: seq<Row>, fetch: string -> Book, outputRows0: seq<Row>, lookups0: seq<string>)
    returns (outputRows: seq<Row>, lookups: seq<string>)
    ensures outputRows == outputRows0 + Records(rest, fetch)
    ensures lookups == lookups0 + Lookups(rest)
  {
    outputRows, lookups := outputRows0, lookups0;
    var i := 0;
    while i < |rest|
      invariant 0 <= i <= |rest|
      invariant outputRows == outputRows0 + Records(rest[..i], fetch)
      invariant lookups == lookups0 + Lookups(rest[..i])
    {
      var row := rest[i];
      PrefixStep(rest, i, fetch);
      if |row| > 0 {
        var isbn, outputRow := ProcessRow(row, fetch);
        lookups := lookups + [isbn];
        outputRows := outputRows + [outputRow];
      }
      i := i + 1;
    }
    assert rest[..i] == rest;
  }

  /** The body of `main` from building `output_rows` to the exception
      handler: the header is appended first, the first row is either
      skipped as a header or processed, and the loop processes the rest. */
  method ConvertList(input: Input, fetch: string -> Book) returns (outcome: Outcome)
    ensures outcome == Run(input, fetch)
  {
    var outputRows: seq<Row> := [OutputHeader];
    var lookups: seq<string> := [];
    if input.Unopenable? {
      return Outcome([], Exit1(CannotOpen));
    }
    var rows := input.rows;
    if |rows| == 0 {
      return Outcome([], Exit1(if input.fault then ReadFailed else NoFirstRow));
    }
    var firstRow := rows[0];
    var rest := rows[1..];
    assert Processed(rows) == (if IsHeaderRow(firstRow) then [] else [firstRow]) + rest;
    if |firstRow| > 0 && IsHeaderCell(firstRow[0]) {
      // a header: skipped
      assert Processed(rows) == rest;
    } else {
      if |firstRow| == 0 {
        return Outcome([], Exit1(EmptyFirstRow));
      }
      var isbn, outputRow := ProcessRow(firstRow, fetch);
      lookups := lookups + [isbn];
      outputRows := outputRows + [outputRow];
      assert ([firstRow] + rest)[1..] == rest;
      assert Records(Processed(rows), fetch) == [OutputRow(firstRow, fetch)] + Records(rest, fetch);
      assert Lookups(Processed(rows)) == [isbn] + Lookups(rest);
    }
    assert outputRows + Records(rest, fetch) == [OutputHeader] + Records(Processed(rows), fetch);
    assert lookups + Lookups(rest) == Lookups(Processed(rows));
    outputRows, lookups := ProcessRemaining(rest, fetch, outputRows, lookups);
    if input.fault {
      return Outcome(lookups, Exit1(ReadFailed));
    }
    return Outcome(lookups, Written(outputRows));
  }

  /** The rows that are processed, in order: the non-empty ones. */
  function NonEmpty(rows: seq<Row>): (r: seq<Row>)
    ensures |r| <= |rows|
    ensures forall k :: 0 <= k < |r| ==> r[k] != []
  {
    if rows == [] then []
    else (if rows[0] == [] then [] else [rows[0]]) + NonEmpty(rows[1..])
  }

  /** The output rows for `rows` (one per non-empty row, built by
      `OutputRow`), as a reference definition. */
  function MappedRows(rows: seq<Row>, fetch: string -> Book): (r: seq<Row>)
    ensures |r| == |NonEmpty(rows)|
  {
    MapRows(NonEmpty(rows), fetch)
  }

  /** Every row of `d` mapped through `OutputRow`, position by position. */
  function MapRows(d: seq<Row>, fetch: string -> Book): (r: seq<Row>)
    requires forall k :: 0 <= k < |d| ==> d[k] != []
    ensures |r| == |d|
  {
    seq(|d|, k requires 0 <= k < |d| => OutputRow(d[k], fetch))
  }

  lemma MapRowsCons(x: Row, d: seq<Row>, fetch: string -> Book)
    requires x != [] && forall k :: 0 <= k < |d| ==> d[k] != []
    ensures MapRows([x] + d, fetch) == [OutputRow(x, fetch)] + MapRows(d, fetch)
  {
    var m := MapRows([x] + d, fetch);
    var tail := MapRows(d, fetch);
    assert forall k :: 1 <= k < |m| ==> ([x] + d)[k] == d[k - 1];
    assert forall k :: 1 <= k < |m| ==> m[k] == tail[k - 1];
  }

  /** The filter keeps every non-empty row and nothing else. */
  lemma {:induction false} NonEmptyKeeps(rows: seq<Row>)
    ensures forall x :: x in NonEmpty(rows) <==> x in rows && x != []
  {
    if rows != [] {
      NonEmptyKeeps(rows[1..]);
      assert rows == [rows[0]] + rows[1..];
    }
  }

  /** One output row and one lookup per non-empty row. */
  lemma {:induction false} RecordsCount(rows: seq<Row>, fetch: string -> Book)
    ensures |Records(rows, fetch)| == |NonEmpty(rows)|
    ensures |Lookups(rows)| == |NonEmpty(rows)|
  {
    if rows != [] {
      RecordsCount(rows[1..], fetch);
    }
  }

  /** Filtering distributes over concatenation: the non-empty rows of
      `a + b` are those of `a`, in order, followed by those of `b`. */
  lemma {:induction false} NonEmptyAppend(a: seq<Row>, b: seq<Row>)
    ensures NonEmpty(a + b) == NonEmpty(a) + NonEmpty(b)
  {
    if a == [] {
      assert a + b == b;
    } else {
      assert (a + b)[0] == a[0];
      assert (a + b)[1..] == a[1..] + b;
      NonEmptyAppend(a[1..], b);
    }
  }

  /** Appending rows to the input appends their output rows: earlier
      output rows are never changed. */
  lemma {:induction false} RecordsAppend(a: seq<Row>, b: seq<Row>, fetch: string -> Book)
    ensures Records(a + b, fetch) == Records(a, fetch) + Records(b, fetch)
  {
    if a == [] {
      assert a + b == b;
    } else {
      assert (a + b)[0] == a[0];
      assert (a + b)[1..] == a[1..] + b;
      RecordsAppend(a[1..], b, fetch);
      var head := if a[0] == [] then [] else [OutputRow(a[0], fetch)];
      calc {
        Records(a + b, fetch);
        head + Records(a[1..] + b, fetch);
        head + (Records(a[1..], fetch) + Records(b, fetch));
        (head + Records(a[1..], fetch)) + Records(b, fetch);
      }
    }
  }

  /** Appending rows to the input appends their lookups after the earlier
      ones. */
  lemma {:induction false} LookupsAppend(a: seq<Row>, b: seq<Row>)
    ensures Lookups(a + b) == Lookups(a) + Lookups(b)
  {
    if a == [] {
      assert a + b == b;
    } else {
      assert (a + b)[0] == a[0];
      assert (a + b)[1..] == a[1..] + b;
      LookupsAppend(a[1..], b);
      var head := if a[0] == [] then [] else [Strip(a[0][0])];
      calc {
        Lookups(a + b);
        head + Lookups(a[1..] + b);
        head + (Lookups(a[1..]) + Lookups(b));
        (head + Lookups(a[1..])) + Lookups(b);
      }
    }
  }

  /** The loop's output rows are exactly the non-empty rows mapped through
      `OutputRow`, in input order. */
  lemma {:induction false} RecordsAreMappedRows(rows: seq<Row>, fetch: string -> Book)
    ensures Records(rows, fetch) == MappedRows(rows, fetch)
  {
    if rows != [] {
      RecordsAreMappedRows(rows[1..], fetch);
      MappedRowsStep(rows, fetch);
    }
  }

  /** The reference definition, one row at a time. */
  lemma MappedRowsStep(rows: seq<Row>, fetch: string -> Book)
    requires rows != []
    ensures MappedRows(rows, fetch) ==
      (if rows[0] == [] then [] else [OutputRow(rows[0], fetch)]) + MappedRows(rows[1..], fetch)
  {
    if rows[0] != [] {
      assert NonEmpty(rows) == [rows[0]] + NonEmpty(rows[1..]);
      MapRowsCons(rows[0], NonEmpty(rows[1..]), fetch);
    } else {
      assert NonEmpty(rows) == NonEmpty(rows[1..]);
    }
  }

  /** The identifiers looked up are the first cells of the output rows, in
      the same order: one lookup per output row. */
  lemma {:induction false} LookupsAreFirstColumn(rows: seq<Row>, fetch: string -> Book)
    ensures |Lookups(rows)| == |Records(rows, fetch)|
    ensures forall k :: 0 <= k < |Lookups(rows)| ==>
      Records(rows, fetch)[k] != [] && Lookups(rows)[k] == Records(rows, fetch)[k][0]
  {
    if rows != [] {
      LookupsAreFirstColumn(rows[1..], fetch);
    }
  }

  /** How a run ends: the table is written exactly when the file opens, has
      a non-empty first row and reads to the end; every other case exits
      with status 1, for the reason given. */
  lemma ExitCases(input: Input, fetch: string -> Book)
    ensures Run(input, fetch).exit.Written? <==>
      input.Readable? && !input.fault && input.rows != [] && input.rows[0] != []
    ensures Run(input, fetch).exit == Exit1(CannotOpen) <==> input.Unopenable?
    ensures Run(input, fetch).exit == Exit1(NoFirstRow) <==> input == Readable([], false)
    ensures Run(input, fetch).exit == Exit1(EmptyFirstRow) <==>
      input.Readable? && input.rows != [] && input.rows[0] == []
    ensures Run(input, fetch).exit == Exit1(ReadFailed) <==>
      input.Readable? && input.fault && (input.rows == [] || input.rows[0] != [])
    ensures Run(input, fetch).exit in {Exit1(CannotOpen), Exit1(NoFirstRow), Exit1(EmptyFirstRow)} ==>
      Run(input, fetch).lookups == []
    ensures Run(input, fetch).exit == Exit1(ReadFailed) ==>
      Run(input, fetch).lookups == (if input.rows == [] then [] else Lookups(Processed(input.rows)))
  {
  }

  /** The written table starts with the fixed header; the first input row
      adds an output row exactly when it is not a header, and every later
      row adds one exactly when it is non-empty, header-like or not. */
  lemma TableShape(rows: seq<Row>, fetch: string -> Book)
    requires rows != [] && rows[0] != []
    ensures var t := Run(Readable(rows, false), fetch).exit.table;
      |t| >= 1 && t[0] == OutputHeader &&
      t[1..] == (if IsHeaderRow(rows[0]) then [] else [OutputRow(rows[0], fetch)])
                + MappedRows(rows[1..], fetch)
    ensures |Run(Readable(rows, false), fetch).exit.table| ==
      1 + (if IsHeaderRow(rows[0]) then 0 else 1) + |NonEmpty(rows[1..])|
  {
    var lead := if IsHeaderRow(rows[0]) then [] else [rows[0]];
    RecordsAppend(lead, rows[1..], fetch);
    RecordsAreMappedRows(rows[1..], fetch);
    if !IsHeaderRow(rows[0]) {
      assert Records(lead, fetch) == [OutputRow(rows[0], fetch)] + Records([], fetch);
    }
  }

  /** A non-empty row's output row sits after those of the non-empty rows
      before it. */
  lemma RecordPosition(rows: seq<Row>, j: nat, fetch: string -> Book)
    requires j < |rows| && rows[j] != []
    ensures |NonEmpty(rows[..j])| < |Records(rows, fetch)|
    ensures Records(rows, fetch)[|NonEmpty(rows[..j])|] == OutputRow(rows[j], fetch)
  {
    assert rows == rows[..j] + ([rows[j]] + rows[j + 1..]);
    RecordsAppend(rows[..j], [rows[j]] + rows[j + 1..], fetch);
    RecordsAreMappedRows(rows[..j], fetch);
    assert Records([rows[j]] + rows[j + 1..], fetch)[0] == OutputRow(rows[j], fetch);
  }

  /** A run that reads to the end writes the header and the processed rows'
      output rows. */
  lemma WrittenTable(rows: seq<Row>, fetch: string -> Book)
    requires rows != [] && rows[0] != []
    ensures Run(Readable(rows, false), fetch).exit ==
      Written([OutputHeader] + Records(Processed(rows), fetch))
  {
  }

  /** A later row whose first cell reads "isbn" is not taken for a header:
      each non-empty row after the first gets its output row, at the
      position fixed by the non-empty rows before it. */
  lemma LaterRowPosition(rows: seq<Row>, fetch: string -> Book, j: nat)
    requires rows != [] && rows[0] != []
    requires 1 <= j < |rows| && rows[j] != []
    ensures var t := Run(Readable(rows, false), fetch).exit.table;
      var at := 1 + (if IsHeaderRow(rows[0]) then 0 else 1) + |NonEmpty(rows[1..j])|;
      at < |t| && t[at] == OutputRow(rows[j], fetch)
  {
    WrittenTable(rows, fetch);
    ProcessedRecordPosition(rows, fetch, j);
  }

  /** Where a later row's output row sits among the processed rows'. */
  lemma ProcessedRecordPosition(rows: seq<Row>, fetch: string -> Book, j: nat)
    requires rows != [] && rows[0] != [] && 1 <= j < |rows| && rows[j] != []
    ensures var at := (if IsHeaderRow(rows[0]) then 0 else 1) + |NonEmpty(rows[1..j])|;
      at < |Records(Processed(rows), fetch)| &&
      Records(Processed(rows), fetch)[at] == OutputRow(rows[j], fetch)
  {
    if IsHeaderRow(rows[0]) {
      assert rows[1..][..j - 1] == rows[1..j];
      RecordPosition(rows[1..], j - 1, fetch);
    } else {
      assert rows[..j] == [rows[0]] + rows[1..j];
      assert NonEmpty(rows[..j]) == [rows[0]] + NonEmpty(rows[1..j]);
      RecordPosition(rows, j, fetch);
    }
  }

  /** A run that writes its table looked up exactly the identifiers in the
      table's first column, in the same order. */
  lemma LookupsMatchTable(input: Input, fetch: string -> Book)
    requires Run(input, fetch).exit.Written?
    ensures var t := Run(input, fetch).exit.table;
      |Run(input, fetch).lookups| == |t| - 1 &&
      forall k :: 1 <= k < |t| ==> t[k] != [] && Run(input, fetch).lookups[k - 1] == t[k][0]
  {
    LookupsAreFirstColumn(Processed(input.rows), fetch);
  }

  /** Rows read later only add output rows after the ones already there. */
  lemma LaterRowsOnlyAppend(rows: seq<Row>, more: seq<Row>, fetch: string -> Book)
    requires rows != [] && rows[0] != []
    ensures Run(Readable(rows + more, false), fetch).exit.table ==
      Run(Readable(rows, false), fetch).exit.table + MappedRows(more, fetch)
  {
    ProcessedAppend(rows, more);
    RecordsAppend(Processed(rows), more, fetch);
    RecordsAreMappedRows(more, fetch);
    var t := [OutputHeader] + Records(Processed(rows), fetch);
    assert [OutputHeader] + Records(Processed(rows + more), fetch) == t + Records(more, fetch);
  }

  /** Rows read later only add lookups after the ones already made. */
  lemma LaterRowsOnlyAddLookups(rows: seq<Row>, more: seq<Row>, fetch: string -> Book)
    requires rows != [] && rows[0] != []
    ensures Run(Readable(rows + more, false), fetch).lookups ==
      Run(Readable(rows, false), fetch).lookups + Lookups(more)
  {
    ProcessedAppend(rows, more);
    LookupsAppend(Processed(rows), more);
  }

  lemma ProcessedAppend(rows: seq<Row>, more: seq<Row>)
    requires rows != []
    ensures (rows + more)[0] == rows[0]
    ensures Processed(rows + more) == Processed(rows) + more
  {
    assert (rows + more)[1..] == rows[1..] + more;
  }

  /** The header test on every first row: it is non-empty and its first
      cell, once trimmed, spells "isbn" or "id" in any mix of case. */
  lemma HeaderRowIgnoresCase(row: Row)
    ensures IsHeaderRow(row) <==>
      |row| > 0 && (SpellsIgnoringCase(Strip(row[0]), "isbn") || SpellsIgnoringCase(Strip(row[0]), "id"))
  {
    if |row| > 0 {
      LowerIsWord(Strip(row[0]), "isbn");
      LowerIsWord(Strip(row[0]), "id");
    }
  }

  /** The header test ignores case and surrounding whitespace. */
  lemma PaddedUpperCaseIsHeader()
    ensures IsHeaderCell(" ISBN\t")
  {
    var s := " ISBN\t";
    assert SkipSpace(s, 1) == 1;
    assert SkipSpace(s, 0) == 1;
    assert SkipSpaceBack(s, 1, 5) == 5;
    assert SkipSpaceBack(s, 1, 6) == 5;
    assert Strip(s) == "ISBN";
    assert Lower("ISBN") == "isbn";
  }

  /** "id" in any case is a header. */
  lemma MixedCaseIdIsHeader()
    ensures IsHeaderCell("Id")
  {
    assert SkipSpace("Id", 0) == 0;
    assert SkipSpaceBack("Id", 0, 2) == 2;
    assert Strip("Id") == "Id";
    assert Lower("Id") == "id";
  }

  /** A header cell with more words is not recognised: "ISBN Code" is
      processed as an identifier. */
  lemma LongerHeaderIsData()
    ensures !IsHeaderCell("ISBN Code")
  {
    var s := "ISBN Code";
    assert SkipSpace(s, 0) == 0;
    assert SkipSpaceBack(s, 0, 9) == 9;
    assert Strip(s) == s;
    assert |Lower(s)| == |s| by { LowerPointwise(s); }
  }

  /** An identifier is never a header, and `strip` leaves it as it is. */
  lemma IdentifierIsData()
    ensures Strip("9784000000000") == "9784000000000"
    ensures !IsHeaderCell("9784000000000")
  {
    var s := "9784000000000";
    assert SkipSpace(s, 0) == 0;
    assert SkipSpaceBack(s, 0, 13) == 13;
    assert Strip(s) == s;
    assert |Lower(s)| == |s| by { LowerPointwise(s); }
  }

  /** The header spelled as the output writes it is recognised. */
  lemma LowerCaseIsbnIsHeader()
    ensures IsHeaderCell("isbn")
  {
    assert SkipSpace("isbn", 0) == 0;
    assert SkipSpaceBack("isbn", 0, 4) == 4;
    assert Strip("isbn") == "isbn";
    assert Lower("isbn") == "isbn";
  }

  /** A header row, then one identifier: the header is dropped and the
      identifier gets one output row with what the lookup returned, even
      when it reads "isbn" or "id" itself, since only the first row is
      tested. */
  lemma HeaderThenIdentifier(header: string, id: string, fetch: string -> Book)
    requires IsHeaderCell(header) && Strip(id) == id
    ensures Run(Readable([[header], [id]], false), fetch).exit ==
      Written([OutputHeader, [id, fetch(id).title, fetch(id).publisher, fetch(id).price]])
  {
    var rows := [[header], [id]];
    assert Processed(rows) == [[id]];
    assert Records([[id]], fetch) == [OutputRow([id], fetch)] + Records([], fetch);
  }

  /** One identifier and no header: it is processed like any later row. */
  lemma IdentifierOnly(id: string, fetch: string -> Book)
    requires !IsHeaderCell(id) && Strip(id) == id
    ensures Run(Readable([[id]], false), fetch).exit ==
      Written([OutputHeader, [id, fetch(id).title, fetch(id).publisher, fetch(id).price]])
  {
    var rows := [[id]];
    assert Processed(rows) == rows;
    assert Records(rows, fetch) == [OutputRow([id], fetch)] + Records([], fetch);
  }

  /** A header row and one identifier that the lookup resolves. */
  lemma HeaderAndOneRow(fetch: string -> Book)
    requires fetch("9784000000000") == Book("T", "P", "1000")
    ensures Run(Readable([["isbn"], ["9784000000000"]], false), fetch).exit ==
      Written([OutputHeader, ["9784000000000", "T", "P", "1000"]])
  {
    LowerCaseIsbnIsHeader();
    IdentifierIsData();
    HeaderThenIdentifier("isbn", "9784000000000", fetch);
  }

  /** One identifier, no header, that the lookup cannot resolve. */
  lemma NoHeaderUnresolved(fetch: string -> Book)
    requires fetch("9784000000000") == Book("", "", "")
    ensures Run(Readable([["9784000000000"]], false), fetch).exit ==
      Written([OutputHeader, ["9784000000000", "", "", ""]])
  {
    IdentifierIsData();
    IdentifierOnly("9784000000000", fetch);
  }
}
