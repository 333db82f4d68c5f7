/**
 The hand-written CSV scanner of the taxonomy bootstrap
 (scripts/p2-06-5-production/tagging-bootstrap.ts) against an independent printer for the
 format of section 2 of RFC 4180.
 */
module Csv {
  import opened Sequences
  import opened Wrappers

  type Row = seq<string>

  const BOM: char := '\U{FEFF}'

  /** The scanner's variables. */
  datatype Scan = Scan(matrix: seq<Row>, row: Row, field: string, quoted: bool)

  function Start(): Scan {
    Scan([], [], "", false)
  }

  function StripBom(text: string): string {
    if |text| > 0 && text[0] == BOM then text[1..] else text
  }

  function StripCr(field: string): string {
    if |field| > 0 && field[|field| - 1] == '\r' then field[..|field| - 1] else field
  }

  /** The scanner's loop from a given point on. */
  function Run(s: string, st: Scan): Scan
    decreases |s|
  {
    if s == "" then st
    else if st.quoted then
      if s[0] == '"' && |s| > 1 && s[1] == '"' then Run(s[2..], st.(field := st.field + "\""))
      else if s[0] == '"' then Run(s[1..], st.(quoted := false))
      else Run(s[1..], st.(field := st.field + [s[0]]))
    else if s[0] == '"' then Run(s[1..], st.(quoted := true))
    else if s[0] == ',' then Run(s[1..], st.(row := st.row + [st.field], field := ""))
    else if s[0] == '\n' then
      Run(s[1..], Scan(st.matrix + [st.row + [StripCr(st.field)]], [], "", false))
    else Run(s[1..], st.(field := st.field + [s[0]]))
  }

  /** After the last character: an open quote is an error, a pending row is kept. */
  function Finish(st: Scan): Option<seq<Row>> {
    if st.quoted then None
    else if |st.field| > 0 || |st.row| > 0 then Some(st.matrix + [st.row + [st.field]])
    else Some(st.matrix)
  }

  function Parse(text: string): Option<seq<Row>> {
    Finish(Run(StripBom(text), Start()))
  }

  /** `parseCsv` up to the matrix, character by character. */
  method ParseMatrix(text: string) returns (r: Option<seq<Row>>)
    ensures r == Parse(text)
  {
    var source := StripBom(text);
    var matrix: seq<Row>, row: Row, field: string, quoted := [], [], "", false;
    var index := 0;
    assert source[0..] == source;
    while index < |source|
      invariant 0 <= index <= |source|
      invariant Run(source[index..], Scan(matrix, row, field, quoted)) == Run(source, Start())
    {
      var character := source[index];
      ghost var rest := source[index..];
      assert rest[1..] == source[index + 1..];
      assert |rest| > 1 ==> rest[2..] == source[index + 2..] && rest[1] == source[index + 1];
      if quoted {
        if character == '"' && index + 1 < |source| && source[index + 1] == '"' {
          field := field + "\"";
          index := index + 1;
        } else if character == '"' {
          quoted := false;
        } else {
          field := field + [character];
        }
      } else if character == '"' {
        quoted := true;
      } else if character == ',' {
        row := row + [field];
        field := "";
      } else if character == '\n' {
        row := row + [StripCr(field)];
        matrix := matrix + [row];
        row := [];
        field := "";
      } else {
        field := field + [character];
      }
      index := index + 1;
    }
    assert source[index..] == "";
    if quoted {
      return None;
    }
    if |field| > 0 || |row| > 0 {
      row := row + [field];
      matrix := matrix + [row];
    }
    r := Some(matrix);
  }

  // ---------------------------------------------------------------------
  // When the scanner fails
  // ---------------------------------------------------------------------

  function Quotes(s: string): nat {
    if s == "" then 0 else (if s[0] == '"' then 1 else 0) + Quotes(s[1..])
  }

  lemma {:induction false} QuotedIsOdd(s: string, st: Scan)
    ensures Run(s, st).quoted <==> (Quotes(s) + (if st.quoted then 1 else 0)) % 2 == 1
    decreases |s|
  {
    if s != "" {
      if st.quoted && s[0] == '"' && |s| > 1 && s[1] == '"' {
        QuotedIsOdd(s[2..], st.(field := st.field + "\""));
        assert s[1..][1..] == s[2..];
      } else if st.quoted && s[0] == '"' {
        QuotedIsOdd(s[1..], st.(quoted := false));
      } else if st.quoted {
        QuotedIsOdd(s[1..], st.(field := st.field + [s[0]]));
      } else if s[0] == '"' {
        QuotedIsOdd(s[1..], st.(quoted := true));
      } else if s[0] == ',' {
        QuotedIsOdd(s[1..], st.(row := st.row + [st.field], field := ""));
      } else if s[0] == '\n' {
        QuotedIsOdd(s[1..], Scan(st.matrix + [st.row + [StripCr(st.field)]], [], "", false));
      } else {
        QuotedIsOdd(s[1..], st.(field := st.field + [s[0]]));
      }
    }
  }

  /** A text is rejected exactly when it holds an odd number of quotes. */
  lemma {:induction false} FailsIffOddQuotes(text: string)
    ensures Parse(text) == None <==> Quotes(text) % 2 == 1
  {
    QuotedIsOdd(StripBom(text), Start());
  }

  // ---------------------------------------------------------------------
  // The printer
  // ---------------------------------------------------------------------

  /** A cell and the choice to quote it. */
  datatype Cell = Cell(value: string, quoted: bool)

  predicate PlainChar(c: char) {
    c != '"' && c != ',' && c != '\n'
  }

  /** Only a cell without quote, comma and LF may go unquoted; a CR may, too, beyond the format's own rule. */
  predicate ValidCell(c: Cell) {
    c.quoted || forall i :: 0 <= i < |c.value| ==> PlainChar(c.value[i])
  }

  predicate ValidRow(cells: seq<Cell>) {
    |cells| > 0 && forall i :: 0 <= i < |cells| ==> ValidCell(cells[i])
  }

  predicate ValidRows(rows: seq<seq<Cell>>) {
    forall i :: 0 <= i < |rows| ==> ValidRow(rows[i])
  }

  function Escape(v: string): string {
    if v == "" then "" else (if v[0] == '"' then ['"', '"'] else [v[0]]) + Escape(v[1..])
  }

  function PrintCell(c: Cell): string {
    if c.quoted then ['"'] + Escape(c.value) + ['"'] else c.value
  }

  function PrintRow(cells: seq<Cell>): string
    requires |cells| > 0
  {
    if |cells| == 1 then PrintCell(cells[0]) else PrintCell(cells[0]) + [','] + PrintRow(cells[1..])
  }

  function PrintRows(rows: seq<seq<Cell>>, end: string): string
    requires ValidRows(rows)
  {
    if rows == [] then "" else PrintRow(rows[0]) + end + PrintRows(rows[1..], end)
  }

  const CRLF := ['\r', '\n']

  function Values(cells: seq<Cell>): Row {
    if cells == [] then [] else [cells[0].value] + Values(cells[1..])
  }

  function AllValues(rows: seq<seq<Cell>>): seq<Row> {
    if rows == [] then [] else [Values(rows[0])] + AllValues(rows[1..])
  }

  // ---------------------------------------------------------------------
  // Scanning what was printed
  // ---------------------------------------------------------------------

  predicate NotQuote(rest: string) {
    rest == "" || rest[0] != '"'
  }

  /** The rest of a quoted cell, its closing quote and what follows. */
  function Closing(v: string, rest: string): string {
    if v == "" then ['"'] + rest
    else (if v[0] == '"' then ['"', '"'] else [v[0]]) + Closing(v[1..], rest)
  }

  lemma {:induction false} ClosingIs(v: string, rest: string)
    ensures Escape(v) + ['"'] + rest == Closing(v, rest)
  {
    if v != "" {
      ClosingIs(v[1..], rest);
      var head := if v[0] == '"' then ['"', '"'] else [v[0]];
      assert Escape(v) + ['"'] + rest == head + (Escape(v[1..]) + ['"'] + rest);
    }
  }

  lemma {:induction false} ScanQuoted(v: string, rest: string, st: Scan)
    requires st.quoted && NotQuote(rest)
    ensures Run(Closing(v, rest), st) == Run(rest, st.(field := st.field + v, quoted := false))
    decreases |v|
  {
    var s := Closing(v, rest);
    if v == "" {
      assert s[0] == '"' && s[1..] == rest && st.field + v == st.field;
    } else {
      var tail := Closing(v[1..], rest);
      var next := st.(field := st.field + [v[0]]);
      assert (if v[0] == '"' then s[2..] else s[1..]) == tail;
      assert Run(s, st) == Run(tail, next);
      ScanQuoted(v[1..], rest, next);
      assert next.field + v[1..] == st.field + v;
    }
  }

  lemma {:induction false} ScanPlain(v: string, rest: string, st: Scan)
    requires !st.quoted && ValidCell(Cell(v, false))
    ensures Run(v + rest, st) == Run(rest, st.(field := st.field + v))
    decreases |v|
  {
    if v == "" {
      assert v + rest == rest && st.field + v == st.field;
    } else {
      assert PlainChar(v[0]);
      assert (v + rest)[1..] == v[1..] + rest;
      var next := st.(field := st.field + [v[0]]);
      forall i | 0 <= i < |v[1..]| ensures PlainChar(v[1..][i]) { assert v[1..][i] == v[i + 1]; }
      ScanPlain(v[1..], rest, next);
      assert next.field + v[1..] == st.field + v;
    }
  }

  lemma {:induction false} ScanCell(c: Cell, rest: string, st: Scan)
    requires !st.quoted && st.field == "" && ValidCell(c) && NotQuote(rest)
    ensures Run(PrintCell(c) + rest, st) == Run(rest, st.(field := c.value))
  {
    assert "" + c.value == c.value;
    if c.quoted {
      var s := PrintCell(c) + rest;
      ClosingIs(c.value, rest);
      assert s == ['"'] + (Escape(c.value) + ['"'] + rest);
      assert s[1..] == Closing(c.value, rest);
      ScanQuoted(c.value, rest, st.(quoted := true));
    } else {
      ScanPlain(c.value, rest, st);
    }
  }

  /** The cells of a row before its last one, behind those already pushed. */
  function Pushed(cells: seq<Cell>, row: Row): Row
    requires |cells| > 0
  {
    if |cells| == 1 then row else Pushed(cells[1..], row + [cells[0].value])
  }

  lemma {:induction false} PushedIs(cells: seq<Cell>, row: Row)
    requires |cells| > 0
    ensures Pushed(cells, row) + [cells[|cells| - 1].value] == row + Values(cells)
    ensures |Pushed(cells, row)| == |row| + |cells| - 1
  {
    if |cells| == 1 {
      assert Values(cells) == [cells[0].value];
    } else {
      PushedIs(cells[1..], row + [cells[0].value]);
      assert row + [cells[0].value] + Values(cells[1..]) == row + Values(cells);
    }
  }

  /** After the cells of a row the last value is the pending field. */
  lemma {:induction false} ScanRow(cells: seq<Cell>, rest: string, st: Scan)
    requires ValidRow(cells) && !st.quoted && st.field == "" && NotQuote(rest)
    ensures Run(PrintRow(cells) + rest, st) ==
              Run(rest, st.(row := Pushed(cells, st.row), field := cells[|cells| - 1].value))
    decreases |cells|
  {
    if |cells| == 1 {
      ScanCell(cells[0], rest, st);
    } else {
      var tail := PrintRow(cells[1..]) + rest;
      assert PrintRow(cells) + rest == PrintCell(cells[0]) + ([','] + tail);
      ScanCell(cells[0], [','] + tail, st);
      assert ([','] + tail)[1..] == tail;
      ScanRow(cells[1..], rest, st.(row := st.row + [cells[0].value], field := ""));
    }
  }

  /** A complete line: with CRLF its row is as printed, with a bare LF the last cell loses a trailing CR. */
  lemma {:induction false} ScanLine(cells: seq<Cell>, end: string, rest: string, matrix: seq<Row>)
    requires ValidRow(cells) && (end == CRLF || end == ['\n'])
    ensures Run(PrintRow(cells) + end + rest, Scan(matrix, [], "", false)) ==
              Run(rest, Scan(matrix + [LineValues(cells, end)], [], "", false))
  {
    var st := Scan(matrix, [], "", false);
    var last := cells[|cells| - 1].value;
    var tail := ['\n'] + rest;
    assert tail[1..] == rest;
    assert PrintRow(cells) + end + rest == PrintRow(cells) + (end + rest);
    ScanRow(cells, end + rest, st);
    PushedIs(cells, []);
    assert [] + Values(cells) == Values(cells);
    if end == CRLF {
      assert (end + rest)[0] == '\r' && (end + rest)[1..] == tail;
      assert StripCr(last + ['\r']) == last;
    } else {
      assert end + rest == tail;
    }
  }

  /** The row a line comes back as. */
  function LineValues(cells: seq<Cell>, end: string): Row
    requires |cells| > 0
  {
    if end == CRLF then Values(cells) else Pushed(cells, []) + [StripCr(cells[|cells| - 1].value)]
  }

  /** The rows scanned, behind those already complete. */
  function Complete(rows: seq<seq<Cell>>, end: string, matrix: seq<Row>): seq<Row>
    requires ValidRows(rows)
  {
    if rows == [] then matrix else Complete(rows[1..], end, matrix + [LineValues(rows[0], end)])
  }

  lemma {:induction false} ScanRows(rows: seq<seq<Cell>>, end: string, rest: string, matrix: seq<Row>)
    requires ValidRows(rows) && (end == CRLF || end == ['\n'])
    ensures Run(PrintRows(rows, end) + rest, Scan(matrix, [], "", false)) ==
              Run(rest, Scan(Complete(rows, end, matrix), [], "", false))
    decreases |rows|
  {
    if rows == [] {
      assert PrintRows(rows, end) + rest == rest;
    } else {
      var tail := PrintRows(rows[1..], end) + rest;
      assert PrintRows(rows, end) + rest == PrintRow(rows[0]) + end + tail;
      ScanLine(rows[0], end, tail, matrix);
      ScanRows(rows[1..], end, rest, matrix + [LineValues(rows[0], end)]);
    }
  }

  lemma {:induction false} CompleteIs(rows: seq<seq<Cell>>, matrix: seq<Row>)
    requires ValidRows(rows)
    ensures Complete(rows, CRLF, matrix) == matrix + AllValues(rows)
  {
    if rows != [] {
      CompleteIs(rows[1..], matrix + [Values(rows[0])]);
      assert matrix + [Values(rows[0])] + AllValues(rows[1..]) == matrix + AllValues(rows);
    }
  }

  // ---------------------------------------------------------------------
  // Round trips
  // ---------------------------------------------------------------------

  /** The text begins with a byte order mark that belongs to its first, unquoted cell. */
  predicate LeadingBom(first: seq<Cell>)
    requires ValidRow(first)
  {
    !first[0].quoted && |first[0].value| > 0 && first[0].value[0] == BOM
  }

  /**
   Printing any matrix of nonempty rows as RFC 4180 says, with CRLF after every row and any
   permitted choice of quoting, and scanning the text gives the matrix back exactly: cells
   may hold quotes, commas, CR and LF.
   */
  lemma {:induction false} RoundTrip(rows: seq<seq<Cell>>)
    requires ValidRows(rows) && (rows != [] ==> !LeadingBom(rows[0]))
    ensures Parse(PrintRows(rows, CRLF)) == Some(AllValues(rows))
  {
    var text := PrintRows(rows, CRLF);
    if rows != [] {
      var rest := CRLF + PrintRows(rows[1..], CRLF);
      assert text == PrintRow(rows[0]) + rest;
    }
    ScanRows(rows, CRLF, "", []);
    CompleteIs(rows, []);
    assert text + "" == text && [] + AllValues(rows) == AllValues(rows);
  }

  /** Without the line ending after the last row the matrix comes back exactly,
      unless that row is a single empty cell: then it is lost. */
  lemma {:induction false} RoundTripUnterminated(rows: seq<seq<Cell>>, last: seq<Cell>)
    requires ValidRows(rows) && ValidRow(last) && !LeadingBom(if rows == [] then last else rows[0])
    ensures Parse(PrintRows(rows, CRLF) + PrintRow(last)) ==
              Some(AllValues(rows) + (if Values(last) == [""] then [] else [Values(last)]))
  {
    var text := PrintRows(rows, CRLF) + PrintRow(last);
    if rows == [] {
      assert text == PrintRow(last) + "";
    } else {
      var rest := CRLF + PrintRows(rows[1..], CRLF) + PrintRow(last);
      assert text == PrintRow(rows[0]) + rest;
    }
    ScanRows(rows, CRLF, PrintRow(last), []);
    CompleteIs(rows, []);
    assert [] + AllValues(rows) == AllValues(rows);
    ScanRow(last, "", Scan(AllValues(rows), [], "", false));
    assert PrintRow(last) + "" == PrintRow(last);
    PushedIs(last, []);
    assert [] + Values(last) == Values(last);
    FinishLast(AllValues(rows), Pushed(last, []), last[|last| - 1].value, Values(last));
  }

  lemma FinishLast(matrix: seq<Row>, row: Row, field: string, values: Row)
    requires row + [field] == values
    ensures Finish(Scan(matrix, row, field, false)) == Some(matrix + (if values == [""] then [] else [values]))
  {
    if values == [""] {
      assert |row| + 1 == |values| && values[|row|] == field;
      assert matrix + [] == matrix;
    } else if row == [] {
      assert [] + [field] == [field];
    }
  }

  /** A row whose last value ends in CR. */
  predicate EndsInCr(cells: seq<Cell>)
    requires |cells| > 0
  {
    var last := cells[|cells| - 1].value;
    |last| > 0 && last[|last| - 1] == '\r'
  }

  lemma {:induction false} BareLfLine(cells: seq<Cell>)
    requires |cells| > 0
    ensures LineValues(cells, ['\n']) == Values(cells) <==> !EndsInCr(cells)
  {
    PushedIs(cells, []);
    var last := cells[|cells| - 1].value;
    var row := Pushed(cells, []);
    assert [] + Values(cells) == Values(cells);
    assert (row + [StripCr(last)])[|row|] == StripCr(last) && (row + [last])[|row|] == last;
    if EndsInCr(cells) { assert |StripCr(last)| != |last|; }
  }

  lemma {:induction false} BareLfComplete(rows: seq<seq<Cell>>, matrix: seq<Row>)
    requires ValidRows(rows)
    ensures |Complete(rows, ['\n'], matrix)| == |matrix| + |rows|
    ensures Complete(rows, ['\n'], matrix)[..|matrix|] == matrix
    ensures forall i :: 0 <= i < |rows| ==> Complete(rows, ['\n'], matrix)[|matrix| + i] == LineValues(rows[i], ['\n'])
  {
    if rows != [] {
      var next := matrix + [LineValues(rows[0], ['\n'])];
      BareLfComplete(rows[1..], next);
      var all := Complete(rows, ['\n'], matrix);
      assert all[..|next|] == next;
      assert all[|matrix|] == next[|matrix|];
      forall i | 1 <= i < |rows| ensures all[|matrix| + i] == LineValues(rows[i], ['\n']) {
        assert all[|next| + (i - 1)] == LineValues(rows[1..][i - 1], ['\n']);
      }
      assert all[..|matrix|] == next[..|matrix|];
    }
  }

  lemma {:induction false} AllValuesAt(rows: seq<seq<Cell>>)
    ensures |AllValues(rows)| == |rows| && forall i :: 0 <= i < |rows| ==> AllValues(rows)[i] == Values(rows[i])
  {
    if rows != [] {
      AllValuesAt(rows[1..]);
    }
  }

  lemma {:induction false} BareLfSame(rows: seq<seq<Cell>>)
    requires ValidRows(rows)
    ensures Complete(rows, ['\n'], []) == AllValues(rows) <==> forall i :: 0 <= i < |rows| ==> !EndsInCr(rows[i])
  {
    var got := Complete(rows, ['\n'], []);
    BareLfComplete(rows, []);
    AllValuesAt(rows);
    forall i | 0 <= i < |rows| ensures got[i] == AllValues(rows)[i] <==> !EndsInCr(rows[i]) {
      BareLfLine(rows[i]);
      assert got[0 + i] == LineValues(rows[i], ['\n']);
    }
    if got == AllValues(rows) {
      forall i | 0 <= i < |rows| ensures !EndsInCr(rows[i]) { assert got[i] == AllValues(rows)[i]; }
    } else {
      assert exists i :: 0 <= i < |rows| && got[i] != AllValues(rows)[i];
    }
  }

  lemma {:induction false} BareLfParse(rows: seq<seq<Cell>>)
    requires ValidRows(rows) && (rows != [] ==> !LeadingBom(rows[0]))
    ensures Parse(PrintRows(rows, ['\n'])) == Some(Complete(rows, ['\n'], []))
  {
    var text := PrintRows(rows, ['\n']);
    if rows != [] {
      var rest := ['\n'] + PrintRows(rows[1..], ['\n']);
      assert text == PrintRow(rows[0]) + rest;
    }
    ScanRows(rows, ['\n'], "", []);
    assert text + "" == text;
  }

  /** With bare LF line endings the matrix comes back exactly when no row ends in a CR. */
  lemma {:induction false} BareLfRoundTrip(rows: seq<seq<Cell>>)
    requires ValidRows(rows) && (rows != [] ==> !LeadingBom(rows[0]))
    ensures Parse(PrintRows(rows, ['\n'])) == Some(AllValues(rows)) <==>
              forall i :: 0 <= i < |rows| ==> !EndsInCr(rows[i])
  {
    BareLfParse(rows);
    BareLfSame(rows);
  }

  /** The rows as they come back when their first cell loses its byte order mark. */
  function DropBom(rows: seq<seq<Cell>>): seq<seq<Cell>>
    requires rows != [] && ValidRow(rows[0]) && LeadingBom(rows[0])
  {
    [[Cell(rows[0][0].value[1..], false)] + rows[0][1..]] + rows[1..]
  }

  lemma {:induction false} BomLost(rows: seq<seq<Cell>>)
    requires ValidRows(rows) && rows != [] && LeadingBom(rows[0])
    ensures ValidRows(DropBom(rows)) && Parse(PrintRows(rows, CRLF)) == Some(AllValues(DropBom(rows)))
    ensures AllValues(DropBom(rows)) != AllValues(rows)
  {
    var less := DropBom(rows);
    var value := rows[0][0].value;
    forall i | 0 <= i < |value[1..]| ensures PlainChar(value[1..][i]) { assert PlainChar(value[i + 1]); }
    assert less[0][1..] == rows[0][1..] && less[1..] == rows[1..];
    assert ValidRow(less[0]);
    var text := PrintRows(rows, CRLF);
    assert PrintRow(rows[0])[1..] == PrintRow(less[0]);
    assert text == PrintRow(rows[0]) + (CRLF + PrintRows(rows[1..], CRLF));
    assert StripBom(text) == PrintRows(less, CRLF);
    ScanRows(less, CRLF, "", []);
    CompleteIs(less, []);
    assert StripBom(text) + "" == StripBom(text) && [] + AllValues(less) == AllValues(less);
    AllValuesAt(rows);
    AllValuesAt(less);
    assert Values(less[0])[0] == value[1..] && Values(rows[0])[0] == value;
    assert |value[1..]| != |value|;
  }

  /** The one matrix that does not survive: its text begins with an unquoted byte order mark. */
  lemma {:induction false} RoundTripIff(rows: seq<seq<Cell>>)
    requires ValidRows(rows)
    ensures Parse(PrintRows(rows, CRLF)) == Some(AllValues(rows)) <==> !(rows != [] && LeadingBom(rows[0]))
  {
    if rows != [] && LeadingBom(rows[0]) {
      BomLost(rows);
    } else {
      RoundTrip(rows);
    }
  }

  // ---------------------------------------------------------------------
  // Records
  // ---------------------------------------------------------------------

  type Record = map<string, string>

  datatype Parsed = Unterminated | Empty | Records(records: seq<Record>)

  /** Object.fromEntries over the first `n` columns: a repeated name keeps its last column, a missing cell is empty. */
  function RecordOf(header: Row, cells: Row, n: nat): Record
    requires n <= |header|
  {
    if n == 0 then map[]
    else RecordOf(header, cells, n - 1)[header[n - 1] := if n - 1 < |cells| then cells[n - 1] else ""]
  }

  predicate HasText(cells: Row) {
    exists i :: 0 <= i < |cells| && |cells[i]| > 0
  }

  function RecordsOf(header: Row, rows: seq<Row>): seq<Record> {
    if rows == [] then []
    else RecordsOf(header, rows[..|rows| - 1]) +
         (if HasText(rows[|rows| - 1]) then [RecordOf(header, rows[|rows| - 1], |header|)] else [])
  }

  function ParseRecords(text: string): Parsed {
    match Parse(text)
    case None => Unterminated
    case Some(matrix) => if matrix == [] || matrix[0] == [] then Empty else Records(RecordsOf(matrix[0], matrix[1..]))
  }

  /** `parseCsv`. */
  method ParseCsv(text: string) returns (r: Parsed)
    ensures r == ParseRecords(text)
    ensures r == Unterminated <==> Quotes(text) % 2 == 1
  {
    FailsIffOddQuotes(text);
    var matrix := ParseMatrix(text);
    if matrix == None {
      return Unterminated;
    }
    if |matrix.value| == 0 || |matrix.value[0]| == 0 {
      return Empty;
    }
    var header, rows := matrix.value[0], matrix.value[1..];
    var records: seq<Record> := [];
    for i := 0 to |rows|
      invariant records == RecordsOf(header, rows[..i])
    {
      assert rows[..i + 1][..i] == rows[..i];
      if exists j :: 0 <= j < |rows[i]| && |rows[i][j]| > 0 {
        var record: Record := map[];
        for j := 0 to |header|
          invariant record == RecordOf(header, rows[i], j)
        {
          record := record[header[j] := if j < |rows[i]| then rows[i][j] else ""];
        }
        records := records + [record];
      }
    }
    assert rows[..|rows|] == rows;
    r := Records(records);
  }

  /** `record` gives every column of `header` its cell, and has no other column. */
  ghost predicate IsRecord(record: Record, header: Row, cells: Row) {
    && |cells| == |header| && (forall k :: k in record <==> k in header)
    && forall i :: 0 <= i < |header| ==> header[i] in record && record[header[i]] == cells[i]
  }

  lemma {:induction false} RecordColumns(header: Row, cells: Row, n: nat)
    requires Distinct(header) && n <= |header| == |cells|
    ensures var m := RecordOf(header, cells, n);
            && (forall k :: k in m <==> exists i :: 0 <= i < n && header[i] == k)
            && forall i :: 0 <= i < n ==> header[i] in m && m[header[i]] == cells[i]
  {
    if n > 0 {
      RecordColumns(header, cells, n - 1);
    }
  }

  lemma {:induction false} RecordsAt(header: Row, rows: seq<Row>)
    requires Distinct(header) && forall i :: 0 <= i < |rows| ==> |rows[i]| == |header| && HasText(rows[i])
    ensures |RecordsOf(header, rows)| == |rows|
    ensures forall i :: 0 <= i < |rows| ==> IsRecord(RecordsOf(header, rows)[i], header, rows[i])
  {
    if rows != [] {
      var last := |rows| - 1;
      RecordsAt(header, rows[..last]);
      RecordColumns(header, rows[last], |header|);
      assert IsRecord(RecordOf(header, rows[last], |header|), header, rows[last]);
      forall i | 0 <= i < last ensures IsRecord(RecordsOf(header, rows)[i], header, rows[i]) {
        assert IsRecord(RecordsOf(header, rows[..last])[i], header, rows[..last][i]);
      }
    }
  }

  /** Column `i` is the last of its name among the first `n`. */
  predicate LastOfName(header: Row, i: nat, n: nat)
    requires i < n <= |header|
  {
    forall j :: i < j < n ==> header[j] != header[i]
  }

  predicate NamedWithin(header: Row, n: nat, k: string)
    requires n <= |header|
  {
    exists i :: 0 <= i < n && header[i] == k
  }

  /** A column of `record` per name in the header: its last cell of that name, or the empty string beyond the row. */
  ghost predicate FitsRow(record: Record, header: Row, cells: Row, n: nat)
    requires n <= |header|
  {
    && (forall k :: k in record <==> NamedWithin(header, n, k))
    && (forall i :: 0 <= i < n && LastOfName(header, i, n) ==> CellAt(record, header, cells, i))
  }

  predicate CellAt(record: Record, header: Row, cells: Row, i: nat)
    requires i < |header|
  {
    header[i] in record && record[header[i]] == if i < |cells| then cells[i] else ""
  }

  lemma {:induction false} RecordFits(header: Row, cells: Row, n: nat)
    requires n <= |header|
    ensures FitsRow(RecordOf(header, cells, n), header, cells, n)
  {
    if n > 0 {
      var before := RecordOf(header, cells, n - 1);
      var record := RecordOf(header, cells, n);
      RecordFits(header, cells, n - 1);
      forall k ensures k in record <==> NamedWithin(header, n, k) {
        assert k in before <==> NamedWithin(header, n - 1, k);
        assert header[n - 1] == header[n - 1];
      }
      forall i | 0 <= i < n && LastOfName(header, i, n) ensures CellAt(record, header, cells, i) {
        if i < n - 1 {
          assert LastOfName(header, i, n - 1) && header[n - 1] != header[i];
          assert CellAt(before, header, cells, i);
        }
      }
    }
  }

  /** `at` lists, in order, the rows with some text, and `records` holds a fitting record for each. */
  ghost predicate RecordsFit(records: seq<Record>, at: seq<nat>, header: Row, rows: seq<Row>) {
    && |at| == |records| && (forall k, l :: 0 <= k < l < |at| ==> at[k] < at[l])
    && (forall k :: 0 <= k < |at| ==> RecordFitsAt(records[k], at[k], header, rows))
    && (forall i: nat :: i in at <==> i < |rows| && HasText(rows[i]))
  }

  ghost predicate RecordFitsAt(record: Record, i: nat, header: Row, rows: seq<Row>) {
    i < |rows| && FitsRow(record, header, rows[i], |header|)
  }

  lemma {:induction false} RecordsFitSnoc(records: seq<Record>, at: seq<nat>, header: Row, rows: seq<Row>, row: Row)
    requires RecordsFit(records, at, header, rows)
    ensures if HasText(row)
            then RecordsFit(records + [RecordOf(header, row, |header|)], at + [|rows|], header, rows + [row])
            else RecordsFit(records, at, header, rows + [row])
  {
    RecordFits(header, row, |header|);
    var all := rows + [row];
    forall i: nat ensures i in at <==> i < |rows| && HasText(all[i]) {
      assert i < |rows| ==> all[i] == rows[i];
    }
    forall k | 0 <= k < |at| ensures RecordFitsAt(records[k], at[k], header, all) {
      assert RecordFitsAt(records[k], at[k], header, rows);
    }
  }

  /**
   For any header and any rows: blank rows are skipped, every other row becomes one record, in
   order, with the header's names as its columns; a missing cell is empty, a surplus one is
   dropped, and of two columns of one name the last counts.
   */
  lemma RecordsInFull(header: Row, rows: seq<Row>) returns (at: seq<nat>)
    ensures RecordsFit(RecordsOf(header, rows), at, header, rows)
  {
    if rows == [] {
      at := [];
      return;
    }
    var front, last := rows[..|rows| - 1], rows[|rows| - 1];
    assert rows == front + [last];
    at := RecordsInFull(header, front);
    RecordsFitSnoc(RecordsOf(header, front), at, header, front, last);
    if HasText(last) {
      at := at + [|front|];
    }
  }

  /** With distinct header names and full-width rows that are not all empty, records round-trip: one per row,
      each column its cell. */
  lemma {:induction false} RecordsRoundTrip(header: seq<Cell>, rows: seq<seq<Cell>>)
    requires ValidRow(header) && ValidRows(rows) && !LeadingBom(header) && Distinct(Values(header))
    requires forall i :: 0 <= i < |rows| ==> |rows[i]| == |header| && HasText(Values(rows[i]))
    ensures var r := ParseRecords(PrintRows([header] + rows, CRLF));
            && r.Records? && |r.records| == |rows|
            && forall i :: 0 <= i < |rows| ==> IsRecord(r.records[i], Values(header), Values(rows[i]))
  {
    var all := [header] + rows;
    assert all[1..] == rows;
    RoundTrip(all);
    assert AllValues(all) == [Values(header)] + AllValues(rows);
    assert AllValues(all)[1..] == AllValues(rows);
    AllValuesAt(rows);
    ValuesLength(header);
    forall i | 0 <= i < |rows| ensures |AllValues(rows)[i]| == |Values(header)| { ValuesLength(rows[i]); }
    RecordsAt(Values(header), AllValues(rows));
    forall i | 0 <= i < |rows| ensures IsRecord(RecordsOf(Values(header), AllValues(rows))[i], Values(header),
        Values(rows[i])) {
      assert IsRecord(RecordsOf(Values(header), AllValues(rows))[i], Values(header), AllValues(rows)[i]);
    }
  }

  lemma {:induction false} ValuesLength(cells: seq<Cell>)
    ensures |Values(cells)| == |cells|
  {
    if cells != [] {
      ValuesLength(cells[1..]);
    }
  }
}
