/** The curated file's CSV reader: RFC 4180 section 2 records, optional double quotes, LF or CRLF. */
module CsvRecords {
  import opened Wrappers

  datatype Record = Record(line: nat, fields: seq<string>)

  datatype CsvError = UnclosedQuote(line: nat)

  /** Everything the reader's loop carries. */
  datatype Reader = Reader(out: seq<Record>, fields: seq<string>, field: string, quoted: bool, line: nat, startLine: nat)

  const START := Reader([], [], "", false, 1, 1)

  function WithChar(r: Reader, ch: char): Reader {
    r.(field := r.field + [ch])
  }

  function FieldEnded(r: Reader): Reader {
    r.(fields := r.fields + [r.field], field := "")
  }

  function RecordEnded(r: Reader): Reader {
    Reader(r.out + [Record(r.startLine, r.fields + [r.field])], [], "", false, r.line + 1, r.line + 1)
  }

  predicate StartsWith(t: string, ch: char) {
    |t| > 0 && t[0] == ch
  }

  /** The state after reading one character, or the two of an escaped quote or a CRLF, and what is left to read. */
  function Read(r: Reader, t: string): (Reader, string)
    requires t != ""
  {
    var ch, rest := t[0], t[1..];
    if r.quoted then
      if ch == '"' && StartsWith(rest, '"') then (WithChar(r, '"'), rest[1..])
      else if ch == '"' then (r.(quoted := false), rest)
      else (WithChar(r, ch).(line := if ch == '\n' then r.line + 1 else r.line), rest)
    else if ch == '"' && r.field == "" then (r.(quoted := true), rest)
    else if ch == ',' then (FieldEnded(r), rest)
    else if ch == '\n' || ch == '\r' then
      (RecordEnded(r), if ch == '\r' && StartsWith(rest, '\n') then rest[1..] else rest)
    else (WithChar(r, ch), rest)
  }

  function ReadAll(r: Reader, t: string): Reader
    decreases |t|
  {
    if t == "" then r else ReadAll(Read(r, t).0, Read(r, t).1)
  }

  function Finished(r: Reader): Result<seq<Record>, CsvError> {
    if r.quoted then Failure(UnclosedQuote(r.startLine))
    else if r.field != "" || r.fields != [] then Success(r.out + [Record(r.startLine, r.fields + [r.field])])
    else Success(r.out)
  }

  function Parsed(text: string): Result<seq<Record>, CsvError> {
    Finished(ReadAll(START, text))
  }

  /** The character loop. */
  method ParseRecords(text: string) returns (result: Result<seq<Record>, CsvError>)
    ensures result == Parsed(text)
  {
    var out: seq<Record>, fields: seq<string>, field, quoted := [], [], "", false;
    var line, startLine := 1, 1;
    var i := 0;
    while i < |text|
      invariant 0 <= i <= |text|
      invariant ReadAll(Reader(out, fields, field, quoted, line, startLine), text[i..]) == ReadAll(START, text)
      decreases |text| - i
    {
      var ch := text[i];
      ghost var rest := text[i..][1..];
      assert rest == text[i + 1..];
      assert i + 1 < |text| ==> rest[0] == text[i + 1] && rest[1..] == text[i + 2..];
      if quoted {
        if ch == '"' && i + 1 < |text| && text[i + 1] == '"' {
          field := field + ['"'];
          i := i + 1;
        } else if ch == '"' {
          quoted := false;
        } else {
          if ch == '\n' {
            line := line + 1;
          }
          field := field + [ch];
        }
      } else if ch == '"' && field == "" {
        quoted := true;
      } else if ch == ',' {
        fields := fields + [field];
        field := "";
      } else if ch == '\n' || ch == '\r' {
        if ch == '\r' && i + 1 < |text| && text[i + 1] == '\n' {
          i := i + 1;
        }
        fields := fields + [field];
        out := out + [Record(startLine, fields)];
        fields, field := [], "";
        line := line + 1;
        startLine := line;
      } else {
        field := field + [ch];
      }
      i := i + 1;
    }
    if quoted {
      return Failure(UnclosedQuote(startLine));
    }
    if field != "" || |fields| > 0 {
      fields := fields + [field];
      out := out + [Record(startLine, fields)];
    }
    return Success(out);
  }

  // ---------------------------------------------------------------------------------------------
  // Printing
  // ---------------------------------------------------------------------------------------------

  /** A field and whether it is written in quotes; some must be. */
  datatype Cell = Cell(text: string, inQuotes: bool)

  datatype Row = Row(cells: seq<Cell>, crlf: bool)

  predicate IsPlain(s: string) {
    forall ch :: ch in s ==> ch != '"' && ch != ',' && ch != '\n' && ch != '\r'
  }

  /** At least one field, and quotes wherever RFC 4180 section 2 needs them. */
  predicate IsPrintable(row: Row) {
    row.cells != [] && forall c :: c in row.cells ==> IsWritable(c)
  }

  function Escaped(s: string): string {
    if s == "" then ""
    else (if s[0] == '"' then "\"\"" else [s[0]]) + Escaped(s[1..])
  }

  function PrintCell(c: Cell): string {
    if c.inQuotes then "\"" + (Escaped(c.text) + "\"") else c.text
  }

  function Ending(crlf: bool): string {
    if crlf then "\r\n" else "\n"
  }

  /** Fields separated by commas, then the line ending. */
  function PrintCells(cells: seq<Cell>, crlf: bool): string
  {
    if cells == [] then Ending(crlf)
    else if |cells| == 1 then PrintCell(cells[0]) + Ending(crlf)
    else PrintCell(cells[0]) + ("," + PrintCells(cells[1..], crlf))
  }

  function Print(rows: seq<Row>): string {
    if rows == [] then "" else PrintCells(rows[0].cells, rows[0].crlf) + Print(rows[1..])
  }

  function TextsOf(cells: seq<Cell>): seq<string> {
    if cells == [] then [] else [cells[0].text] + TextsOf(cells[1..])
  }

  /** Line feeds in a text. */
  function Feeds(s: string): nat {
    if s == "" then 0 else (if s[0] == '\n' then 1 else 0) + Feeds(s[1..])
  }

  function NextLine(line: nat, row: Row): nat {
    line + Feeds(PrintCells(row.cells, row.crlf))
  }

  /** Some records, and then the ones the rows are: each starts one line after the feeds printed before it. */
  function WithRecords(out: seq<Record>, rows: seq<Row>, line: nat): seq<Record>
    decreases |rows|
  {
    if rows == [] then out
    else WithRecords(out + [Record(line, TextsOf(rows[0].cells))], rows[1..], NextLine(line, rows[0]))
  }

  function RecordsOf(rows: seq<Row>): seq<Record> {
    WithRecords([], rows, 1)
  }

  // ---------------------------------------------------------------------------------------------
  // Reading what was printed
  // ---------------------------------------------------------------------------------------------

  lemma {:induction false} ConcatAssoc(a: string, b: string, c: string)
    ensures (a + b) + c == a + (b + c)
  {
  }

  lemma {:induction false} FeedsConcat(a: string, b: string)
    ensures Feeds(a + b) == Feeds(a) + Feeds(b)
  {
    if a == "" {
      assert a + b == b;
    } else {
      assert (a + b)[1..] == a[1..] + b;
      FeedsConcat(a[1..], b);
    }
  }

  lemma {:induction false} FeedsEscaped(s: string)
    ensures Feeds(Escaped(s)) == Feeds(s)
  {
    if s != "" {
      FeedsEscaped(s[1..]);
      var head := if s[0] == '"' then "\"\"" else [s[0]];
      FeedsConcat(head, Escaped(s[1..]));
      if s[0] == '"' {
        assert head[1..] == "\"" && head[1..][1..] == "";
        assert Feeds("\"") == 0;
      } else {
        assert head[1..] == "";
      }
    }
  }

  lemma {:induction false} PlainHasNoFeeds(s: string)
    requires IsPlain(s)
    ensures Feeds(s) == 0
  {
    if s != "" {
      assert s[0] in s && forall ch :: ch in s[1..] ==> ch in s;
      PlainHasNoFeeds(s[1..]);
    }
  }

  lemma {:induction false} OneStep(r: Reader, t: string, r': Reader, rest: string)
    requires t != "" && Read(r, t) == (r', rest)
    ensures ReadAll(r, t) == ReadAll(r', rest)
  {
  }

  function Quoting(r: Reader, s: string): Reader {
    r.(field := r.field + s, line := r.line + Feeds(s))
  }

  function Written(ch: char): string {
    if ch == '"' then "\"\"" else [ch]
  }

  lemma {:induction false} ReadQuotedChar(r: Reader, ch: char, rest: string)
    requires r.quoted
    ensures ReadAll(r, Written(ch) + rest) == ReadAll(Quoting(r, [ch]), rest)
  {
    var t := Written(ch) + rest;
    assert [ch][1..] == "";
    assert Feeds([ch]) == if ch == '\n' then 1 else 0;
    if ch == '"' {
      assert t[0] == '"' && t[1..] == "\"" + rest && t[1..][1..] == rest;
    } else {
      assert t[0] == ch && t[1..] == rest;
    }
    OneStep(r, t, Quoting(r, [ch]), rest);
  }

  lemma {:induction false} ReadClosingQuote(r: Reader, rest: string)
    requires r.quoted && !StartsWith(rest, '"')
    ensures ReadAll(r, "\"" + rest) == ReadAll(r.(quoted := false), rest)
  {
  }

  lemma {:induction false} QuotingOne(r: Reader, s: string)
    requires s != ""
    ensures Quoting(Quoting(r, [s[0]]), s[1..]) == Quoting(r, s)
  {
    assert [s[0]][1..] == "";
    assert Feeds([s[0]]) == if s[0] == '\n' then 1 else 0;
    assert r.field + [s[0]] + s[1..] == r.field + s;
  }

  lemma {:induction false} EscapedOne(s: string, rest: string)
    requires s != ""
    ensures Escaped(s) + rest == Written(s[0]) + (Escaped(s[1..]) + rest)
  {
    assert Escaped(s) == Written(s[0]) + Escaped(s[1..]);
    ConcatAssoc(Written(s[0]), Escaped(s[1..]), rest);
  }

  /** Inside quotes, an escaped text is read back as itself. */
  lemma {:induction false} ReadQuoted(r: Reader, s: string, rest: string)
    requires r.quoted
    ensures ReadAll(r, Escaped(s) + rest) == ReadAll(Quoting(r, s), rest)
    decreases |s|
  {
    if s == "" {
      assert Escaped(s) + rest == rest;
      assert r.field + s == r.field;
    } else {
      EscapedOne(s, rest);
      ReadQuotedChar(r, s[0], Escaped(s[1..]) + rest);
      ReadQuoted(Quoting(r, [s[0]]), s[1..], rest);
      QuotingOne(r, s);
    }
  }

  /** Outside quotes, a plain text is read as itself. */
  lemma {:induction false} ReadPlain(r: Reader, s: string, rest: string)
    requires !r.quoted && IsPlain(s)
    ensures ReadAll(r, s + rest) == ReadAll(r.(field := r.field + s), rest)
    decreases |s|
  {
    if s == "" {
      assert s + rest == rest && r.field + s == r.field;
    } else {
      var t := s + rest;
      assert t[0] == s[0] && t[1..] == s[1..] + rest;
      assert s[0] in s && forall ch :: ch in s[1..] ==> ch in s;
      assert WithChar(r, s[0]).field + s[1..] == r.field + s;
      ReadPlain(WithChar(r, s[0]), s[1..], rest);
    }
  }

  lemma {:induction false} ReadOpeningQuote(r: Reader, rest: string)
    requires !r.quoted && r.field == ""
    ensures ReadAll(r, "\"" + rest) == ReadAll(r.(quoted := true), rest)
  {
  }

  lemma {:induction false} ReadQuotedCell(r: Reader, s: string, rest: string)
    requires !r.quoted && r.field == "" && !StartsWith(rest, '"')
    ensures ReadAll(r, "\"" + (Escaped(s) + ("\"" + rest))) == ReadAll(r.(field := s, line := r.line + Feeds(s)), rest)
  {
    var r1 := r.(quoted := true);
    ReadOpeningQuote(r, Escaped(s) + ("\"" + rest));
    ReadQuoted(r1, s, "\"" + rest);
    ReadClosingQuote(Quoting(r1, s), rest);
    QuotedField(r, s);
  }

  lemma {:induction false} QuotedField(r: Reader, s: string)
    requires !r.quoted && r.field == ""
    ensures Quoting(r.(quoted := true), s).(quoted := false) == r.(field := s, line := r.line + Feeds(s))
  {
  }

  predicate IsWritable(c: Cell) {
    c.inQuotes || IsPlain(c.text)
  }

  lemma {:induction false} ReadCell(r: Reader, c: Cell, rest: string)
    requires !r.quoted && r.field == "" && !StartsWith(rest, '"') && IsWritable(c)
    ensures ReadAll(r, PrintCell(c) + rest) == ReadAll(r.(field := c.text, line := r.line + Feeds(c.text)), rest)
  {
    if c.inQuotes {
      assert PrintCell(c) + rest == "\"" + (Escaped(c.text) + ("\"" + rest));
      ReadQuotedCell(r, c.text, rest);
    } else {
      assert "" + c.text == c.text;
      PlainHasNoFeeds(c.text);
      ReadPlain(r, c.text, rest);
    }
  }

  lemma {:induction false} CellFeeds(c: Cell)
    ensures Feeds(PrintCell(c)) == Feeds(c.text)
  {
    if c.inQuotes {
      FeedsEscaped(c.text);
      FeedsConcat(Escaped(c.text), "\"");
      FeedsConcat("\"", Escaped(c.text) + "\"");
      assert Feeds("\"") == 0 by {
        assert "\""[1..] == "";
      }
    }
  }

  lemma {:induction false} ReadEnding(r: Reader, crlf: bool, rest: string)
    requires !r.quoted
    ensures ReadAll(r, Ending(crlf) + rest) == ReadAll(RecordEnded(r), rest)
  {
  }

  lemma {:induction false} EndingFeeds(crlf: bool)
    ensures Feeds(Ending(crlf)) == 1
  {
    assert "\r\n"[1..] == "\n" && "\n"[1..] == "";
  }

  /** A row prints as its first field, and then a comma and the others or the line ending. */
  function AfterFirst(cells: seq<Cell>, crlf: bool): string
    requires cells != []
  {
    if |cells| == 1 then Ending(crlf) else "," + PrintCells(cells[1..], crlf)
  }

  lemma {:induction false} RowFeeds(cells: seq<Cell>, crlf: bool)
    requires cells != []
    ensures Feeds(PrintCells(cells, crlf))
            == Feeds(cells[0].text) + if |cells| == 1 then 1 else Feeds(PrintCells(cells[1..], crlf))
  {
    CellFeeds(cells[0]);
    FeedsConcat(PrintCell(cells[0]), AfterFirst(cells, crlf));
    EndingFeeds(crlf);
    FeedsConcat(",", PrintCells(cells[1..], crlf));
    assert ","[1..] == "";
  }

  lemma {:induction false} AfterFirstIsNoQuote(cells: seq<Cell>, crlf: bool, rest: string)
    requires cells != []
    ensures PrintCells(cells, crlf) == PrintCell(cells[0]) + AfterFirst(cells, crlf)
    ensures !StartsWith(AfterFirst(cells, crlf) + rest, '"')
  {
  }

  lemma {:induction false} ReadFirstCell(r: Reader, cells: seq<Cell>, crlf: bool, rest: string)
    requires !r.quoted && r.field == "" && cells != [] && IsWritable(cells[0])
    ensures var r1 := r.(field := cells[0].text, line := r.line + Feeds(cells[0].text));
            ReadAll(r, PrintCells(cells, crlf) + rest) == ReadAll(r1, AfterFirst(cells, crlf) + rest)
  {
    AfterFirstIsNoQuote(cells, crlf, rest);
    ConcatAssoc(PrintCell(cells[0]), AfterFirst(cells, crlf), rest);
    ReadCell(r, cells[0], AfterFirst(cells, crlf) + rest);
  }

  lemma {:induction false} ReadComma(r: Reader, more: string, rest: string)
    requires !r.quoted
    ensures ReadAll(r, "," + more + rest) == ReadAll(FieldEnded(r), more + rest)
  {
    var t := "," + more + rest;
    assert t[0] == ',' && t[1..] == more + rest;
  }

  /** The reader after a whole row. */
  function RowRead(r: Reader, cells: seq<Cell>, crlf: bool): Reader {
    var line := r.line + Feeds(PrintCells(cells, crlf));
    Reader(r.out + [Record(r.startLine, r.fields + TextsOf(cells))], [], "", false, line, line)
  }

  lemma {:induction false} RowReadLast(r: Reader, cells: seq<Cell>, crlf: bool)
    requires |cells| == 1
    ensures RecordEnded(r.(field := cells[0].text, line := r.line + Feeds(cells[0].text))) == RowRead(r, cells, crlf)
  {
    RowFeeds(cells, crlf);
    assert cells[1..] == [];
    assert TextsOf(cells) == [cells[0].text] + [];
    assert TextsOf(cells) == [cells[0].text];
  }

  lemma {:induction false} FieldsOneMore(fields: seq<string>, cells: seq<Cell>)
    requires cells != []
    ensures fields + [cells[0].text] + TextsOf(cells[1..]) == fields + TextsOf(cells)
  {
  }

  lemma {:induction false} RowReadMore(r: Reader, cells: seq<Cell>, crlf: bool)
    requires |cells| > 1
    ensures RowRead(FieldEnded(r.(field := cells[0].text, line := r.line + Feeds(cells[0].text))), cells[1..], crlf)
            == RowRead(r, cells, crlf)
  {
    RowFeeds(cells, crlf);
    FieldsOneMore(r.fields, cells);
  }

  /** One printed row, from the start of one of its fields on, is read as that record. */
  lemma {:induction false} ReadRow(r: Reader, cells: seq<Cell>, crlf: bool, rest: string)
    requires !r.quoted && r.field == "" && cells != [] && forall c :: c in cells ==> IsWritable(c)
    ensures ReadAll(r, PrintCells(cells, crlf) + rest) == ReadAll(RowRead(r, cells, crlf), rest)
    decreases |cells|
  {
    var r1 := r.(field := cells[0].text, line := r.line + Feeds(cells[0].text));
    assert cells[0] in cells;
    ReadFirstCell(r, cells, crlf, rest);
    if |cells| == 1 {
      ReadEnding(r1, crlf, rest);
      RowReadLast(r, cells, crlf);
    } else {
      assert forall x :: x in cells[1..] ==> x in cells;
      ReadComma(r1, PrintCells(cells[1..], crlf), rest);
      ReadRow(FieldEnded(r1), cells[1..], crlf, rest);
      RowReadMore(r, cells, crlf);
    }
  }

  /** The reader after some whole rows. */
  function RowsRead(r: Reader, rows: seq<Row>): Reader
    decreases |rows|
  {
    if rows == [] then r else RowsRead(RowRead(r, rows[0].cells, rows[0].crlf), rows[1..])
  }

  lemma {:induction false} ReadRows(r: Reader, rows: seq<Row>, rest: string)
    requires !r.quoted && r.field == ""
    requires forall row :: row in rows ==> IsPrintable(row)
    ensures ReadAll(r, Print(rows) + rest) == ReadAll(RowsRead(r, rows), rest)
    decreases |rows|
  {
    if rows == [] {
      assert Print(rows) + rest == rest;
    } else {
      var row := rows[0];
      assert IsPrintable(row) by {
        assert row in rows;
      }
      assert forall x :: x in rows[1..] ==> x in rows;
      ConcatAssoc(PrintCells(row.cells, row.crlf), Print(rows[1..]), rest);
      ReadRow(r, row.cells, row.crlf, Print(rows[1..]) + rest);
      ReadRows(RowRead(r, row.cells, row.crlf), rows[1..], rest);
    }
  }

  lemma {:induction false} RowReadFirst(r: Reader, row: Row)
    requires r.fields == [] && r.startLine == r.line
    ensures RowRead(r, row.cells, row.crlf).out == r.out + [Record(r.line, TextsOf(row.cells))]
    ensures RowRead(r, row.cells, row.crlf).line == NextLine(r.line, row)
  {
    assert [] + TextsOf(row.cells) == TextsOf(row.cells);
  }

  lemma {:induction false} RowsReadAre(r: Reader, rows: seq<Row>)
    requires !r.quoted && r.field == "" && r.fields == [] && r.startLine == r.line
    ensures var r' := RowsRead(r, rows);
            r' == Reader(WithRecords(r.out, rows, r.line), [], "", false, r.line + Feeds(Print(rows)), r.line + Feeds(Print(rows)))
    decreases |rows|
  {
    if rows != [] {
      RowsReadAre(RowRead(r, rows[0].cells, rows[0].crlf), rows[1..]);
      RowReadFirst(r, rows[0]);
      FeedsConcat(PrintCells(rows[0].cells, rows[0].crlf), Print(rows[1..]));
    }
  }

  /** Round trip: whatever rows are printed, with whatever line endings and optional quotes, are read back. */
  lemma {:induction false} PrintedRowsAreReadBack(rows: seq<Row>)
    requires forall row :: row in rows ==> IsPrintable(row)
    ensures Parsed(Print(rows)) == Success(RecordsOf(rows))
  {
    ReadRows(START, rows, "");
    assert Print(rows) + "" == Print(rows);
    RowsReadAre(START, rows);
  }

  // ---------------------------------------------------------------------------------------------
  // A last row without its line ending
  // ---------------------------------------------------------------------------------------------

  function PrintBare(cells: seq<Cell>): string {
    if cells == [] then ""
    else if |cells| == 1 then PrintCell(cells[0])
    else PrintCell(cells[0]) + ("," + PrintBare(cells[1..]))
  }

  lemma {:induction false} ReadLastCell(r: Reader, c: Cell)
    requires !r.quoted && r.field == "" && IsWritable(c)
    ensures ReadAll(r, PrintCell(c)) == r.(field := c.text, line := r.line + Feeds(c.text))
  {
    assert PrintCell(c) + "" == PrintCell(c);
    ReadCell(r, c, "");
  }

  lemma {:induction false} ReadCommaThen(r: Reader, t: string)
    requires !r.quoted
    ensures ReadAll(r, "," + t) == ReadAll(FieldEnded(r), t)
  {
    var u := "," + t;
    assert u[0] == ',' && u[1..] == t;
    OneStep(r, u, FieldEnded(r), t);
  }

  lemma {:induction false} ReadCellAndComma(r: Reader, c: Cell, t: string)
    requires !r.quoted && r.field == "" && IsWritable(c)
    ensures ReadAll(r, PrintCell(c) + ("," + t)) == ReadAll(FieldEnded(CellRead(r, c)), t)
  {
    ReadCell(r, c, "," + t);
    ReadCommaThen(CellRead(r, c), t);
  }

  function CellRead(r: Reader, c: Cell): Reader {
    r.(field := c.text, line := r.line + Feeds(c.text))
  }

  /** The reader at the end of a row without its ending. */
  function BareRead(r: Reader, cells: seq<Cell>): Reader
    decreases |cells|
  {
    if cells == [] then r
    else if |cells| == 1 then CellRead(r, cells[0])
    else BareRead(FieldEnded(CellRead(r, cells[0])), cells[1..])
  }

  lemma {:induction false} ReadBare(r: Reader, cells: seq<Cell>)
    requires !r.quoted && r.field == "" && cells != [] && forall c :: c in cells ==> IsWritable(c)
    ensures ReadAll(r, PrintBare(cells)) == BareRead(r, cells)
    decreases |cells|
  {
    assert cells[0] in cells;
    if |cells| == 1 {
      ReadLastCell(r, cells[0]);
    } else {
      assert forall x :: x in cells[1..] ==> x in cells;
      ReadCellAndComma(r, cells[0], PrintBare(cells[1..]));
      ReadBare(FieldEnded(CellRead(r, cells[0])), cells[1..]);
    }
  }

  lemma {:induction false} BareReadIs(r: Reader, cells: seq<Cell>)
    requires !r.quoted && cells != []
    ensures var r' := BareRead(r, cells);
            && !r'.quoted && r'.out == r.out && r'.startLine == r.startLine
            && r'.fields + [r'.field] == r.fields + TextsOf(cells)
            && |r'.fields| == |r.fields| + |cells| - 1
            && (|cells| == 1 ==> r'.field == cells[0].text)
    decreases |cells|
  {
    if |cells| == 1 {
      assert cells[1..] == [] && TextsOf(cells) == [cells[0].text] + [];
      assert TextsOf(cells) == [cells[0].text];
    } else {
      var r2 := FieldEnded(CellRead(r, cells[0]));
      BareReadIs(r2, cells[1..]);
      FieldsOneMore(r.fields, cells);
    }
  }

  lemma {:induction false} WithOneMore(out: seq<Record>, rows: seq<Row>, line: nat, last: Row)
    ensures WithRecords(out, rows + [last], line)
            == WithRecords(out, rows, line) + [Record(line + Feeds(Print(rows)), TextsOf(last.cells))]
    decreases |rows|
  {
    if rows == [] {
      assert rows + [last] == [last] && [last][1..] == [];
    } else {
      var first := rows[0];
      assert (rows + [last])[0] == first && (rows + [last])[1..] == rows[1..] + [last];
      WithOneMore(out + [Record(line, TextsOf(first.cells))], rows[1..], NextLine(line, first), last);
      FeedsConcat(PrintCells(first.cells, first.crlf), Print(rows[1..]));
    }
  }

  /** The row is one empty field, which without a line ending leaves nothing to tell it by, quoted or not. */
  predicate IsLoneEmpty(row: Row) {
    |row.cells| == 1 && row.cells[0].text == ""
  }

  /** The last record may come without a line ending exactly when it is not a lone empty field, which is then lost. */
  lemma {:induction false} LastEndingMayBeOmittedIff(rows: seq<Row>, last: Row)
    requires IsPrintable(last) && forall row :: row in rows ==> IsPrintable(row)
    ensures Parsed(Print(rows) + PrintBare(last.cells)) == Success(RecordsOf(rows + [last])) <==> !IsLoneEmpty(last)
    ensures IsLoneEmpty(last) ==> Parsed(Print(rows) + PrintBare(last.cells)) == Success(RecordsOf(rows))
  {
    var r := RowsRead(START, rows);
    ReadRows(START, rows, PrintBare(last.cells));
    RowsReadAre(START, rows);
    ReadBare(r, last.cells);
    BareReadIs(r, last.cells);
    WithOneMore([], rows, 1, last);
    var r' := ReadAll(r, PrintBare(last.cells));
    assert r'.fields + [r'.field] == TextsOf(last.cells) by {
      assert [] + TextsOf(last.cells) == TextsOf(last.cells);
    }
    assert |RecordsOf(rows + [last])| == |RecordsOf(rows)| + 1;
  }

  // ---------------------------------------------------------------------------------------------
  // A file cut short inside quotes
  // ---------------------------------------------------------------------------------------------

  /** Cutting the escaped text after `k` characters separates the two quotes of an escaped one. */
  predicate SplitsPair(s: string, k: nat) {
    s != ""
    && if s[0] == '"' then k == 1 || (k >= 2 && SplitsPair(s[1..], k - 2)) else k >= 1 && SplitsPair(s[1..], k - 1)
  }

  lemma {:induction false} EscapedCut(s: string, k: nat)
    requires s != "" && |Written(s[0])| <= k <= |Escaped(s)|
    ensures k - |Written(s[0])| <= |Escaped(s[1..])|
    ensures Escaped(s)[..k] == Written(s[0]) + Escaped(s[1..])[..k - |Written(s[0])|]
  {
  }

  lemma {:induction false} ReadHalfPair(r: Reader)
    requires r.quoted
    ensures ReadAll(r, "\"") == r.(quoted := false)
  {
    assert "\"" + "" == "\"";
    ReadClosingQuote(r, "");
  }

  /** The reader is still inside the quotes unless the cut separates an escaped pair. */
  lemma {:induction false} ReadCut(r: Reader, s: string, k: nat)
    requires r.quoted && k <= |Escaped(s)|
    ensures var r' := ReadAll(r, Escaped(s)[..k]); (r'.quoted <==> !SplitsPair(s, k)) && r'.startLine == r.startLine
    decreases |s|
  {
    if k == 0 {
      assert Escaped(s)[..k] == "";
    } else if s[0] == '"' && k == 1 {
      assert Escaped(s)[..k] == "\"";
      ReadHalfPair(r);
    } else {
      EscapedCut(s, k);
      ReadQuotedChar(r, s[0], Escaped(s[1..])[..k - |Written(s[0])|]);
      ReadCut(Quoting(r, [s[0]]), s[1..], k - |Written(s[0])|);
    }
  }

  /** The fields of a row before one, each with its comma. */
  function PrintLead(cells: seq<Cell>): string {
    if cells == [] then "" else PrintCell(cells[0]) + ("," + PrintLead(cells[1..]))
  }

  lemma {:induction false} ReadLead(r: Reader, cells: seq<Cell>, rest: string) returns (r': Reader)
    requires !r.quoted && r.field == "" && forall c :: c in cells ==> IsWritable(c)
    ensures ReadAll(r, PrintLead(cells) + rest) == ReadAll(r', rest)
    ensures !r'.quoted && r'.field == "" && r'.startLine == r.startLine
    decreases |cells|
  {
    if cells == [] {
      assert PrintLead(cells) + rest == rest;
      r' := r;
    } else {
      assert cells[0] in cells && forall x :: x in cells[1..] ==> x in cells;
      var lead := PrintLead(cells[1..]);
      assert PrintLead(cells) + rest == PrintCell(cells[0]) + ("," + (lead + rest));
      ReadCellAndComma(r, cells[0], lead + rest);
      r' := ReadLead(FieldEnded(CellRead(r, cells[0])), cells[1..], rest);
    }
  }

  /** Some rows, the fields before one in quotes, and that one cut after `k` characters of its text. */
  function PrintCut(rows: seq<Row>, lead: seq<Cell>, text: string, k: nat): string
    requires k <= |Escaped(text)|
  {
    Print(rows) + (PrintLead(lead) + ("\"" + Escaped(text)[..k]))
  }

  /**
   * A file cut short inside a quoted field is refused for an unclosed quote, at the line its record starts on, exactly
   * when the cut does not separate the two quotes of an escaped one; there the first reads as the closing quote.
   */
  lemma {:induction false} CutInQuotesIsRefusedIff(rows: seq<Row>, lead: seq<Cell>, text: string, k: nat)
    requires (forall row :: row in rows ==> IsPrintable(row)) && (forall c :: c in lead ==> IsWritable(c)) && k <= |Escaped(text)|
    ensures Parsed(PrintCut(rows, lead, text, k)) == Failure(UnclosedQuote(1 + Feeds(Print(rows)))) <==> !SplitsPair(text, k)
    ensures Parsed(PrintCut(rows, lead, text, k)).Success? <==> SplitsPair(text, k)
  {
    var rest := "\"" + Escaped(text)[..k];
    ReadRows(START, rows, PrintLead(lead) + rest);
    RowsReadAre(START, rows);
    var r := ReadLead(RowsRead(START, rows), lead, rest);
    ReadOpeningQuote(r, Escaped(text)[..k]);
    ReadCut(r.(quoted := true), text, k);
  }

  lemma {:induction false} LeadIsPrinted(lead: seq<Cell>, c: Cell, crlf: bool)
    ensures PrintCells(lead + [c], crlf) == PrintLead(lead) + PrintCells([c], crlf)
    decreases |lead|
  {
    if lead == [] {
      assert lead + [c] == [c];
      assert PrintLead(lead) + PrintCells([c], crlf) == PrintCells([c], crlf);
    } else {
      LeadIsPrinted(lead[1..], c, crlf);
      FirstOfLead(lead, c, crlf);
      Reassociated(PrintCell(lead[0]), PrintLead(lead[1..]), PrintCells([c], crlf));
    }
  }

  lemma {:induction false} Reassociated(first: string, rest: string, end: string)
    ensures (first + ("," + rest)) + end == first + ("," + (rest + end))
  {
  }

  lemma {:induction false} FirstOfLead(lead: seq<Cell>, c: Cell, crlf: bool)
    requires lead != []
    ensures PrintCells(lead + [c], crlf) == PrintCell(lead[0]) + ("," + PrintCells(lead[1..] + [c], crlf))
  {
    assert (lead + [c])[0] == lead[0] && (lead + [c])[1..] == lead[1..] + [c];
  }

  lemma {:induction false} PrintOneMore(rows: seq<Row>, row: Row)
    ensures Print(rows + [row]) == Print(rows) + PrintCells(row.cells, row.crlf)
    decreases |rows|
  {
    if rows == [] {
      assert rows + [row] == [row] && [row][1..] == [];
    } else {
      assert (rows + [row])[0] == rows[0] && (rows + [row])[1..] == rows[1..] + [row];
      PrintOneMore(rows[1..], row);
    }
  }

  /** Such a text is what is left of the rows printed whole. */
  lemma {:induction false} CutIsPrefix(rows: seq<Row>, lead: seq<Cell>, text: string, k: nat, crlf: bool)
    requires k <= |Escaped(text)|
    ensures PrintCut(rows, lead, text, k) <= Print(rows + [Row(lead + [Cell(text, true)], crlf)])
  {
    var row := Row(lead + [Cell(text, true)], crlf);
    PrintOneMore(rows, row);
    LeadIsPrinted(lead, Cell(text, true), crlf);
    var a, b := PrintLead(lead) + ("\"" + Escaped(text)[..k]), PrintLead(lead) + (PrintCell(Cell(text, true)) + Ending(crlf));
    assert PrintCells([Cell(text, true)], crlf) == PrintCell(Cell(text, true)) + Ending(crlf);
    assert a <= b by {
      assert "\"" + Escaped(text)[..k] <= PrintCell(Cell(text, true)) + Ending(crlf);
    }
  }

  /** The field `a"b`, cut after the first of its two quotes, reads as the field `a`. */
  lemma {:induction false} HalfPairIsLost()
    ensures PrintCut([], [], "a\"b", 2) == "\"a\"" && Parsed("\"a\"") == Success([Record(1, ["a"])])
  {
    var last := Row([Cell("a", true)], false);
    LastEndingMayBeOmittedIff([], last);
    assert "a\"b"[1..] == "\"b" && "\"b"[1..] == "b" && "b"[1..] == "" && "a"[1..] == "";
    assert Escaped("b") == "b" && Escaped("\"b") == "\"\"b" && Escaped("a\"b") == "a\"\"b" && Escaped("a") == "a";
    assert Print([]) + PrintBare(last.cells) == "\"a\"";
    OneRecord(last);
    assert [] + [last] == [last];
    assert TextsOf(last.cells) == ["a"] by {
      assert last.cells[1..] == [] && TextsOf(last.cells) == ["a"] + [];
    }
  }

  lemma {:induction false} OneRecord(row: Row)
    ensures RecordsOf([row]) == [Record(1, TextsOf(row.cells))]
  {
    var record := Record(1, TextsOf(row.cells));
    assert [row][1..] == [] && [] + [record] == [record];
    assert WithRecords([record], [], NextLine(1, row)) == [record];
    assert WithRecords([], [row], 1) == WithRecords([] + [record], [row][1..], NextLine(1, row));
  }

  // ---------------------------------------------------------------------------------------------
  // Line numbers
  // ---------------------------------------------------------------------------------------------

  /** Line breaks as an editor counts them: LF, CRLF, or a bare CR. */
  function LineBreaks(s: string): nat
    decreases |s|
  {
    if s == "" then 0
    else if s[0] == '\n' then 1 + LineBreaks(s[1..])
    else if s[0] == '\r' then 1 + (if StartsWith(s[1..], '\n') then LineBreaks(s[2..]) else LineBreaks(s[1..]))
    else LineBreaks(s[1..])
  }

  function BareReturns(s: string): nat {
    if s == "" then 0
    else (if s[0] == '\r' && !StartsWith(s[1..], '\n') then 1 else 0) + BareReturns(s[1..])
  }

  lemma {:induction false} BreaksAreFeedsAndBareReturns(s: string)
    ensures LineBreaks(s) == Feeds(s) + BareReturns(s)
    decreases |s|
  {
    if s != "" {
      BreaksAreFeedsAndBareReturns(s[1..]);
      if s[0] == '\r' && StartsWith(s[1..], '\n') {
        assert s[1..][1..] == s[2..];
      }
    }
  }

  lemma {:induction false} EarlierRecordsStay(out: seq<Record>, rows: seq<Row>, line: nat, j: nat)
    requires j < |out|
    ensures |WithRecords(out, rows, line)| == |out| + |rows| && WithRecords(out, rows, line)[j] == out[j]
    decreases |rows|
  {
    if rows != [] {
      EarlierRecordsStay(out + [Record(line, TextsOf(rows[0].cells))], rows[1..], NextLine(line, rows[0]), j);
    }
  }

  lemma {:induction false} RecordStart(out: seq<Record>, rows: seq<Row>, line: nat, k: nat)
    requires k < |rows|
    ensures |WithRecords(out, rows, line)| == |out| + |rows|
    ensures WithRecords(out, rows, line)[|out| + k] == Record(line + Feeds(Print(rows[..k])), TextsOf(rows[k].cells))
    decreases |rows|
  {
    var more := out + [Record(line, TextsOf(rows[0].cells))];
    if k == 0 {
      EarlierRecordsStay(more, rows[1..], NextLine(line, rows[0]), |out|);
    } else {
      RecordStart(more, rows[1..], NextLine(line, rows[0]), k - 1);
      PrintedFeeds(rows, k);
    }
  }

  lemma {:induction false} PrintedFeeds(rows: seq<Row>, k: nat)
    requires 0 < k <= |rows|
    ensures Feeds(Print(rows[..k])) == Feeds(PrintCells(rows[0].cells, rows[0].crlf)) + Feeds(Print(rows[1..][..k - 1]))
  {
    assert rows[..k][0] == rows[0] && rows[..k][1..] == rows[1..][..k - 1];
    FeedsConcat(PrintCells(rows[0].cells, rows[0].crlf), Print(rows[1..][..k - 1]));
  }

  /** A record's reported line is its true line in the file exactly when no bare CR was printed before it. */
  lemma {:induction false} LineNumbersAreTrueIff(rows: seq<Row>, k: nat)
    requires k < |rows| && forall row :: row in rows ==> IsPrintable(row)
    ensures Parsed(Print(rows)).Success? && |Parsed(Print(rows)).value| == |rows|
    ensures Parsed(Print(rows)).value[k].fields == TextsOf(rows[k].cells)
    ensures Parsed(Print(rows)).value[k].line == 1 + LineBreaks(Print(rows[..k])) <==> BareReturns(Print(rows[..k])) == 0
  {
    PrintedRowsAreReadBack(rows);
    RecordStart([], rows, 1, k);
    BreaksAreFeedsAndBareReturns(Print(rows[..k]));
  }

  /** A bare CR in quotes, then a second row: the second record is on line 3 and is reported on line 2. */
  lemma {:induction false} BareReturnMisreportsALine()
    ensures var rows := [Row([Cell("\r", true)], false), Row([Cell("x", false)], false)];
            && (forall row :: row in rows ==> IsPrintable(row))
            && Parsed(Print(rows)).Success? && |Parsed(Print(rows)).value| == 2
            && Parsed(Print(rows)).value[1].line == 2
            && 1 + LineBreaks(Print(rows[..1])) == 3
  {
    var first, second := Row([Cell("\r", true)], false), Row([Cell("x", false)], false);
    var rows := [first, second];
    assert IsPlain("x");
    PrintedRowsAreReadBack(rows);
    RecordStart([], rows, 1, 1);
    assert rows[..1] == [first];
    FirstRowPrinted(first);
  }

  lemma {:induction false} FirstRowPrinted(row: Row)
    requires row == Row([Cell("\r", true)], false)
    ensures Feeds(Print([row])) == 1 && LineBreaks(Print([row])) == 2
  {
    var text := "\"\r\"\n";
    assert Escaped("\r") == "\r" by {
      assert "\r"[1..] == "";
    }
    assert [row][1..] == [] && Print([row]) == text;
    assert text[1..] == "\r\"\n" && "\r\"\n"[1..] == "\"\n" && "\"\n"[1..] == "\n" && "\n"[1..] == "";
    assert Feeds("\n") == 1 && Feeds("\"\n") == 1 && Feeds("\r\"\n") == 1;
    assert LineBreaks("\n") == 1 && LineBreaks("\"\n") == 1 && LineBreaks("\r\"\n") == 2;
  }

  /** A file that is one quoted empty field and no line ending holds no record. */
  lemma {:induction false} LoneEmptyFieldIsLost()
    ensures Parsed("\"\"") == Success([])
    ensures IsPrintable(Row([Cell("", true)], false)) && PrintBare([Cell("", true)]) == "\"\""
  {
    var last := Row([Cell("", true)], false);
    LastEndingMayBeOmittedIff([], last);
    assert Print([]) + PrintBare(last.cells) == "\"\"";
  }
}
