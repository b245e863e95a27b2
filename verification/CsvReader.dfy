/** The CSV reader of apps/web/e2e/support/exports.ts, against writers that follow RFC 4180, section 2. */
module CsvReader {
  import opened Text

  const BOM: char := '\U{FEFF}'
  const CRLF: string := "\r\n"

  /** The first optional byte-order mark is not part of the body. */
  function StripBom(text: string): string {
    if text != "" && text[0] == BOM then text[1..] else text
  }

  /** True when the next two characters end a record. */
  predicate AtBreak(s: string) {
    |s| > 1 && s[0] == '\r' && s[1] == '\n'
  }

  /** What the scanner adds to the rows read so far, from a state (row, field, quoted) on. */
  function Scan(body: string, rows: seq<seq<string>>, row: seq<string>, field: string, quoted: bool)
    : seq<seq<string>>
    decreases |body|
  {
    if body == "" then
      if field != "" || |row| > 0 then rows + [row + [field]] else rows
    else if quoted then
      if body[0] == '"' && |body| > 1 && body[1] == '"' then Scan(body[2..], rows, row, field + ['"'], true)
      else if body[0] == '"' then Scan(body[1..], rows, row, field, false)
      else Scan(body[1..], rows, row, field + [body[0]], true)
    else if body[0] == '"' then Scan(body[1..], rows, row, field, true)
    else if body[0] == ',' then Scan(body[1..], rows, row + [field], "", false)
    else if AtBreak(body) then Scan(body[2..], rows + [row + [field]], [], "", false)
    else Scan(body[1..], rows, row, field + [body[0]], false)
  }

  function Parse(text: string): seq<seq<string>> {
    Scan(StripBom(text), [], [], "", false)
  }

  method ParseCsv(text: string) returns (rows: seq<seq<string>>)
    ensures rows == Parse(text)
  {
    rows := [];
    var row: seq<string> := [];
    var field := "";
    var quoted := false;
    var body := StripBom(text);
    var i := 0;
    while i < |body|
      invariant 0 <= i <= |body|
      invariant Scan(body[i..], rows, row, field, quoted) == Parse(text)
    {
      var c := body[i];
      var rest := body[i..];
      assert rest[1..] == body[i + 1..];
      assert |rest| > 1 ==> rest[1] == body[i + 1] && rest[2..] == body[i + 2..];
      if quoted {
        if c == '"' && i + 1 < |body| && body[i + 1] == '"' {
          field := field + ['"'];
          i := i + 1;
        } else if c == '"' {
          quoted := false;
        } else {
          field := field + [c];
        }
      } else if c == '"' {
        quoted := true;
      } else if c == ',' {
        row := row + [field];
        field := "";
      } else if c == '\r' && i + 1 < |body| && body[i + 1] == '\n' {
        row := row + [field];
        rows := rows + [row];
        row := [];
        field := "";
        i := i + 1;
      } else {
        field := field + [c];
      }
      i := i + 1;
    }
    if field != "" || |row| > 0 {
      row := row + [field];
      rows := rows + [row];
    }
  }

  // ---------------------------------------------------------------------------------------------
  // Writers. Each field occurrence says whether the writer chose to quote it.
  // ---------------------------------------------------------------------------------------------

  datatype Cell = Cell(text: string, quoted: bool)

  /** A field that may stand unquoted: no quote, no comma, no record break inside it. */
  predicate PlainSafe(text: string) {
    forall i :: 0 <= i < |text| ==> text[i] != '"' && text[i] != ',' && !AtBreak(text[i..])
  }

  /** A writer quotes at least the fields that need it, and any others it likes. */
  predicate LegalRow(cells: seq<Cell>) {
    cells != [] && forall c :: c in cells ==> c.quoted || PlainSafe(c.text)
  }

  predicate LegalFile(file: seq<seq<Cell>>) {
    forall r :: r in file ==> LegalRow(r)
  }

  function DoubleQuotes(text: string): string {
    if text == "" then ""
    else (if text[0] == '"' then "\"\"" else [text[0]]) + DoubleQuotes(text[1..])
  }

  function WriteCell(c: Cell): string {
    if c.quoted then "\"" + DoubleQuotes(c.text) + "\"" else c.text
  }

  function WriteRow(cells: seq<Cell>): string {
    if cells == [] then ""
    else if |cells| == 1 then WriteCell(cells[0])
    else WriteCell(cells[0]) + ("," + WriteRow(cells[1..]))
  }

  /** Every record, each ended by CRLF. */
  function WriteFile(file: seq<seq<Cell>>): string {
    if file == [] then "" else WriteRow(file[0]) + (CRLF + WriteFile(file[1..]))
  }

  function Texts(cells: seq<Cell>): (texts: seq<string>)
    ensures |texts| == |cells|
  {
    if cells == [] then [] else [cells[0].text] + Texts(cells[1..])
  }

  function Table(file: seq<seq<Cell>>): (table: seq<seq<string>>)
    ensures |table| == |file|
  {
    if file == [] then [] else [Texts(file[0])] + Table(file[1..])
  }

  // ---------------------------------------------------------------------------------------------
  // Reading back what a writer wrote
  // ---------------------------------------------------------------------------------------------

  /** What may follow a field: the end of the file, a comma or a record break. */
  predicate EndsField(rest: string) {
    rest == "" || rest[0] == ',' || AtBreak(rest)
  }

  lemma {:induction false} ScanQuoted(
    text: string, rest: string, rows: seq<seq<string>>, row: seq<string>, field: string)
    requires rest == "" || rest[0] != '"'
    ensures Scan(DoubleQuotes(text) + "\"" + rest, rows, row, field, true)
         == Scan(rest, rows, row, field + text, false)
  {
    var body := DoubleQuotes(text) + "\"" + rest;
    if text == "" {
      assert body == "\"" + rest && body[1..] == rest;
      assert field + text == field;
    } else {
      var tail := DoubleQuotes(text[1..]) + "\"" + rest;
      ScanQuoted(text[1..], rest, rows, row, field + [text[0]]);
      assert field + [text[0]] + text[1..] == field + text;
      if text[0] == '"' {
        assert body == "\"\"" + tail && body[2..] == tail;
      } else {
        assert body == [text[0]] + tail && body[1..] == tail;
      }
    }
  }

  lemma {:induction false} ScanPlain(
    text: string, rest: string, rows: seq<seq<string>>, row: seq<string>, field: string)
    requires PlainSafe(text) && EndsField(rest)
    ensures Scan(text + rest, rows, row, field, false) == Scan(rest, rows, row, field + text, false)
  {
    if text == "" {
      assert text + rest == rest && field + text == field;
    } else {
      var body := text + rest;
      assert body[1..] == text[1..] + rest;
      assert text[0..] == text;
      assert !AtBreak(body) by {
        if |text| > 1 { assert body[1] == text[1]; }
      }
      assert PlainSafe(text[1..]) by {
        forall i | 0 <= i < |text[1..]|
          ensures text[1..][i] != '"' && text[1..][i] != ',' && !AtBreak(text[1..][i..])
        {
          assert text[1..][i] == text[i + 1] && text[1..][i..] == text[i + 1..];
        }
      }
      ScanPlain(text[1..], rest, rows, row, field + [text[0]]);
      assert field + [text[0]] + text[1..] == field + text;
    }
  }

  lemma ScanCell(c: Cell, rest: string, rows: seq<seq<string>>, row: seq<string>)
    requires c.quoted || PlainSafe(c.text)
    requires EndsField(rest)
    ensures Scan(WriteCell(c) + rest, rows, row, "", false) == Scan(rest, rows, row, c.text, false)
  {
    assert "" + c.text == c.text;
    if c.quoted {
      var body := WriteCell(c) + rest;
      assert body == "\"" + (DoubleQuotes(c.text) + "\"" + rest);
      assert body[1..] == DoubleQuotes(c.text) + "\"" + rest;
      ScanQuoted(c.text, rest, rows, row, "");
    } else {
      ScanPlain(c.text, rest, rows, row, "");
    }
  }

  /** One written record: its fields join the open row, which the break or the end of the file closes. */
  lemma {:induction false} ScanRow(
    cells: seq<Cell>, rest: string, rows: seq<seq<string>>, row: seq<string>)
    requires LegalRow(cells)
    requires rest == "" || AtBreak(rest)
    ensures Scan(WriteRow(cells) + rest, rows, row, "", false)
         == if rest != "" then Scan(rest[2..], rows + [row + Texts(cells)], [], "", false)
            else if row == [] && Texts(cells) == [""] then rows
            else rows + [row + Texts(cells)]
  {
    assert cells[0] in cells;
    if |cells| == 1 {
      ScanCell(cells[0], rest, rows, row);
      assert Texts(cells) == [cells[0].text];
    } else {
      var tail := "," + (WriteRow(cells[1..]) + rest);
      assert WriteRow(cells) + rest == WriteCell(cells[0]) + tail by {
        Assoc(WriteCell(cells[0]), "," + WriteRow(cells[1..]), rest);
        Assoc(",", WriteRow(cells[1..]), rest);
      }
      ScanCell(cells[0], tail, rows, row);
      assert tail[1..] == WriteRow(cells[1..]) + rest;
      ScanRow(cells[1..], rest, rows, row + [cells[0].text]);
      Assoc(row, [cells[0].text], Texts(cells[1..]));
    }
  }

  lemma {:induction false} ScanFile(file: seq<seq<Cell>>, rest: string, rows: seq<seq<string>>)
    requires LegalFile(file)
    ensures Scan(WriteFile(file) + rest, rows, [], "", false) == Scan(rest, rows + Table(file), [], "", false)
  {
    if file == [] {
      assert WriteFile(file) + rest == rest && rows + Table(file) == rows;
    } else {
      var cells := file[0];
      assert cells in file;
      var tail := CRLF + (WriteFile(file[1..]) + rest);
      assert WriteFile(file) + rest == WriteRow(cells) + tail by {
        Assoc(WriteRow(cells), CRLF + WriteFile(file[1..]), rest);
        Assoc(CRLF, WriteFile(file[1..]), rest);
      }
      ScanRow(cells, tail, rows, []);
      assert tail[2..] == WriteFile(file[1..]) + rest;
      assert [] + Texts(cells) == Texts(cells);
      ScanFile(file[1..], rest, rows + [Texts(cells)]);
      Assoc(rows, [Texts(cells)], Table(file[1..]));
    }
  }

  lemma {:induction false} TableAppend(file: seq<seq<Cell>>, last: seq<Cell>)
    ensures Table(file + [last]) == Table(file) + [Texts(last)]
  {
    if file == [] {
      assert file + [last] == [last];
    } else {
      assert (file + [last])[1..] == file[1..] + [last];
      TableAppend(file[1..], last);
    }
  }

  /** Whatever the writer quoted, a byte-order mark followed by the file reads as exactly the rows written. */
  lemma RoundTrip(file: seq<seq<Cell>>)
    requires LegalFile(file)
    ensures Parse([BOM] + WriteFile(file)) == Table(file)
  {
    var text := WriteFile(file);
    assert ([BOM] + text)[1..] == text;
    ScanFile(file, "", []);
    assert text + "" == text && [] + Table(file) == Table(file);
  }

  /** The same record without the byte-order mark its first field begins with. */
  lemma WithoutMark(cells: seq<Cell>) returns (shorter: seq<Cell>)
    requires LegalRow(cells) && StartsWith(WriteRow(cells), [BOM])
    ensures LegalRow(shorter) && WriteRow(cells) == [BOM] + WriteRow(shorter)
    ensures Texts(cells)[0] != Texts(shorter)[0]
  {
    var text := WriteRow(cells);
    assert text[..1] == [BOM];
    assert cells[0] in cells;
    var head := cells[0].text;
    assert WriteCell(cells[0]) == head && head != "" && head[0] == BOM by {
      if |cells| > 1 { assert text[0] == (WriteCell(cells[0]) + ("," + WriteRow(cells[1..])))[0]; }
    }
    var first := Cell(head[1..], false);
    assert PlainSafe(first.text) by {
      forall i | 0 <= i < |first.text|
        ensures first.text[i] != '"' && first.text[i] != ',' && !AtBreak(first.text[i..])
      {
        assert first.text[i..] == head[i + 1..] && first.text[i] == head[i + 1];
      }
    }
    shorter := [first] + cells[1..];
    assert head == [BOM] + first.text;
    if |cells| > 1 { Assoc([BOM], first.text, "," + WriteRow(cells[1..])); }
  }

  lemma FileWithoutMark(file: seq<seq<Cell>>) returns (shorter: seq<seq<Cell>>)
    requires LegalFile(file) && StartsWith(WriteFile(file), [BOM])
    ensures LegalFile(shorter) && WriteFile(file) == [BOM] + WriteFile(shorter)
    ensures file != [] && shorter != [] && Table(file)[0] != Table(shorter)[0]
  {
    hide WriteRow, WriteCell, PlainSafe;
    assert file[0] in file;
    var rest := CRLF + WriteFile(file[1..]);
    assert rest[..1] == ['\r'];
    RowStarts(file[0], rest);
    var row := WithoutMark(file[0]);
    shorter := [row] + file[1..];
    Assoc([BOM], WriteRow(row), CRLF + WriteFile(file[1..]));
  }

  /** A mark in front of a record and its break is the record's own. */
  lemma RowStarts(cells: seq<Cell>, rest: string)
    requires cells != [] && StartsWith(WriteRow(cells) + rest, [BOM]) && !StartsWith(rest, [BOM])
    ensures StartsWith(WriteRow(cells), [BOM])
  {
    var row := WriteRow(cells);
    assert row == "" ==> row + rest == rest;
    assert row != "" ==> (row + rest)[..1] == row[..1];
  }

  /** Without that mark the rows come back exactly when the data does not itself begin with one. */
  lemma RoundTripWithoutBom(file: seq<seq<Cell>>)
    requires LegalFile(file)
    ensures Parse(WriteFile(file)) == Table(file) <==> !StartsWith(WriteFile(file), [BOM])
  {
    var text := WriteFile(file);
    if StartsWith(text, [BOM]) {
      var shorter := FileWithoutMark(file);
      RoundTrip(shorter);
    } else {
      ScanFile(file, "", []);
      assert text + "" == text && [] + Table(file) == Table(file);
    }
  }

  /** Without the CRLF after the last record the rows still come back, unless that record is one empty
      field: then, and only then, it is lost. */
  lemma RoundTripWithoutFinalBreak(file: seq<seq<Cell>>, last: seq<Cell>)
    requires LegalFile(file) && LegalRow(last)
    ensures Parse([BOM] + (WriteFile(file) + WriteRow(last)))
         == if Texts(last) == [""] then Table(file) else Table(file + [last])
    ensures Parse([BOM] + (WriteFile(file) + WriteRow(last))) == Table(file + [last]) <==> Texts(last) != [""]
  {
    var body := WriteFile(file) + WriteRow(last);
    assert ([BOM] + body)[1..] == body;
    ScanFile(file, WriteRow(last), []);
    assert [] + Table(file) == Table(file);
    ScanRow(last, "", Table(file), []);
    assert WriteRow(last) + "" == WriteRow(last) && [] + Texts(last) == Texts(last);
    TableAppend(file, last);
  }

  /** And with neither the mark nor the last CRLF they come back exactly when both conditions hold. */
  lemma RoundTripBare(file: seq<seq<Cell>>, last: seq<Cell>)
    requires LegalFile(file) && LegalRow(last)
    ensures var text := WriteFile(file) + WriteRow(last);
      Parse(text) == Table(file + [last]) <==> Texts(last) != [""] && !StartsWith(text, [BOM])
  {
    hide WriteRow, WriteFile, Scan, LegalRow, LegalFile, Table, Texts;
    var text := WriteFile(file) + WriteRow(last);
    TableAppend(file, last);
    if StartsWith(text, [BOM]) {
      BareMarkIsLost(file, last);
    } else {
      RoundTripWithoutFinalBreak(file, last);
      assert ([BOM] + text)[1..] == text;
    }
  }

  lemma BareMarkIsLost(file: seq<seq<Cell>>, last: seq<Cell>)
    requires LegalFile(file) && LegalRow(last) && StartsWith(WriteFile(file) + WriteRow(last), [BOM])
    ensures Parse(WriteFile(file) + WriteRow(last)) != Table(file + [last])
  {
    hide WriteRow, Scan, Parse, LegalRow, LegalFile, Table, Texts;
    TableAppend(file, last);
    if file == [] {
      assert WriteFile(file) + WriteRow(last) == WriteRow(last);
      LoneMarkIsLost(last);
    } else {
      var data := WriteFile(file);
      StartOf(data, WriteRow(last));
      var shorter := FileWithoutMark(file);
      Assoc([BOM], WriteFile(shorter), WriteRow(last));
      FirstRowRead(shorter, last);
    }
  }

  lemma StartOf(a: string, b: string)
    requires a != "" && StartsWith(a + b, [BOM])
    ensures StartsWith(a, [BOM])
  {
    assert (a + b)[..1] == a[..1];
  }

  lemma FirstRowRead(file: seq<seq<Cell>>, last: seq<Cell>)
    requires LegalFile(file) && LegalRow(last) && file != []
    ensures var rows := Parse([BOM] + (WriteFile(file) + WriteRow(last)));
      rows != [] && rows[0] == Table(file)[0]
  {
    hide WriteRow, WriteFile, Scan, Parse, LegalRow, LegalFile, Table, Texts;
    RoundTripWithoutFinalBreak(file, last);
    TableAppend(file, last);
  }

  lemma LoneMarkIsLost(last: seq<Cell>)
    requires LegalRow(last) && StartsWith(WriteRow(last), [BOM])
    ensures Parse(WriteRow(last)) != [Texts(last)]
  {
    hide WriteRow, Scan, Parse, LegalRow, Texts;
    var shorter := WithoutMark(last);
    RoundTripWithoutFinalBreak([], shorter);
    assert [] + WriteRow(shorter) == WriteRow(shorter);
    TableAppend([], shorter);
  }

  // ---------------------------------------------------------------------------------------------
  // Any text at all
  // ---------------------------------------------------------------------------------------------

  lemma {:induction false} ScanRowsNonEmpty(
    body: string, rows: seq<seq<string>>, row: seq<string>, field: string, quoted: bool)
    requires forall r :: r in rows ==> r != []
    ensures forall r :: r in Scan(body, rows, row, field, quoted) ==> r != []
    decreases |body|
  {
    if body == "" {
    } else if quoted {
      if body[0] == '"' && |body| > 1 && body[1] == '"' {
        ScanRowsNonEmpty(body[2..], rows, row, field + ['"'], true);
      } else if body[0] == '"' {
        ScanRowsNonEmpty(body[1..], rows, row, field, false);
      } else {
        ScanRowsNonEmpty(body[1..], rows, row, field + [body[0]], true);
      }
    } else if body[0] == '"' {
      ScanRowsNonEmpty(body[1..], rows, row, field, true);
    } else if body[0] == ',' {
      ScanRowsNonEmpty(body[1..], rows, row + [field], "", false);
    } else if AtBreak(body) {
      ScanRowsNonEmpty(body[2..], rows + [row + [field]], [], "", false);
    } else {
      ScanRowsNonEmpty(body[1..], rows, row, field + [body[0]], false);
    }
  }

  function QuotedRow(row: seq<string>): (cells: seq<Cell>)
    ensures |cells| == |row| && Texts(cells) == row
    ensures forall c :: c in cells ==> c.quoted
  {
    if row == [] then [] else [Cell(row[0], true)] + QuotedRow(row[1..])
  }

  /** The rows of a table as a writer that quotes every field lays them out. */
  function Quoted(table: seq<seq<string>>): (file: seq<seq<Cell>>)
    requires forall r :: r in table ==> r != []
    ensures LegalFile(file) && Table(file) == table
  {
    if table == [] then []
    else
      assert table[0] in table && forall r :: r in table[1..] ==> r in table;
      [QuotedRow(table[0])] + Quoted(table[1..])
  }

  /** Every text, well formed or not, reads as a table that survives being written and read again:
      no row is empty and writing it fully quoted loses nothing. */
  lemma ParsedTablesAreWritable(text: string)
    ensures forall r :: r in Parse(text) ==> r != []
    ensures Parse([BOM] + WriteFile(Quoted(Parse(text)))) == Parse(text)
  {
    ScanRowsNonEmpty(StripBom(text), [], [], "", false);
    RoundTrip(Quoted(Parse(text)));
  }
}
