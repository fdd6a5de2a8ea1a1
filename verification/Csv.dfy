// CSV printing (src/lib/reports/csv.ts), and a strict parser for the format of
// section 2 of RFC 4180 with CRLF as a separator between records.
module Csv {
  import opened Text
  import opened Wrappers

  const BOM := '\U{FEFF}'

  // ----- Printing -----

  predicate Special(c: char) {
    c == '"' || c == ',' || c == '\r' || c == '\n'
  }

  predicate NeedsQuotes(s: string) {
    exists k :: 0 <= k < |s| && Special(s[k])
  }

  /** Every quote twice. */
  function Doubled(s: string): string {
    if s == "" then "" else (if s[0] == '"' then "\"\"" else [s[0]]) + Doubled(s[1..])
  }

  function EscapeCell(value: Option<string>): string {
    if value.None? then ""
    else if NeedsQuotes(value.value) then "\"" + Doubled(value.value) + "\""
    else value.value
  }

  function EscapeRow(row: seq<Option<string>>): string {
    Join(seq(|row|, k requires 0 <= k < |row| => EscapeCell(row[k])), ',')
  }

  function JoinLines(lines: seq<string>): string {
    if lines == [] then ""
    else if |lines| == 1 then lines[0]
    else lines[0] + "\r\n" + JoinLines(lines[1..])
  }

  function RowLines(rows: seq<seq<Option<string>>>): seq<string> {
    seq(|rows|, k requires 0 <= k < |rows| => EscapeRow(rows[k]))
  }

  /** The text of a table: the header is its first row. */
  function Csv(table: seq<seq<Option<string>>>): string {
    [BOM] + JoinLines(RowLines(table))
  }

  method ToCsv(header: seq<string>, rows: seq<seq<Option<string>>>) returns (text: string)
    ensures text == Csv([Cells(header)] + rows)
  {
    var lines := [EscapeRow(Cells(header))];
    for k := 0 to |rows|
      invariant lines == RowLines([Cells(header)] + rows[..k])
    {
      assert [Cells(header)] + rows[..k + 1] == ([Cells(header)] + rows[..k]) + [rows[k]];
      lines := lines + [EscapeRow(rows[k])];
    }
    assert rows[..|rows|] == rows;
    text := [BOM] + JoinLines(lines);
  }

  function Cells(header: seq<string>): seq<Option<string>> {
    seq(|header|, k requires 0 <= k < |header| => Some(header[k]))
  }

  // ----- Parsing -----

  /** What a cell without quotes may hold. */
  predicate TextData(c: char) {
    c !in {'"', ',', '\r', '\n'}
  }

  /** The longest run of ordinary characters. */
  function ParsePlain(s: string): (r: (string, string))
    ensures |r.1| <= |s|
  {
    if s == "" || !TextData(s[0]) then ("", s)
    else
      var (cell, rest) := ParsePlain(s[1..]);
      ([s[0]] + cell, rest)
  }

  /** A quoted cell, after its opening quote. */
  function ParseQuoted(s: string): (r: Option<(string, string)>)
    ensures r.Some? ==> |r.value.1| < |s|
  {
    if s == "" then None
    else if s[0] == '"' && (|s| == 1 || s[1] != '"') then Some(("", s[1..]))
    else
      var step := if s[0] == '"' then 2 else 1;
      var r := ParseQuoted(s[step..]);
      if r.None? then None else Some(([s[0]] + r.value.0, r.value.1))
  }

  function ParseCell(s: string): (r: Option<(string, string)>)
    ensures r.Some? ==> |r.value.1| <= |s|
  {
    if s != "" && s[0] == '"' then ParseQuoted(s[1..]) else Some(ParsePlain(s))
  }

  function ParseRecord(s: string): (r: Option<(seq<string>, string)>)
    ensures r.Some? ==> |r.value.1| <= |s|
    decreases |s|
  {
    var cell := ParseCell(s);
    if cell.None? then None
    else
      var (text, rest) := cell.value;
      if rest != "" && rest[0] == ',' then
        var more := ParseRecord(rest[1..]);
        if more.None? then None else Some(([text] + more.value.0, more.value.1))
      else Some(([text], rest))
  }

  function ParseRecords(s: string): Option<seq<seq<string>>>
    decreases |s|
  {
    var record := ParseRecord(s);
    if record.None? then None
    else
      var (cells, rest) := record.value;
      if rest == "" then Some([cells])
      else if |rest| >= 2 && rest[..2] == "\r\n" then
        var more := ParseRecords(rest[2..]);
        if more.None? then None else Some([cells] + more.value)
      else None
  }

  function ParseCsv(text: string): Option<seq<seq<string>>> {
    if text == "" || text[0] != BOM then None else ParseRecords(text[1..])
  }

  // ----- Parsing undoes printing -----

  /** What is read back from a cell: nothing printed reads as the empty text. */
  function Read(value: Option<string>): string {
    if value.None? then "" else value.value
  }

  function ReadRow(row: seq<Option<string>>): seq<string> {
    seq(|row|, k requires 0 <= k < |row| => Read(row[k]))
  }

  function ReadTable(table: seq<seq<Option<string>>>): seq<seq<string>> {
    seq(|table|, k requires 0 <= k < |table| => ReadRow(table[k]))
  }

  /** What may follow a cell. */
  ghost predicate Ends(rest: string) {
    rest == "" || rest[0] == ',' || rest[0] == '\r'
  }

  lemma {:induction false} PlainParsed(s: string, rest: string)
    requires !NeedsQuotes(s) && Ends(rest)
    ensures ParsePlain(s + rest) == (s, rest)
  {
    if s == "" {
      assert s + rest == rest;
    } else {
      assert !Special(s[0]) && s == [s[0]] + s[1..];
      assert !NeedsQuotes(s[1..]);
      assert (s + rest)[1..] == s[1..] + rest;
      PlainParsed(s[1..], rest);
    }
  }

  lemma {:induction false} QuotedParsed(s: string, rest: string)
    requires Ends(rest)
    ensures ParseQuoted(Doubled(s) + "\"" + rest) == Some((s, rest))
  {
    var text := Doubled(s) + "\"" + rest;
    if s == "" {
      assert text == "\"" + rest;
    } else {
      var tail := Doubled(s[1..]) + "\"" + rest;
      QuotedParsed(s[1..], rest);
      assert s == [s[0]] + s[1..];
      if s[0] == '"' {
        assert text == "\"\"" + tail;
        assert text[2..] == tail;
      } else {
        assert text == [s[0]] + tail;
        assert text[1..] == tail;
      }
    }
  }

  lemma CellParsed(value: Option<string>, rest: string)
    requires Ends(rest)
    ensures ParseCell(EscapeCell(value) + rest) == Some((Read(value), rest))
  {
    var s := Read(value);
    if NeedsQuotes(s) {
      var text := EscapeCell(value) + rest;
      assert text == "\"" + (Doubled(s) + "\"" + rest);
      assert text[1..] == Doubled(s) + "\"" + rest;
      QuotedParsed(s, rest);
    } else {
      assert EscapeCell(value) == s;
      PlainParsed(s, rest);
      if s != "" {
        assert (s + rest)[0] == s[0] && !Special(s[0]);
      } else {
        assert s + rest == rest;
      }
    }
  }

  lemma EscapeRowCons(row: seq<Option<string>>)
    requires |row| > 1
    ensures EscapeRow(row) == EscapeCell(row[0]) + [','] + EscapeRow(row[1..])
  {
    var cells := seq(|row|, k requires 0 <= k < |row| => EscapeCell(row[k]));
    assert cells[1..] == seq(|row[1..]|, k requires 0 <= k < |row[1..]| => EscapeCell(row[1..][k]));
  }

  lemma ParseRecordCons(s: string, text: string, after: string, cells: seq<string>, rest: string)
    requires ParseCell(s) == Some((text, [','] + after)) && ParseRecord(after) == Some((cells, rest))
    ensures ParseRecord(s) == Some(([text] + cells, rest))
  {
    assert ([','] + after)[1..] == after;
  }

  lemma ParseRecordLast(s: string, text: string, rest: string)
    requires ParseCell(s) == Some((text, rest)) && (rest == "" || rest[0] != ',')
    ensures ParseRecord(s) == Some(([text], rest))
  {
  }

  lemma ReadRowCons(row: seq<Option<string>>)
    requires row != []
    ensures ReadRow(row) == [Read(row[0])] + ReadRow(row[1..])
  {
  }

  lemma {:induction false} RecordParsed(row: seq<Option<string>>, rest: string)
    requires row != [] && (rest == "" || rest[0] == '\r')
    ensures ParseRecord(EscapeRow(row) + rest) == Some((ReadRow(row), rest))
  {
    ReadRowCons(row);
    if |row| == 1 {
      assert EscapeRow(row) == EscapeCell(row[0]);
      CellParsed(row[0], rest);
      ParseRecordLast(EscapeRow(row) + rest, Read(row[0]), rest);
      assert ReadRow(row) == [Read(row[0])];
    } else {
      EscapeRowCons(row);
      var after := EscapeRow(row[1..]) + rest;
      assert EscapeRow(row) + rest == EscapeCell(row[0]) + ([','] + after);
      CellParsed(row[0], [','] + after);
      RecordParsed(row[1..], rest);
      ParseRecordCons(EscapeRow(row) + rest, Read(row[0]), after, ReadRow(row[1..]), rest);
    }
  }

  ghost predicate NoEmptyRow(table: seq<seq<Option<string>>>) {
    forall k :: 0 <= k < |table| ==> table[k] != []
  }

  lemma {:induction false} RecordsParsed(table: seq<seq<Option<string>>>)
    requires table != [] && NoEmptyRow(table)
    ensures ParseRecords(JoinLines(RowLines(table))) == Some(ReadTable(table))
  {
    var lines := RowLines(table);
    if |table| == 1 {
      RecordParsed(table[0], "");
      assert EscapeRow(table[0]) + "" == EscapeRow(table[0]);
      assert ReadTable(table) == [ReadRow(table[0])];
    } else {
      assert lines[1..] == RowLines(table[1..]);
      var tail := JoinLines(RowLines(table[1..]));
      var after := "\r\n" + tail;
      assert JoinLines(lines) == EscapeRow(table[0]) + after;
      RecordParsed(table[0], after);
      assert after[..2] == "\r\n" && after[2..] == tail;
      RecordsParsed(table[1..]);
      assert ReadTable(table) == [ReadRow(table[0])] + ReadTable(table[1..]);
    }
  }

  /** Reading a printed table gives back its header and every cell, with null read as empty. */
  lemma CsvRoundTrip(header: seq<string>, rows: seq<seq<Option<string>>>)
    requires header != [] && forall k :: 0 <= k < |rows| ==> |rows[k]| == |header|
    ensures ParseCsv(Csv([Cells(header)] + rows)) == Some([header] + ReadTable(rows))
  {
    var table := [Cells(header)] + rows;
    RecordsParsed(table);
    assert Csv(table)[1..] == JoinLines(RowLines(table));
    assert ReadRow(Cells(header)) == header;
    assert ReadTable(table) == [header] + ReadTable(rows);
  }

  /** Two tables of texts that print alike are the same table. */
  lemma CsvInjective(a: seq<seq<string>>, b: seq<seq<string>>)
    requires a != [] && b != []
    requires NoEmptyRow(Texts(a)) && NoEmptyRow(Texts(b))
    requires Csv(Texts(a)) == Csv(Texts(b))
    ensures a == b
  {
    TextsRead(a);
    TextsRead(b);
    RecordsParsed(Texts(a));
    RecordsParsed(Texts(b));
    assert Csv(Texts(a))[1..] == JoinLines(RowLines(Texts(a)));
    assert Csv(Texts(b))[1..] == JoinLines(RowLines(Texts(b)));
  }

  function Texts(table: seq<seq<string>>): seq<seq<Option<string>>> {
    seq(|table|, k requires 0 <= k < |table| => Cells(table[k]))
  }

  lemma TextsRead(table: seq<seq<string>>)
    ensures ReadTable(Texts(table)) == table
  {
    forall k | 0 <= k < |table| ensures ReadRow(Texts(table)[k]) == table[k] {
    }
  }

  /** A cell is printed as it is exactly when it holds no quote, comma or line break; any other gets quotes around it. */
  lemma QuotedIff(s: string)
    ensures EscapeCell(Some(s)) == s <==> '"' !in s && ',' !in s && '\r' !in s && '\n' !in s
    ensures EscapeCell(Some(s)) != s ==> |EscapeCell(Some(s))| >= |s| + 2 && EscapeCell(Some(s))[0] == '"'
  {
    DoubledLonger(s);
    assert forall k :: 0 <= k < |s| ==> s[k] in s;
  }

  lemma {:induction false} DoubledLonger(s: string)
    ensures |Doubled(s)| >= |s|
  {
    if s == "" {
    } else {
      DoubledLonger(s[1..]);
    }
  }
}
