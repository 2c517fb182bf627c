/** CSV reports, and a reader after section 2 of RFC 4180 that also lets a bare LF end a record. */
module Csv {
  import opened Joining

  // ---- Writing ----

  predicate NeedsQuotes(text: string) {
    exists c :: c in text && (c == '"' || c == ',' || c == '\r' || c == '\n')
  }

  function DoubleQuotes(text: string): string {
    if text == "" then "" else (if text[0] == '"' then "\"\"" else [text[0]]) + DoubleQuotes(text[1..])
  }

  function Cell(text: string): string {
    if NeedsQuotes(text) then "\"" + DoubleQuotes(text) + "\"" else text
  }

  /** A row holds the text of each column it has a value for; a missing or null value is the empty text. */
  type Row = map<string, string>

  function Texts(row: Row, columns: seq<string>): seq<string> {
    if columns == [] then []
    else [if columns[0] in row then row[columns[0]] else ""] + Texts(row, columns[1..])
  }

  function Cells(texts: seq<string>): seq<string> {
    if texts == [] then [] else [Cell(texts[0])] + Cells(texts[1..])
  }

  function RowLine(row: Row, columns: seq<string>): string {
    Join(Cells(Texts(row, columns)), ",")
  }

  function RowLines(rows: seq<Row>, columns: seq<string>): seq<string> {
    if rows == [] then [] else [RowLine(rows[0], columns)] + RowLines(rows[1..], columns)
  }

  function EncodeCsv(rows: seq<Row>, columns: seq<string>): string {
    Join([Join(columns, ",")] + RowLines(rows, columns), "\n") + "\n"
  }

  // ---- Reading ----

  datatype Read<+T> = Malformed | Parsed(value: T, rest: string)

  /** The rest of a quoted field, after its opening quote: two quotes stand for one, a single one ends the field. */
  function ReadQuoted(s: string): (r: Read<string>)
    ensures r.Parsed? ==> |r.rest| < |s|
  {
    if s == "" then Malformed
    else if s[0] != '"' then
      match ReadQuoted(s[1..])
      case Malformed => Malformed
      case Parsed(text, rest) => Parsed([s[0]] + text, rest)
    else if |s| > 1 && s[1] == '"' then
      match ReadQuoted(s[2..])
      case Malformed => Malformed
      case Parsed(text, rest) => Parsed("\"" + text, rest)
    else Parsed("", s[1..])
  }

  /** An unquoted field ends before a comma or a line break and contains no quote. */
  function ReadPlain(s: string): (r: Read<string>)
    ensures r.Parsed? ==> |r.rest| <= |s|
  {
    if s == "" || s[0] == ',' || s[0] == '\r' || s[0] == '\n' then Parsed("", s)
    else if s[0] == '"' then Malformed
    else
      match ReadPlain(s[1..])
      case Malformed => Malformed
      case Parsed(text, rest) => Parsed([s[0]] + text, rest)
  }

  function ReadField(s: string): (r: Read<string>)
    ensures r.Parsed? ==> |r.rest| <= |s|
  {
    if s != "" && s[0] == '"' then ReadQuoted(s[1..]) else ReadPlain(s)
  }

  function ReadRecord(s: string): (r: Read<seq<string>>)
    ensures r.Parsed? ==> |r.rest| <= |s| && (s != "" ==> |r.rest| < |s|)
    decreases |s|
  {
    match ReadField(s)
    case Malformed => Malformed
    case Parsed(field, rest) =>
      if rest == "" then Parsed([field], "")
      else if rest[0] == ',' then
        match ReadRecord(rest[1..]) {
          case Malformed => Malformed
          case Parsed(fields, rest') => Parsed([field] + fields, rest')
        }
      else if rest[0] == '\n' then Parsed([field], rest[1..])
      else if |rest| > 1 && rest[0] == '\r' && rest[1] == '\n' then Parsed([field], rest[2..])
      else Malformed
  }

  /** All the records of a file; None when it is not well-formed. */
  function ReadCsv(s: string): Read<seq<seq<string>>>
    decreases |s|
  {
    if s == "" then Parsed([], "")
    else
      match ReadRecord(s)
      case Malformed => Malformed
      case Parsed(record, rest) =>
        match ReadCsv(rest)
        case Malformed => Malformed
        case Parsed(records, _) => Parsed([record] + records, "")
  }

  // ---- Round trip ----

  ghost predicate EndsField(rest: string) { rest != "" && (rest[0] == ',' || rest[0] == '\n') }

  lemma {:induction false} ReadQuotedOf(text: string, rest: string)
    requires EndsField(rest)
    ensures ReadQuoted(DoubleQuotes(text) + "\"" + rest) == Parsed(text, rest)
  {
    if text == "" {
      ReadQuotedEnd(rest);
    } else {
      ReadQuotedOf(text[1..], rest);
      ReadQuotedNext(text[0], DoubleQuotes(text[1..]) + "\"" + rest);
      DoubledHead(text, rest);
      assert text == [text[0]] + text[1..];
    }
  }

  lemma ReadQuotedEnd(rest: string)
    requires EndsField(rest)
    ensures ReadQuoted(DoubleQuotes("") + "\"" + rest) == Parsed("", rest)
  {
    var s := DoubleQuotes("") + "\"" + rest;
    assert s == "\"" + rest;
    assert s[1..] == rest;
  }

  lemma DoubledHead(text: string, rest: string)
    requires text != ""
    ensures DoubleQuotes(text) + "\"" + rest
         == (if text[0] == '"' then "\"\"" else [text[0]]) + (DoubleQuotes(text[1..]) + "\"" + rest)
  {
  }

  lemma ReadQuotedNext(c: char, tail: string)
    ensures var read := ReadQuoted((if c == '"' then "\"\"" else [c]) + tail);
            read == if ReadQuoted(tail).Malformed? then Malformed
                else Parsed([c] + ReadQuoted(tail).value, ReadQuoted(tail).rest)
  {
    var s := (if c == '"' then "\"\"" else [c]) + tail;
    if c == '"' {
      assert s[2..] == tail;
    } else {
      assert s[1..] == tail;
    }
  }

  lemma {:induction false} ReadPlainOf(text: string, rest: string)
    requires EndsField(rest) && !NeedsQuotes(text)
    ensures ReadPlain(text + rest) == Parsed(text, rest)
  {
    if text == "" {
      assert text + rest == rest;
    } else {
      assert text[0] in text && forall c :: c in text[1..] ==> c in text;
      ReadPlainOf(text[1..], rest);
      assert (text + rest)[1..] == text[1..] + rest;
      assert text == [text[0]] + text[1..];
    }
  }

  lemma ReadFieldOf(text: string, rest: string)
    requires EndsField(rest)
    ensures ReadField(Cell(text) + rest) == Parsed(text, rest)
  {
    var s := Cell(text) + rest;
    if NeedsQuotes(text) {
      ReadQuotedOf(text, rest);
      var quoted := DoubleQuotes(text) + "\"" + rest;
      assert s == "\"" + quoted;
      assert s[0] == '"' && s[1..] == quoted;
    } else {
      ReadPlainOf(text, rest);
      PlainStart(text, rest);
    }
  }

  lemma PlainStart(text: string, rest: string)
    requires EndsField(rest) && !NeedsQuotes(text)
    ensures text + rest != "" && (text + rest)[0] != '"'
  {
    if text != "" {
      assert text[0] in text && (text + rest)[0] == text[0];
    }
  }

  lemma {:induction false} ReadRecordOf(texts: seq<string>, rest: string)
    requires texts != []
    ensures ReadRecord(Join(Cells(texts), ",") + "\n" + rest) == Parsed(texts, rest)
  {
    var s := Join(Cells(texts), ",") + "\n" + rest;
    if |texts| == 1 {
      assert Cells(texts) == [Cell(texts[0])];
      assert s == Cell(texts[0]) + ("\n" + rest);
      ReadFieldOf(texts[0], "\n" + rest);
      assert ("\n" + rest)[1..] == rest;
      assert texts == [texts[0]];
    } else {
      var tail := Join(Cells(texts[1..]), ",") + "\n" + rest;
      assert Cells(texts)[1..] == Cells(texts[1..]);
      assert |Cells(texts[1..])| > 0;
      assert s == Cell(texts[0]) + ("," + tail);
      ReadFieldOf(texts[0], "," + tail);
      assert ("," + tail)[1..] == tail;
      ReadRecordOf(texts[1..], rest);
      assert texts == [texts[0]] + texts[1..];
    }
  }

  function AllTexts(rows: seq<Row>, columns: seq<string>): seq<seq<string>> {
    if rows == [] then [] else [Texts(rows[0], columns)] + AllTexts(rows[1..], columns)
  }

  lemma {:induction false} ReadRowsOf(rows: seq<Row>, columns: seq<string>)
    requires columns != [] && rows != []
    ensures ReadCsv(Join(RowLines(rows, columns), "\n") + "\n") == Parsed(AllTexts(rows, columns), "")
  {
    var lines := RowLines(rows, columns);
    var s := Join(lines, "\n") + "\n";
    if |rows| == 1 {
      assert lines == [RowLine(rows[0], columns)];
      assert s == RowLine(rows[0], columns) + "\n" + "";
      ReadRecordOf(Texts(rows[0], columns), "");
      assert AllTexts(rows, columns) == [Texts(rows[0], columns)];
    } else {
      var tail := Join(RowLines(rows[1..], columns), "\n") + "\n";
      assert lines[1..] == RowLines(rows[1..], columns) && |lines| > 1;
      assert s == RowLine(rows[0], columns) + "\n" + tail;
      ReadRecordOf(Texts(rows[0], columns), tail);
      ReadRowsOf(rows[1..], columns);
    }
  }

  ghost predicate PlainColumns(columns: seq<string>) {
    forall i :: 0 <= i < |columns| ==> !NeedsQuotes(columns[i])
  }

  lemma {:induction false} PlainCells(columns: seq<string>)
    requires PlainColumns(columns)
    ensures Cells(columns) == columns
  {
    if columns != [] {
      assert PlainColumns(columns[1..]);
      PlainCells(columns[1..]);
    }
  }

  /**
   For any rows and any list of at least one column whose names need no quotes, reading the report back gives the
   column names and then exactly the original cell texts, row by row.
   */
  lemma CsvRoundTrip(rows: seq<Row>, columns: seq<string>)
    requires columns != [] && PlainColumns(columns)
    ensures ReadCsv(EncodeCsv(rows, columns)) == Parsed([columns] + AllTexts(rows, columns), "")
  {
    PlainCells(columns);
    var head := Join(columns, ",");
    if rows == [] {
      assert [head] + RowLines(rows, columns) == [head];
      assert EncodeCsv(rows, columns) == head + "\n" + "";
      ReadRecordOf(columns, "");
      assert [columns] + AllTexts(rows, columns) == [columns] + [];
    } else {
      var body := Join(RowLines(rows, columns), "\n") + "\n";
      assert ([head] + RowLines(rows, columns))[1..] == RowLines(rows, columns);
      assert |RowLines(rows, columns)| > 0;
      assert EncodeCsv(rows, columns) == head + "\n" + body;
      ReadRecordOf(columns, body);
      ReadRowsOf(rows, columns);
    }
  }

  /** A cell is written as it is unless it has a comma, a quote or a line break, and then between quotes. */
  lemma QuotedExactlyWhen(text: string)
    ensures Cell(text) == text <==> !exists i :: 0 <= i < |text| && text[i] in {',', '"', '\r', '\n'}
    ensures Cell(text) != text ==> |Cell(text)| >= 2 && Cell(text)[0] == '"' && Cell(text)[|Cell(text)| - 1] == '"'
  {
    if i :| 0 <= i < |text| && text[i] in {',', '"', '\r', '\n'} {
      assert text[i] in text && NeedsQuotes(text);
      DoubledLonger(text);
    }
  }

  lemma {:induction false} DoubledLonger(text: string)
    ensures |DoubleQuotes(text)| >= |text|
  {
    if text != "" {
      DoubledLonger(text[1..]);
    }
  }
}
