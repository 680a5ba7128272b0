/** The importers' CSV parser (`packages/importers/src/csv-parser.ts`). */
module Csv {
  type Row = seq<string>

  /** The loop's variables but for its index. */
  datatype State = State(rows: seq<Row>, row: Row, field: string, inQuotes: bool)
  {
    function Add(c: char): State { this.(field := field + [c]) }

    function EndField(): State { this.(row := row + [field], field := "") }

    function EndRow(): State { State(rows + [row + [field]], [], "", inQuotes) }
  }

  const START := State([], [], "", false)

  /** What the text still to be read does to the state. */
  function Scan(text: string, s: State): State
    decreases |text|
  {
    if text == "" then s
    else if s.inQuotes then
      if text[0] == '"' then
        if |text| > 1 && text[1] == '"' then Scan(text[2..], s.Add('"')) else Scan(text[1..], s.(inQuotes := false))
      else Scan(text[1..], s.Add(text[0]))
    else if text[0] == '"' && s.field == "" then Scan(text[1..], s.(inQuotes := true))
    else if text[0] == ',' then Scan(text[1..], s.EndField())
    else if text[0] == '\r' then Scan(text[1..], s)
    else if text[0] == '\n' then Scan(text[1..], s.EndRow())
    else Scan(text[1..], s.Add(text[0]))
  }

  /** The flush of whatever the text left open. */
  function Flush(s: State): seq<Row> {
    if s.field != "" || s.row != [] then s.EndRow().rows else s.rows
  }

  /** Rows of one empty field are dropped. */
  function DropEmpty(rows: seq<Row>): seq<Row> {
    if rows == [] then [] else (if rows[0] == [""] then [] else [rows[0]]) + DropEmpty(rows[1..])
  }

  function Parse(text: string): seq<Row> { DropEmpty(Flush(Scan(text, START))) }

  /** The loop over the input. */
  method ParseCsv(input: string) returns (result: seq<Row>)
    ensures result == Parse(input)
  {
    var rows: seq<Row>, row: Row, field: string, inQuotes := [], [], "", false;
    var i := 0;
    assert input[0..] == input;
    while i < |input|
      invariant i <= |input|
      invariant Scan(input[i..], State(rows, row, field, inQuotes)) == Scan(input, START)
      decreases |input| - i
    {
      var c := input[i];
      assert input[i..][1..] == input[i + 1..];
      if inQuotes {
        if c == '"' {
          if i + 1 < |input| && input[i + 1] == '"' {
            assert input[i..][2..] == input[i + 2..];
            field := field + ['"'];
            i := i + 2;
            continue;
          }
          inQuotes := false;
          i := i + 1;
          continue;
        }
        field := field + [c];
        i := i + 1;
        continue;
      }
      if c == '"' && field == "" {
        inQuotes := true;
      } else if c == ',' {
        row, field := row + [field], "";
      } else if c == '\r' {
      } else if c == '\n' {
        rows, row, field := rows + [row + [field]], [], "";
      } else {
        field := field + [c];
      }
      i := i + 1;
    }
    assert input[i..] == "";
    if field != "" || row != [] {
      rows := rows + [row + [field]];
    }
    result := DropEmpty(rows);
  }

  // Writing tables, section 2 of RFC 4180.

  /** A cell is written between quotes, with quotes doubled, or as it is. */
  datatype Cell = Quoted(text: string) | Plain(text: string)
  {
    /** What may be written as it is: no separator or line break, and no opening quote. */
    predicate Writable() {
      Plain? ==> (forall c | c in text :: c != ',' && c != '\r' && c != '\n') && (text != "" ==> text[0] != '"')
    }
  }

  datatype Ending = Lf | CrLf
  {
    function Text(): string { if Lf? then "\n" else "\r\n" }
  }

  datatype Line = Line(cells: seq<Cell>, ending: Ending)

  function Doubled(text: string): string {
    if text == "" then "" else (if text[0] == '"' then "\"\"" else [text[0]]) + Doubled(text[1..])
  }

  function WriteCell(c: Cell): string {
    match c
    case Quoted(text) => "\"" + Doubled(text) + "\""
    case Plain(text) => text
  }

  function WriteCells(cells: seq<Cell>): string
    requires cells != []
  {
    WriteCell(cells[0]) + if |cells| == 1 then "" else "," + WriteCells(cells[1..])
  }

  /** The last line may go without its line break. */
  function WriteLines(lines: seq<Line>, closed: bool): string
    requires forall j | 0 <= j < |lines| :: lines[j].cells != []
  {
    if lines == [] then ""
    else
      WriteCells(lines[0].cells) + (if |lines| > 1 || closed then lines[0].ending.Text() else "") + WriteLines(lines[1..], closed)
  }

  function Texts(cells: seq<Cell>): Row {
    if cells == [] then [] else [cells[0].text] + Texts(cells[1..])
  }

  function Rows(lines: seq<Line>): seq<Row> {
    if lines == [] then [] else [Texts(lines[0].cells)] + Rows(lines[1..])
  }

  predicate IsWritable(lines: seq<Line>) {
    forall j | 0 <= j < |lines| ::
      lines[j].cells != [] && forall k | 0 <= k < |lines[j].cells| :: lines[j].cells[k].Writable()
  }

  /** What follows a cell: nothing, a separator or a line break. */
  predicate Delimited(rest: string) {
    rest == "" || rest[0] == ',' || rest[0] == '\r' || rest[0] == '\n'
  }

  /** One written character of a quoted text. */
  lemma ScanQuotedChar(c: char, rest: string, s: State)
    requires s.inQuotes
    ensures Scan((if c == '"' then "\"\"" else [c]) + rest, s) == Scan(rest, s.Add(c))
  {
    var written := if c == '"' then "\"\"" else [c];
    assert (written + rest)[|written|..] == rest;
  }

  lemma ScanClosingQuote(rest: string, s: State)
    requires s.inQuotes && Delimited(rest)
    ensures Scan("\"" + rest, s) == Scan(rest, s.(inQuotes := false))
  {
    assert ("\"" + rest)[1..] == rest;
  }

  lemma AddThenRest(field: string, text: string)
    requires text != ""
    ensures field + text == field + [text[0]] + text[1..]
  {
  }

  lemma {:induction false} ScanQuotedText(text: string, rest: string, s: State)
    requires s.inQuotes && Delimited(rest)
    ensures Scan(Doubled(text) + ("\"" + rest), s) == Scan(rest, s.(field := s.field + text, inQuotes := false))
    decreases |text|
  {
    hide Scan;
    if text == "" {
      assert Doubled(text) + ("\"" + rest) == "\"" + rest;
      ScanClosingQuote(rest, s);
      assert s.field + text == s.field;
    } else {
      var tail := Doubled(text[1..]) + ("\"" + rest);
      assert Doubled(text) + ("\"" + rest) == (if text[0] == '"' then "\"\"" else [text[0]]) + tail;
      ScanQuotedChar(text[0], tail, s);
      ScanQuotedText(text[1..], rest, s.Add(text[0]));
      AddThenRest(s.field, text);
    }
  }

  lemma {:induction false} ScanPlainText(text: string, rest: string, s: State)
    requires !s.inQuotes && (s.field == "" && text != "" ==> text[0] != '"')
    requires forall c | c in text :: c != ',' && c != '\r' && c != '\n'
    ensures Scan(text + rest, s) == Scan(rest, s.(field := s.field + text))
    decreases |text|
  {
    if text == "" {
      assert text + rest == rest && s.field + text == s.field;
    } else {
      assert text[0] in text;
      assert (text + rest)[1..] == text[1..] + rest;
      assert forall c | c in text[1..] :: c in text;
      ScanPlainText(text[1..], rest, s.Add(text[0]));
      AddThenRest(s.field, text);
    }
  }

  lemma ScanOpeningQuote(rest: string, s: State)
    requires !s.inQuotes && s.field == ""
    ensures Scan("\"" + rest, s) == Scan(rest, s.(inQuotes := true))
  {
    assert ("\"" + rest)[1..] == rest;
  }

  lemma ScanCell(c: Cell, rest: string, s: State)
    requires !s.inQuotes && s.field == "" && c.Writable() && Delimited(rest)
    ensures Scan(WriteCell(c) + rest, s) == Scan(rest, s.(field := c.text))
  {
    hide Scan, Doubled;
    assert "" + c.text == c.text;
    match c {
      case Quoted(text) =>
        var inner := Doubled(text) + ("\"" + rest);
        assert WriteCell(c) + rest == "\"" + inner;
        ScanOpeningQuote(inner, s);
        ScanQuotedText(text, rest, s.(inQuotes := true));
      case Plain(text) =>
        ScanPlainText(text, rest, s);
    }
  }

  lemma ScanSeparator(rest: string, s: State)
    requires !s.inQuotes
    ensures Scan("," + rest, s) == Scan(rest, s.EndField())
  {
    assert ("," + rest)[1..] == rest;
  }

  /** The state after the cells of a line: all but the last are in the row, the last in the field. */
  function AfterCells(s: State, texts: Row): State
    requires texts != []
  {
    s.(row := s.row + texts[..|texts| - 1], field := texts[|texts| - 1])
  }

  lemma AfterCellsCons(s: State, text: string, others: Row)
    requires others != []
    ensures AfterCells(s, [text] + others) == AfterCells(s.(field := text).EndField(), others)
  {
    var texts := [text] + others;
    assert s.row + texts[..|texts| - 1] == s.row + [text] + others[..|others| - 1];
  }

  lemma {:induction false} ScanCells(cells: seq<Cell>, rest: string, s: State)
    requires cells != [] && !s.inQuotes && s.field == "" && Delimited(rest)
    requires forall k | 0 <= k < |cells| :: cells[k].Writable()
    ensures Texts(cells) != [] && Scan(WriteCells(cells) + rest, s) == Scan(rest, AfterCells(s, Texts(cells)))
    decreases |cells|
  {
    hide Scan, WriteCell;
    var c, others := cells[0], cells[1..];
    if |cells| == 1 {
      assert others == [] && Texts(cells) == [c.text];
      assert WriteCells(cells) + rest == WriteCell(c) + rest;
      ScanCell(c, rest, s);
      assert s.row + [] == s.row;
    } else {
      var tail := WriteCells(others) + rest;
      assert WriteCells(cells) + rest == WriteCell(c) + ("," + tail);
      ScanCell(c, "," + tail, s);
      ScanSeparator(tail, s.(field := c.text));
      ScanCells(others, rest, s.(field := c.text).EndField());
      AfterCellsCons(s, c.text, Texts(others));
    }
  }

  lemma ScanEnding(ending: Ending, rest: string, s: State)
    requires !s.inQuotes
    ensures Scan(ending.Text() + rest, s) == Scan(rest, s.EndRow())
  {
    if ending.CrLf? {
      assert (ending.Text() + rest)[1..] == "\n" + rest;
    }
    assert ("\n" + rest)[1..] == rest;
  }

  lemma LastText(row: Row)
    requires row != []
    ensures row[..|row| - 1] + [row[|row| - 1]] == row
  {
  }

  /** Dropping empty rows forgets whether the last line was closed. */
  lemma {:induction false} DropEmptyConcat(a: seq<Row>, b: seq<Row>)
    ensures DropEmpty(a + b) == DropEmpty(a) + DropEmpty(b)
    decreases |a|
  {
    if a == [] {
      assert a + b == b;
    } else {
      assert (a + b)[1..] == a[1..] + b;
      DropEmptyConcat(a[1..], b);
    }
  }

  /** The last line, without its line break. */
  lemma ScanOpenLine(cells: seq<Cell>, rows: seq<Row>)
    requires cells != [] && forall k | 0 <= k < |cells| :: cells[k].Writable()
    ensures DropEmpty(Flush(Scan(WriteCells(cells), State(rows, [], "", false)))) == DropEmpty(rows + [Texts(cells)])
  {
    var s := State(rows, [], "", false);
    ScanCells(cells, "", s);
    assert WriteCells(cells) + "" == WriteCells(cells);
    var texts := Texts(cells);
    LastText(texts);
    assert [] + texts[..|texts| - 1] == texts[..|texts| - 1];
    if texts == [""] {
      DropEmptyConcat(rows, [texts]);
      assert DropEmpty([texts]) == [];
    }
  }

  /** A line with its line break is one more row. */
  lemma ScanClosedLine(cells: seq<Cell>, ending: Ending, tail: string, rows: seq<Row>)
    requires cells != [] && forall k | 0 <= k < |cells| :: cells[k].Writable()
    ensures Scan(WriteCells(cells) + (ending.Text() + tail), State(rows, [], "", false))
         == Scan(tail, State(rows + [Texts(cells)], [], "", false))
  {
    hide Scan, AfterCells, WriteCells, Texts;
    var s := State(rows, [], "", false);
    ScanCells(cells, ending.Text() + tail, s);
    EndRowAfterCells(s, Texts(cells));
    ScanEnding(ending, tail, AfterCells(s, Texts(cells)));
    assert s.row + Texts(cells) == Texts(cells);
  }

  lemma EndRowAfterCells(s: State, texts: Row)
    requires texts != []
    ensures AfterCells(s, texts).EndRow() == State(s.rows + [s.row + texts], [], "", s.inQuotes)
    ensures AfterCells(s, texts).inQuotes == s.inQuotes
  {
    LastText(texts);
    assert s.row + texts[..|texts| - 1] + [texts[|texts| - 1]] == s.row + texts;
  }

  lemma {:induction false} ScanLines(lines: seq<Line>, closed: bool, rows: seq<Row>)
    requires IsWritable(lines)
    ensures DropEmpty(Flush(Scan(WriteLines(lines, closed), State(rows, [], "", false)))) == DropEmpty(rows + Rows(lines))
    decreases |lines|
  {
    hide Scan, Flush, DropEmpty, WriteCells, Texts;
    if lines == [] {
      FlushNothing(rows);
      assert rows + [] == rows;
    } else {
      var cells := lines[0].cells;
      if |lines| > 1 || closed {
        var ending, tail := lines[0].ending, WriteLines(lines[1..], closed);
        assert WriteLines(lines, closed) == WriteCells(cells) + (ending.Text() + tail);
        ScanClosedLine(cells, ending, tail, rows);
        ScanLines(lines[1..], closed, rows + [Texts(cells)]);
        assert rows + [Texts(cells)] + Rows(lines[1..]) == rows + Rows(lines);
      } else {
        assert lines[1..] == [] && WriteLines(lines, closed) == WriteCells(cells);
        ScanOpenLine(cells, rows);
        assert Rows(lines) == [Texts(cells)];
      }
    }
  }

  lemma FlushNothing(rows: seq<Row>)
    ensures Flush(Scan("", State(rows, [], "", false))) == rows
  {
  }

  /** Parsing what was written returns the table, without its rows of one empty field: for every
      choice of quoting, every mixture of LF and CRLF, and whether or not the last line is closed. */
  lemma ParseInvertsWrite(lines: seq<Line>, closed: bool)
    requires IsWritable(lines)
    ensures Parse(WriteLines(lines, closed)) == DropEmpty(Rows(lines))
  {
    ScanLines(lines, closed, []);
    assert [] + Rows(lines) == Rows(lines);
  }

  // Text that no writer makes.

  /** Text without a separator, a line break or a quote. */
  predicate Ordinary(text: string) {
    forall c | c in text :: c != ',' && c != '\r' && c != '\n' && c != '"'
  }

  lemma {:induction false} ScanInQuotes(text: string, rest: string, s: State)
    requires Ordinary(text) && s.inQuotes
    ensures Scan(text + rest, s) == Scan(rest, s.(field := s.field + text))
    decreases |text|
  {
    if text == "" {
      assert text + rest == rest && s.field + text == s.field;
    } else {
      assert text[0] in text;
      assert (text + rest)[1..] == text[1..] + rest;
      assert forall c | c in text[1..] :: c in text;
      ScanInQuotes(text[1..], rest, s.Add(text[0]));
      AddThenRest(s.field, text);
    }
  }

  /** What one field alone becomes at the end of the text. */
  lemma OneField(text: string, inQuotes: bool)
    requires text != ""
    ensures DropEmpty(Flush(Scan("", State([], [], text, inQuotes)))) == [[text]]
  {
    var row: Row := [text];
    assert [] + [text] == row && [] + [row] == [row];
    assert row != [""] by { assert row[0] == text; }
    assert [row][1..] == [];
  }

  /** A quote that is never closed takes the rest of the text as one field. */
  lemma OpenQuoteTakesTheRest(text: string)
    requires Ordinary(text) && text != ""
    ensures Parse("\"" + text) == [[text]]
  {
    assert ("\"" + text)[1..] == text + "";
    ScanInQuotes(text, "", START.(inQuotes := true));
    assert "" + text == text;
    OneField(text, true);
  }

  /** A field that begins with ordinary text, and goes on with a character that adds what it may. */
  lemma GoesOn(before: string, c: char, after: string)
    requires Ordinary(before) && before != "" && Ordinary(after) && (c == '"' || c == '\r')
    ensures Scan(before + ([c] + after), START)
         == Scan("", State([], [], before + (if c == '"' then [c] else []) + after, false))
  {
    assert forall x | x in before :: x != '"';
    assert before[0] in before;
    ScanPlainText(before, [c] + after, START);
    assert "" + before == before && ([c] + after)[1..] == after + "";
    var joined := before + if c == '"' then [c] else [];
    assert before + [] == before;
    ScanPlainText(after, "", State([], [], joined, false));
  }

  /** A quote inside a field that began without one is a character like any other. */
  lemma InnerQuoteIsLiteral(before: string, after: string)
    requires Ordinary(before) && before != "" && Ordinary(after)
    ensures Parse(before + "\"" + after) == [[before + "\"" + after]]
  {
    assert before + "\"" + after == before + (['"'] + after) == before + ['"'] + after;
    GoesOn(before, '"', after);
    OneField(before + ['"'] + after, false);
  }

  /** A carriage return outside quotes is dropped, wherever it stands. */
  lemma CarriageReturnsAreDropped(before: string, after: string)
    requires Ordinary(before) && before != "" && Ordinary(after)
    ensures Parse(before + "\r" + after) == [[before + after]]
  {
    assert before + "\r" + after == before + (['\r'] + after) && before + [] + after == before + after;
    GoesOn(before, '\r', after);
    OneField(before + after, false);
  }

  /** Text after a closing quote belongs to the same field. */
  lemma TextAfterQuotesJoins(quoted: string, after: string)
    requires Ordinary(quoted) && quoted != "" && Ordinary(after) && after != ""
    ensures Parse("\"" + quoted + "\"" + after) == [[quoted + after]]
  {
    var rest := "\"" + after;
    assert "\"" + quoted + "\"" + after == "\"" + (quoted + rest);
    assert ("\"" + (quoted + rest))[1..] == quoted + rest;
    ScanInQuotes(quoted, rest, START.(inQuotes := true));
    assert "" + quoted == quoted && rest[1..] == after + "";
    assert after[0] in after && rest[1..] == after;
    assert Scan(rest, State([], [], quoted, true)) == Scan(after, State([], [], quoted, false));
    assert after + "" == after;
    ScanPlainText(after, "", State([], [], quoted, false));
    OneField(quoted + after, false);
  }

  lemma {:induction false} NothingToDrop(rows: seq<Row>)
    requires forall j | 0 <= j < |rows| :: rows[j] != [""]
    ensures DropEmpty(rows) == rows
    decreases |rows|
  {
    if rows != [] {
      assert forall j | 0 <= j < |rows[1..]| :: rows[1..][j] == rows[j + 1];
      NothingToDrop(rows[1..]);
    }
  }

  function Quote(row: Row): seq<Cell> {
    if row == [] then [] else [Quoted(row[0])] + Quote(row[1..])
  }

  lemma {:induction false} QuotedTexts(row: Row)
    ensures Texts(Quote(row)) == row && |Quote(row)| == |row|
    ensures forall k | 0 <= k < |row| :: Quote(row)[k].Writable()
    decreases |row|
  {
    if row != [] {
      QuotedTexts(row[1..]);
      forall k | 0 <= k < |row|
        ensures Quote(row)[k].Writable()
      {
        if k > 0 {
          assert Quote(row)[k] == Quote(row[1..])[k - 1];
        }
      }
    }
  }

  function QuotedLines(table: seq<Row>, ending: Ending): seq<Line> {
    if table == [] then [] else [Line(Quote(table[0]), ending)] + QuotedLines(table[1..], ending)
  }

  lemma {:induction false} QuotedLinesHold(table: seq<Row>, ending: Ending)
    requires forall j | 0 <= j < |table| :: table[j] != []
    ensures Rows(QuotedLines(table, ending)) == table && IsWritable(QuotedLines(table, ending))
    decreases |table|
  {
    if table != [] {
      var lines := QuotedLines(table, ending);
      assert forall j | 0 <= j < |table[1..]| :: table[1..][j] == table[j + 1];
      QuotedLinesHold(table[1..], ending);
      QuotedTexts(table[0]);
      forall j | 0 <= j < |lines|
        ensures lines[j].cells != [] && forall k | 0 <= k < |lines[j].cells| :: lines[j].cells[k].Writable()
      {
        if j > 0 {
          assert lines[j] == QuotedLines(table[1..], ending)[j - 1];
        }
      }
    }
  }

  /** A fully quoted table of non-empty rows comes back if and only if no row is one empty field. */
  lemma QuotedTablesRoundTrip(table: seq<Row>, ending: Ending, closed: bool)
    requires forall j | 0 <= j < |table| :: table[j] != []
    ensures IsWritable(QuotedLines(table, ending))
    ensures Parse(WriteLines(QuotedLines(table, ending), closed)) == table <==> forall j | 0 <= j < |table| :: table[j] != [""]
  {
    QuotedLinesHold(table, ending);
    ParseInvertsWrite(QuotedLines(table, ending), closed);
    if forall j | 0 <= j < |table| :: table[j] != [""] {
      NothingToDrop(table);
    } else {
      NoneIsEmpty(table);
    }
  }

  /** No result ever holds a row of one empty field. */
  lemma {:induction false} NoneIsEmpty(rows: seq<Row>)
    ensures forall j | 0 <= j < |DropEmpty(rows)| :: DropEmpty(rows)[j] != [""]
    decreases |rows|
  {
    if rows != [] {
      NoneIsEmpty(rows[1..]);
    }
  }
}
