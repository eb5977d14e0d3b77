/**
 * Comma-separated text: what Python's csv.writer emits with its default dialect and CRLF line ends,
 * and a parser for the grammar in section 2 of RFC 4180 that knows nothing of the writer.
 */
module Csv {
  import opened Prelude

  type Row = seq<string>

  predicate Special(c: char) {
    c == ',' || c == '"' || c == '\r' || c == '\n'
  }

  // ---------------------------------------------------------------- writing

  predicate NeedsQuotes(cell: string) {
    exists i | 0 <= i < |cell| :: Special(cell[i])
  }

  function Doubled(cell: string): string {
    if cell == "" then "" else (if cell[0] == '"' then "\"\"" else [cell[0]]) + Doubled(cell[1..])
  }

  function Quoted(cell: string): string {
    "\"" + Doubled(cell) + "\""
  }

  function WriteCell(cell: string): string {
    if NeedsQuotes(cell) then Quoted(cell) else cell
  }

  function Joined(row: Row): string {
    if row == [] then "" else WriteCell(row[0]) + if |row| == 1 then "" else "," + Joined(row[1..])
  }

  /** One row. A row that would come out as nothing at all is written as one quoted empty cell. */
  function WriteRow(row: Row): string {
    (if row == [""] then "\"\"" else Joined(row)) + "\r\n"
  }

  function WriteRows(rows: seq<Row>): string {
    if rows == [] then "" else WriteRow(rows[0]) + WriteRows(rows[1..])
  }

  lemma {:induction false} WriteRowsAppends(rows: seq<Row>, row: Row)
    ensures WriteRows(rows + [row]) == WriteRows(rows) + WriteRow(row)
  {
    if rows == [] {
      assert rows + [row] == [row];
    } else {
      assert (rows + [row])[1..] == rows[1..] + [row];
      WriteRowsAppends(rows[1..], row);
    }
  }

  // ---------------------------------------------------------------- parsing

  /** The inside of an escaped field, over its closing quote. */
  function ParseEscaped(s: string): (r: Option<(string, string)>)
    ensures r.Some? ==> |r.value.1| < |s|
    decreases |s|
  {
    if s == "" then None
    else if s[0] != '"' then
      match ParseEscaped(s[1..])
      case None => None
      case Some((cell, rest)) => Some(([s[0]] + cell, rest))
    else if |s| >= 2 && s[1] == '"' then
      match ParseEscaped(s[2..])
      case None => None
      case Some((cell, rest)) => Some((['"'] + cell, rest))
    else Some(("", s[1..]))
  }

  /** The longest run of text data, and what follows it. */
  function ParsePlain(s: string): (r: (string, string))
    ensures |r.1| <= |s|
  {
    if s == "" || Special(s[0]) then ("", s)
    else var (cell, rest) := ParsePlain(s[1..]); ([s[0]] + cell, rest)
  }

  function ParseField(s: string): (r: Option<(string, string)>)
    ensures r.Some? ==> |r.value.1| <= |s|
  {
    if s != "" && s[0] == '"' then ParseEscaped(s[1..]) else Some(ParsePlain(s))
  }

  function ParseRecord(s: string): (r: Option<(Row, string)>)
    ensures r.Some? ==> |r.value.1| <= |s|
    decreases |s|
  {
    match ParseField(s)
    case None => None
    case Some((cell, rest)) =>
      if rest == "" || rest[0] != ',' then Some(([cell], rest))
      else
        match ParseRecord(rest[1..])
        case None => None
        case Some((cells, after)) => Some(([cell] + cells, after))
  }

  /** Records separated by CRLF; the last line end is optional. */
  function Parse(s: string): Option<seq<Row>>
    decreases |s|
  {
    match ParseRecord(s)
    case None => None
    case Some((row, rest)) =>
      if rest == "" || rest == "\r\n" then Some([row])
      else if |rest| < 2 || rest[0] != '\r' || rest[1] != '\n' then None
      else
        match Parse(rest[2..])
        case None => None
        case Some(rows) => Some([row] + rows)
  }

  // ---------------------------------------------------------------- round trip

  lemma {:induction false} EscapedRead(cell: string, rest: string)
    requires rest == "" || rest[0] != '"'
    ensures ParseEscaped(Doubled(cell) + "\"" + rest) == Some((cell, rest))
  {
    if cell == "" {
      assert Doubled(cell) + "\"" + rest == ['"'] + rest;
    } else {
      var tail := Doubled(cell[1..]) + "\"" + rest;
      EscapedRead(cell[1..], rest);
      assert cell == [cell[0]] + cell[1..];
      if cell[0] == '"' {
        assert Doubled(cell) + "\"" + rest == ['"', '"'] + tail;
      } else {
        assert Doubled(cell) + "\"" + rest == [cell[0]] + tail;
      }
    }
  }

  lemma {:induction false} PlainRead(cell: string, rest: string)
    requires !NeedsQuotes(cell) && (rest == "" || Special(rest[0]))
    ensures ParsePlain(cell + rest) == (cell, rest)
  {
    if cell == "" {
      assert cell + rest == rest;
    } else {
      assert !Special(cell[0]);
      assert !NeedsQuotes(cell[1..]) by {
        assert forall i | 0 <= i < |cell[1..]| :: cell[1..][i] == cell[i + 1];
      }
      PlainRead(cell[1..], rest);
      assert (cell + rest)[1..] == cell[1..] + rest;
      assert cell == [cell[0]] + cell[1..];
    }
  }

  predicate EndsField(rest: string) {
    rest == "" || rest[0] == ',' || rest[0] == '\r'
  }

  lemma QuotedRead(cell: string, rest: string)
    requires EndsField(rest)
    ensures ParseField(Quoted(cell) + rest) == Some((cell, rest))
  {
    EscapedRead(cell, rest);
    assert (Quoted(cell) + rest)[1..] == Doubled(cell) + "\"" + rest;
  }

  lemma CellRead(cell: string, rest: string)
    requires EndsField(rest)
    ensures ParseField(WriteCell(cell) + rest) == Some((cell, rest))
  {
    if NeedsQuotes(cell) {
      QuotedRead(cell, rest);
    } else {
      PlainRead(cell, rest);
      if cell != "" { assert !Special(cell[0]); }
    }
  }

  lemma LastCell(s: string, cell: string, tail: string)
    requires ParseField(s) == Some((cell, tail)) && (tail == "" || tail[0] != ',')
    ensures ParseRecord(s) == Some(([cell], tail))
  {
  }

  lemma NextCell(s: string, cell: string, tail: string, cells: Row, after: string)
    requires ParseField(s) == Some((cell, tail)) && tail != "" && tail[0] == ','
    requires ParseRecord(tail[1..]) == Some((cells, after))
    ensures ParseRecord(s) == Some(([cell] + cells, after))
  {
  }

  lemma SingleRead(row: Row, rest: string)
    requires |row| == 1 && (rest == "" || rest[0] == '\r')
    ensures ParseRecord(Joined(row) + rest) == Some((row, rest))
  {
    CellRead(row[0], rest);
    assert Joined(row) == WriteCell(row[0]);
    LastCell(Joined(row) + rest, row[0], rest);
    HeadAndTail(row);
  }

  lemma LongerRead(row: Row, rest: string, more: string)
    requires |row| > 1 && more == Joined(row[1..]) + rest
    requires ParseRecord(more) == Some((row[1..], rest))
    ensures ParseRecord(Joined(row) + rest) == Some((row, rest))
  {
    var tail := [','] + more;
    CellRead(row[0], tail);
    Regrouped(WriteCell(row[0]), ',', Joined(row[1..]), rest);
    NextCell(Joined(row) + rest, row[0], tail, row[1..], rest);
    HeadAndTail(row);
  }

  lemma {:induction false} JoinedRead(row: Row, rest: string)
    requires row != [] && (rest == "" || rest[0] == '\r')
    ensures ParseRecord(Joined(row) + rest) == Some((row, rest))
  {
    if |row| == 1 {
      SingleRead(row, rest);
    } else {
      JoinedRead(row[1..], rest);
      LongerRead(row, rest, Joined(row[1..]) + rest);
    }
  }

  lemma RowRead(row: Row, rest: string)
    requires row != []
    ensures ParseRecord(WriteRow(row) + rest) == Some((row, "\r\n" + rest))
  {
    if row == [""] {
      QuotedRead("", "\r\n" + rest);
      assert WriteRow(row) + rest == Quoted("") + ("\r\n" + rest);
    } else {
      JoinedRead(row, "\r\n" + rest);
      assert WriteRow(row) + rest == Joined(row) + ("\r\n" + rest);
    }
  }

  lemma RowIsNotEmpty(row: Row)
    requires row != []
    ensures |WriteRow(row)| > 2
    ensures WriteRow(row) != ""
  {
    if row != [""] {
      if |row| == 1 { assert row == [row[0]]; }
    }
  }

  predicate NoEmptyRow(rows: seq<Row>) {
    forall i | 0 <= i < |rows| :: rows[i] != []
  }

  lemma LastRecord(s: string, row: Row)
    requires ParseRecord(s) == Some((row, "\r\n" + ""))
    ensures Parse(s) == Some([row])
  {
    assert "\r\n" + "" == "\r\n";
  }

  lemma NextRecord(s: string, row: Row, rest: string, rows: seq<Row>)
    requires ParseRecord(s) == Some((row, "\r\n" + rest)) && rest != "" && Parse(rest) == Some(rows)
    ensures Parse(s) == Some([row] + rows)
  {
    assert ("\r\n" + rest)[2..] == rest;
    assert |"\r\n" + rest| > 2;
  }

  /** Whatever the cells hold, the writer's text parses back to exactly those rows of those cells. */
  lemma {:induction false} RoundTrip(rows: seq<Row>)
    requires rows != [] && NoEmptyRow(rows)
    ensures Parse(WriteRows(rows)) == Some(rows)
  {
    var rest := WriteRows(rows[1..]);
    HeadAndTail(rows);
    RowRead(rows[0], rest);
    if |rows| == 1 {
      LastRecord(WriteRows(rows), rows[0]);
    } else {
      RowIsNotEmpty(rows[1]);
      RoundTrip(rows[1..]);
      NextRecord(WriteRows(rows), rows[0], rest, rows[1..]);
    }
  }

  /** A cell is written as it stands unless it holds a comma, a quote or a line end. */
  lemma QuotesOnlyWhatItMust(cell: string)
    ensures WriteCell(cell) == cell <==> forall c | c in cell :: c !in {',', '"', '\r', '\n'}
  {
    if NeedsQuotes(cell) {
      DoubledIsNoShorter(cell);
      assert |WriteCell(cell)| == |Doubled(cell)| + 2;
      var i :| 0 <= i < |cell| && Special(cell[i]);
      assert cell[i] in cell;
    } else {
      forall c | c in cell ensures !Special(c) {
        var i :| 0 <= i < |cell| && cell[i] == c;
      }
    }
  }

  lemma {:induction false} DoubledIsNoShorter(cell: string)
    ensures |Doubled(cell)| >= |cell|
  {
    if cell != "" { DoubledIsNoShorter(cell[1..]); }
  }

  /** A cell with a comma and a quote is quoted, and its quote doubled. */
  lemma QuotesACell()
    ensures WriteCell(",\"c") == "\",\"\"c\""
  {
    var cell := ",\"c";
    assert Special(cell[0]);
    assert cell[1..] == "\"c" && cell[1..][1..] == "c" && "c"[1..] == "";
    assert Doubled("c") == "c" && Doubled("\"c") == "\"\"c";
  }

  /** Commas between cells and CRLF at the end. */
  lemma WritesARow(a: string, b: string)
    ensures WriteRow([a, b]) == WriteCell(a) + "," + WriteCell(b) + "\r\n"
  {
    assert [a, b][1..] == [b];
    assert Joined([b]) == WriteCell(b);
    Associative(WriteCell(a), ",", WriteCell(b));
  }
}
