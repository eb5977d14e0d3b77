/** export.py: how exported submissions are written, as CSV and as JSON. */
module Export {
  import opened Prelude
  import opened Models
  import opened Listing
  import opened I = Ingestion
  import Csv
  import Json

  // The timestamp is the text it is rendered as.
  datatype Exported = Exported(id: string, endpointId: string, receivedAt: string, fields: seq<Field>)

  const METADATA_COLUMNS := ["submission_id", "endpoint_id", "received_at"]

  // ---------------------------------------------------------------- formulas

  predicate FormulaLeader(c: char) {
    c in {'=', '+', '-', '@', '\t', '\r'}
  }

  predicate Leads(cell: string) {
    cell != "" && FormulaLeader(cell[0])
  }

  function Safe(cell: string): string {
    if Leads(cell) then "'" + cell else cell
  }

  /** The guard merges two cells in one case only: a formula, and the same formula already marked as text. */
  lemma SafeMergesExactly(a: string, b: string)
    ensures Safe(a) == Safe(b) <==> a == b || (Leads(a) && b == "'" + a) || (Leads(b) && a == "'" + b)
    ensures !Leads(Safe(a))
  {
    if Leads(a) && Leads(b) && Safe(a) == Safe(b) {
      assert a == Safe(a)[1..] && b == Safe(b)[1..];
    }
  }

  lemma TwoHeadersOneTitle()
    ensures Safe("=x") == Safe("'=x") && "=x" != "'=x"
  {
    assert "'" + "=x" == "'=x";
  }

  // ---------------------------------------------------------------- columns

  /** Every field name of the export, repeats included, in reading order. */
  function Met(submissions: seq<Exported>): seq<string>
    decreases |submissions|
  {
    if submissions == [] then []
    else Met(submissions[..|submissions| - 1]) + NamesIn(submissions[|submissions| - 1].fields)
  }

  method FieldNames(submissions: seq<Exported>) returns (names: seq<string>)
    ensures FirstMetOrder(names, Met(submissions))
  {
    names := [];
    for i := 0 to |submissions|
      invariant FirstMetOrder(names, Met(submissions[..i]))
    {
      var own := NamesIn(submissions[i].fields);
      ghost var before := Met(submissions[..i]);
      assert before + own[..0] == before;
      for j := 0 to |own|
        invariant FirstMetOrder(names, before + own[..j])
      {
        PutKeepsOrder(names, before + own[..j], own[j]);
        assert before + own[..j] + [own[j]] == before + own[..j + 1];
        names := Put(names, own[j]);
      }
      assert own[..|own|] == own;
      assert submissions[..i + 1][..i] == submissions[..i];
    }
    assert submissions[..|submissions|] == submissions;
  }

  function Columns(submissions: seq<Exported>): seq<string> {
    Distinct(Met(submissions))
  }

  // ---------------------------------------------------------------- rows

  function Lookup(fields: seq<Field>, name: string): (r: Option<seq<string>>)
    ensures r.Some? <==> exists i | 0 <= i < |fields| :: fields[i].name == name
    ensures r.Some? ==> exists i | 0 <= i < |fields| :: fields[i] == Field(name, r.value)
  {
    if fields == [] then None
    else if fields[0].name == name then Some(fields[0].values)
    else Lookup(fields[1..], name)
  }

  function Cell(fields: seq<Field>, name: string): string {
    match Lookup(fields, name)
    case None => ""
    case Some(values) => Json.Encode(Texts(values), false)
  }

  function RowOf(s: Exported, names: seq<string>): Csv.Row {
    [Safe(s.id), Safe(s.endpointId), Safe(s.receivedAt)]
    + seq(|names|, i requires 0 <= i < |names| => Safe(Cell(s.fields, names[i])))
  }

  method Row(s: Exported, names: seq<string>) returns (row: Csv.Row)
    ensures row == RowOf(s, names)
  {
    var cells := [s.id, s.endpointId, s.receivedAt];
    for k := 0 to |names|
      invariant |cells| == 3 + k && cells[..3] == [s.id, s.endpointId, s.receivedAt]
      invariant forall i | 0 <= i < k :: cells[3 + i] == Cell(s.fields, names[i])
    {
      cells := cells + [match Lookup(s.fields, names[k])
                        case None => ""
                        case Some(values) => Json.Encode(Texts(values), false)];
    }
    row := seq(|cells|, i requires 0 <= i < |cells| => Safe(cells[i]));
    assert cells[0] == cells[..3][0] && cells[1] == cells[..3][1] && cells[2] == cells[..3][2];
  }

  function Header(names: seq<string>): Csv.Row {
    var columns := METADATA_COLUMNS + names;
    seq(|columns|, i requires 0 <= i < |columns| => Safe(columns[i]))
  }

  /** The table the CSV writes down: a header, and one row for each submission. */
  function TableOf(submissions: seq<Exported>, names: seq<string>): (rows: seq<Csv.Row>)
    ensures |rows| == 1 + |submissions|
  {
    [Header(names)] + seq(|submissions|, i requires 0 <= i < |submissions| => RowOf(submissions[i], names))
  }

  function Table(submissions: seq<Exported>): seq<Csv.Row> {
    TableOf(submissions, Columns(submissions))
  }

  method CsvDocument(submissions: seq<Exported>) returns (text: string)
    ensures text == Csv.WriteRows(Table(submissions))
  {
    var names := FieldNames(submissions);
    DistinctIsFirstMet(Met(submissions));
    FirstMetIsUnique(names, Columns(submissions), Met(submissions));
    text := WriteTable(submissions, names);
  }

  method WriteTable(submissions: seq<Exported>, names: seq<string>) returns (text: string)
    ensures text == Csv.WriteRows(TableOf(submissions, names))
  {
    ghost var table := TableOf(submissions, names);
    text := Csv.WriteRow(Header(names));
    OneMoreRow(table, 0);
    for k := 0 to |submissions|
      invariant text == Csv.WriteRows(table[..k + 1])
    {
      var row := Row(submissions[k], names);
      OneMoreRow(table, k + 1);
      text := text + Csv.WriteRow(row);
    }
    assert table[..|table|] == table;
  }

  lemma OneMoreRow(table: seq<Csv.Row>, k: nat)
    requires k < |table|
    ensures Csv.WriteRows(table[..k + 1]) == Csv.WriteRows(table[..k]) + Csv.WriteRow(table[k])
  {
    Csv.WriteRowsAppends(table[..k], table[k]);
    assert table[..k] + [table[k]] == table[..k + 1];
  }

  // ---------------------------------------------------------------- what a reader of the CSV gets

  lemma {:induction false} MetHasEveryName(submissions: seq<Exported>, i: nat, j: nat)
    requires i < |submissions| && j < |submissions[i].fields|
    ensures submissions[i].fields[j].name in Met(submissions)
    decreases |submissions|
  {
    var last := |submissions| - 1;
    if i < last {
      MetHasEveryName(submissions[..last], i, j);
    } else {
      assert NamesIn(submissions[last].fields)[j] == submissions[i].fields[j].name;
    }
  }

  lemma EveryFieldHasAColumn(submissions: seq<Exported>, i: nat, name: string)
    requires i < |submissions| && Lookup(submissions[i].fields, name).Some?
    ensures name in Columns(submissions)
  {
    var j :| 0 <= j < |submissions[i].fields| && submissions[i].fields[j].name == name;
    MetHasEveryName(submissions, i, j);
    DistinctIsFirstMet(Met(submissions));
  }

  /** A cell is empty exactly for an absent field; otherwise it is the JSON text of the stored values, in order. */
  lemma CellReads(fields: seq<Field>, name: string)
    ensures var cell := Cell(fields, name);
            && Safe(cell) == cell
            && (cell == "" <==> Lookup(fields, name).None?)
            && (cell != "" ==> Json.Decode(cell) == Some(Texts(Lookup(fields, name).value)))
  {
    if Lookup(fields, name).Some? {
      Json.RoundTrip(Texts(Lookup(fields, name).value), false);
    }
  }

  /** The whole document reads back, by section 2 of RFC 4180, as exactly the table it was written from. */
  lemma TableParses(submissions: seq<Exported>)
    ensures Csv.Parse(Csv.WriteRows(Table(submissions))) == Some(Table(submissions))
  {
    Csv.RoundTrip(Table(submissions));
  }

  lemma RowCell(submissions: seq<Exported>, i: nat, j: nat)
    requires i < |submissions| && j < |Columns(submissions)|
    ensures Table(submissions)[i + 1] == RowOf(submissions[i], Columns(submissions))
    ensures Table(submissions)[i + 1][3 + j] == Cell(submissions[i].fields, Columns(submissions)[j])
  {
    CellReads(submissions[i].fields, Columns(submissions)[j]);
  }

  /** The three titles every export starts with, and then the guarded field names. */
  lemma HeaderContent(names: seq<string>, j: nat)
    requires j < |names|
    ensures Header(names)[..3] == ["submission_id", "endpoint_id", "received_at"]
    ensures Header(names)[3 + j] == Safe(names[j])
  {
    TitleAt(names, 0);
    TitleAt(names, 1);
    TitleAt(names, 2);
    TitleAt(names, 3 + j);
  }

  /**
   * What is guarded: a cell whose first character a spreadsheet would evaluate gets an apostrophe, and no other cell
   * changes.
   */
  lemma GuardsExactly(cell: string)
    ensures var dangerous := cell != "" && (cell[0] == '=' || cell[0] == '+' || cell[0] == '-' || cell[0] == '@'
                                            || cell[0] as int == 0x09 || cell[0] as int == 0x0D);
            Safe(cell) == if dangerous then "'" + cell else cell
  {
  }

  /** Names are met submission by submission, and field by field within each. */
  lemma MetInReadingOrder(submissions: seq<Exported>, s: Exported, k: nat)
    requires k < |s.fields|
    ensures Met([]) == [] && Met(submissions + [s])[..|Met(submissions)|] == Met(submissions)
    ensures |Met(submissions + [s])| == |Met(submissions)| + |s.fields|
    ensures Met(submissions + [s])[|Met(submissions)| + k] == s.fields[k].name
  {
    assert (submissions + [s])[..|submissions|] == submissions;
  }

  /** One header and one row of the same width for each submission; no cell is a formula. */
  lemma TableShape(submissions: seq<Exported>)
    ensures var rows := Table(submissions);
            && |rows| == 1 + |submissions|
            && (forall r | 0 <= r < |rows| :: |rows[r]| == 3 + |Columns(submissions)|)
            && (forall r, c | 0 <= r < |rows| && 0 <= c < |rows[r]| :: !Leads(rows[r][c]))
  {
  }

  /** The cell itself, for one value: compact, and with nothing escaped for being outside ASCII. */
  lemma CellOfOne(fields: seq<Field>, name: string, value: string)
    requires Lookup(fields, name) == Some([value])
    ensures Cell(fields, name) == "[" + Json.Quoted(value, false) + "]"
  {
    assert Texts([value]) == Json.Arr([Json.Str(value)]);
    Json.PrintsOne(Json.Str(value), false);
  }

  /** By position, a reader recovers for each submission which columns it has and their exact ordered values. */
  lemma TableContent(submissions: seq<Exported>, i: nat, j: nat)
    requires i < |submissions| && j < |Columns(submissions)|
    ensures FirstMetOrder(Columns(submissions), Met(submissions))
    ensures var header, row := Table(submissions)[0], Table(submissions)[i + 1];
            var s, name := submissions[i], Columns(submissions)[j];
            && header[3 + j] == Safe(name)
            && row[..3] == [Safe(s.id), Safe(s.endpointId), Safe(s.receivedAt)]
            && (row[3 + j] == "" <==> Lookup(s.fields, name).None?)
            && (row[3 + j] != "" ==>
                  Json.Decode(row[3 + j]).Some? && IsTexts(Json.Decode(row[3 + j]).value, Lookup(s.fields, name).value))
  {
    DistinctIsFirstMet(Met(submissions));
    RowCell(submissions, i, j);
    CellReads(submissions[i].fields, Columns(submissions)[j]);
  }

  /** With its columns known, the text determines the answers: two exports that read the same say the same. */
  lemma CsvDeterminesAnswers(a: seq<Exported>, b: seq<Exported>, i: nat, name: string)
    requires Columns(a) == Columns(b) && Csv.WriteRows(Table(a)) == Csv.WriteRows(Table(b))
    ensures |a| == |b|
    ensures i < |a| ==> Lookup(a[i].fields, name) == Lookup(b[i].fields, name)
  {
    TableParses(a);
    TableParses(b);
    assert Table(a) == Table(b) && |Table(a)| == 1 + |a| && |Table(b)| == 1 + |b|;
    if i < |a| {
      if name in Columns(a) {
        var j :| 0 <= j < |Columns(a)| && Columns(a)[j] == name;
        RowCell(a, i, j);
        RowCell(b, i, j);
        SameCellSameAnswer(a[i].fields, b[i].fields, name);
      } else {
        if Lookup(a[i].fields, name).Some? { EveryFieldHasAColumn(a, i, name); }
        if Lookup(b[i].fields, name).Some? { EveryFieldHasAColumn(b, i, name); }
      }
    }
  }

  lemma SameCellSameAnswer(a: seq<Field>, b: seq<Field>, name: string)
    requires Cell(a, name) == Cell(b, name)
    ensures Lookup(a, name) == Lookup(b, name)
  {
    CellReads(a, name);
    CellReads(b, name);
    if Lookup(a, name).Some? {
      TextsAreInjective(Lookup(a, name).value, Lookup(b, name).value);
    }
  }

  predicate NoRepeats(s: seq<string>) {
    forall i, j | 0 <= i < j < |s| :: s[i] != s[j]
  }

  ghost predicate NamedLikeMetadata(names: seq<string>) {
    exists n :: n in names && n in METADATA_COLUMNS
  }

  ghost predicate NamedLikeMarkedFormula(names: seq<string>) {
    exists m, n :: m in names && n in names && Leads(m) && n == "'" + m
  }

  /**
   * No title repeats unless a field is named like a metadata column, or like another field's formula marked as text.
   */
  lemma TitlesAreDistinctExactly(names: seq<string>)
    requires NoRepeats(names)
    ensures NoRepeats(Header(names)) <==> !NamedLikeMetadata(names) && !NamedLikeMarkedFormula(names)
  {
    if NamedLikeMetadata(names) { MetadataRepeats(names); }
    if NamedLikeMarkedFormula(names) { FormulaRepeats(names); }
    var columns := METADATA_COLUMNS + names;
    forall i, j | 0 <= i < j < |columns| && Header(names)[i] == Header(names)[j]
      ensures NamedLikeMetadata(names) || NamedLikeMarkedFormula(names)
    {
      RepeatIsNamed(names, i, j);
    }
  }

  lemma TitleAt(names: seq<string>, i: nat)
    requires i < 3 + |names|
    ensures var column := if i < 3 then METADATA_COLUMNS[i] else names[i - 3];
            (METADATA_COLUMNS + names)[i] == column && Header(names)[i] == Safe(column)
  {
  }

  lemma MetadataRepeats(names: seq<string>)
    requires NamedLikeMetadata(names)
    ensures !NoRepeats(Header(names))
  {
    var n :| n in names && n in METADATA_COLUMNS;
    var i :| 0 <= i < |names| && names[i] == n;
    var k :| 0 <= k < 3 && METADATA_COLUMNS[k] == n;
    TitleAt(names, k);
    TitleAt(names, 3 + i);
  }

  lemma MarkedIsSafe(m: string)
    requires Leads(m)
    ensures Safe("'" + m) == Safe(m) && "'" + m != m
  {
    assert |"'" + m| == |m| + 1;
  }

  lemma FormulaRepeats(names: seq<string>)
    requires NamedLikeMarkedFormula(names)
    ensures !NoRepeats(Header(names))
  {
    var m, n :| m in names && n in names && Leads(m) && n == "'" + m;
    var i :| 0 <= i < |names| && names[i] == m;
    var j :| 0 <= j < |names| && names[j] == n;
    FormulaRepeatsAt(names, i, j);
  }

  lemma FormulaRepeatsAt(names: seq<string>, i: nat, j: nat)
    requires i < |names| && j < |names| && Leads(names[i]) && names[j] == "'" + names[i]
    ensures !NoRepeats(Header(names))
  {
    MarkedIsSafe(names[i]);
    TitleAt(names, 3 + i);
    TitleAt(names, 3 + j);
    TitlesMeet(Header(names), 3 + i, 3 + j);
  }

  lemma TitlesMeet(titles: seq<string>, i: nat, j: nat)
    requires i < |titles| && j < |titles| && i != j && titles[i] == titles[j]
    ensures !NoRepeats(titles)
  {
  }

  lemma RepeatIsNamed(names: seq<string>, i: nat, j: nat)
    requires NoRepeats(names) && i < j < 3 + |names| && Header(names)[i] == Header(names)[j]
    ensures NamedLikeMetadata(names) || NamedLikeMarkedFormula(names)
  {
    var a, b := (METADATA_COLUMNS + names)[i], (METADATA_COLUMNS + names)[j];
    TitleAt(names, i);
    TitleAt(names, j);
    SafeMergesExactly(a, b);
    assert i >= 3 ==> a in names;
    assert j >= 3 ==> b in names;
  }

  // ---------------------------------------------------------------- JSON

  function AsObject(s: Exported): Json.Json {
    Json.Obj([
      Json.Member("id", Json.Str(s.id)),
      Json.Member("endpoint_id", Json.Str(s.endpointId)),
      Json.Member("received_at", Json.Str(s.receivedAt)),
      Json.Member("fields", Json.Obj(seq(|s.fields|, i requires 0 <= i < |s.fields| =>
        Json.Member(s.fields[i].name, Texts(s.fields[i].values)))))])
  }

  function Objects(submissions: seq<Exported>): seq<Json.Json> {
    seq(|submissions|, i requires 0 <= i < |submissions| => AsObject(submissions[i]))
  }

  function Document(submissions: seq<Exported>): Json.Json {
    Json.Obj([Json.Member("submissions", Json.Arr(Objects(submissions)))])
  }

  function Concatenated(pieces: seq<string>): string
    decreases |pieces|
  {
    if pieces == [] then "" else Concatenated(pieces[..|pieces| - 1]) + pieces[|pieces| - 1]
  }

  // The values so far, with a comma between each two.
  function Separated(items: seq<Json.Json>): string {
    if items == [] then ""
    else Json.Encode(items[0], true) + if |items| == 1 then "" else "," + Separated(items[1..])
  }

  lemma {:induction false} SeparatedAppends(items: seq<Json.Json>, x: Json.Json)
    requires items != []
    ensures Separated(items + [x]) == Separated(items) + "," + Json.Encode(x, true)
  {
    assert (items + [x])[1..] == items[1..] + [x];
    if |items| > 1 {
      SeparatedAppends(items[1..], x);
    } else {
      assert items[1..] + [x] == [x];
    }
  }

  lemma {:induction false} SeparatedIsEncoded(items: seq<Json.Json>)
    requires items != []
    ensures Separated(items) + "]" == Json.EncodeItems(items, true)
  {
    if |items| > 1 { SeparatedIsEncoded(items[1..]); }
  }

  /** The pieces, one for each submission between an opening and a closing one, spell out the document. */
  method JsonDocument(submissions: seq<Exported>) returns (pieces: seq<string>)
    ensures |pieces| == |submissions| + 2
    ensures Concatenated(pieces) == Json.Encode(Document(submissions), true)
    ensures var read := Json.Decode(Concatenated(pieces)); read.Some? && SaysExport(read.value, submissions)
  {
    pieces := ["{\"submissions\":["];
    var separator := "";
    ghost var objects := Objects(submissions);
    for k := 0 to |submissions|
      invariant |pieces| == k + 1
      invariant separator == if k == 0 then "" else ","
      invariant Concatenated(pieces) == "{\"submissions\":[" + Separated(objects[..k])
    {
      var piece := separator + Json.Encode(AsObject(submissions[k]), true);
      OneMorePiece(pieces, piece);
      OneMoreSeparated(objects, k);
      Associative("{\"submissions\":[", Separated(objects[..k]), piece);
      pieces := pieces + [piece];
      separator := ",";
    }
    assert objects[..|objects|] == objects;
    OneMorePiece(pieces, "]}");
    Framed(submissions);
    JsonReads(submissions);
    pieces := pieces + ["]}"];
  }

  lemma OneMorePiece(pieces: seq<string>, piece: string)
    ensures Concatenated(pieces + [piece]) == Concatenated(pieces) + piece
  {
    assert (pieces + [piece])[..|pieces|] == pieces;
  }

  lemma OneMoreSeparated(objects: seq<Json.Json>, k: nat)
    requires k < |objects|
    ensures Separated(objects[..k + 1])
            == Separated(objects[..k]) + ((if k == 0 then "" else ",") + Json.Encode(objects[k], true))
  {
    assert objects[..k] + [objects[k]] == objects[..k + 1];
    if k > 0 {
      SeparatedAppends(objects[..k], objects[k]);
      Associative(Separated(objects[..k]), ",", Json.Encode(objects[k], true));
    } else {
      assert objects[..1] == [objects[0]];
    }
  }

  lemma Framed(submissions: seq<Exported>)
    ensures Json.Encode(Document(submissions), true) == "{\"submissions\":[" + Separated(Objects(submissions)) + "]}"
  {
    var objects := Objects(submissions);
    TitleIsPlain();
    SingleMember("submissions", Json.Arr(objects));
    ArrayIsSeparated(objects);
    Spelled(Separated(objects));
  }

  lemma ArrayIsSeparated(items: seq<Json.Json>)
    ensures Json.Encode(Json.Arr(items), true) == "[" + Separated(items) + "]"
  {
    if items != [] { SeparatedIsEncoded(items); }
  }

  lemma TitleIsPlain()
    ensures Json.Quoted("submissions", true) == "\"" + "submissions" + "\""
  {
    assert Json.Letters("submissions");
    Json.LettersQuoted("submissions", true);
  }

  lemma Spelled(s: string)
    ensures "{" + ("\"" + "submissions" + "\"") + ":" + ("[" + s + "]") + "}" == "{\"submissions\":[" + s + "]}"
  {
  }

  lemma SingleMember(name: string, value: Json.Json)
    ensures Json.Encode(Json.Obj([Json.Member(name, value)]), true)
            == "{" + Json.Quoted(name, true) + ":" + Json.Encode(value, true) + "}"
  {
    var m := Json.Member(name, value);
    assert Json.EncodeMembers([m], true) == Json.EncodeMember(m, true) + "}";
  }

  /** The object says, by member name, exactly what the submission is. */
  predicate SaysSubmission(j: Json.Json, s: Exported) {
    && Json.Under(j, "id") == Some(Json.Str(s.id))
    && Json.Under(j, "endpoint_id") == Some(Json.Str(s.endpointId))
    && Json.Under(j, "received_at") == Some(Json.Str(s.receivedAt))
    && j.Obj? && |j.members| == 4
    && Json.Under(j, "fields").Some? && SaysFields(Json.Under(j, "fields").value, s.fields)
  }

  /** One member for each field, in order, each an array of exactly its values. */
  predicate SaysFields(j: Json.Json, fields: seq<Field>) {
    && j.Obj? && |j.members| == |fields|
    && forall k | 0 <= k < |fields| ::
         j.members[k].name == fields[k].name && IsTexts(j.members[k].value, fields[k].values)
  }

  /** One list under one name, with one object for each submission, in order. */
  predicate SaysExport(j: Json.Json, submissions: seq<Exported>) {
    && j.Obj? && |j.members| == 1
    && Json.Under(j, "submissions").Some?
    && var list := Json.Under(j, "submissions").value;
       && list.Arr? && |list.items| == |submissions|
       && forall i | 0 <= i < |submissions| :: SaysSubmission(list.items[i], submissions[i])
  }

  lemma ObjectSays(s: Exported)
    ensures SaysSubmission(AsObject(s), s)
  {
    var members := AsObject(s).members;
    NamesApart();
    assert Json.Under(Json.Obj(members), "id") == Some(members[0].value);
    UnderSkips(members, "endpoint_id");
    UnderSkips(members, "received_at");
    UnderSkips(members[1..], "received_at");
    UnderSkips(members, "fields");
    UnderSkips(members[1..], "fields");
    UnderSkips(members[1..][1..], "fields");
  }

  lemma NamesApart()
    ensures |"id"| == 2 && |"endpoint_id"| == |"received_at"| == 11 && |"fields"| == 6
    ensures "endpoint_id" != "received_at"
  {
    assert "endpoint_id"[0] == 'e' && "received_at"[0] == 'r';
  }

  lemma UnderSkips(members: seq<Json.Member>, name: string)
    requires members != []
    ensures Json.Under(Json.Obj(members), name) ==
            if members[0].name == name then Some(members[0].value) else Json.Under(Json.Obj(members[1..]), name)
  {
  }

  lemma DocumentSays(submissions: seq<Exported>)
    ensures SaysExport(Document(submissions), submissions)
  {
    UnderSkips(Document(submissions).members, "submissions");
    forall i | 0 <= i < |submissions| ensures SaysSubmission(Objects(submissions)[i], submissions[i]) {
      ObjectSays(submissions[i]);
    }
  }

  /**
   * A reader of the JSON export finds, name by name, every submission, its fields and their values, in order; and the
   * text is ASCII.
   */
  lemma JsonReads(submissions: seq<Exported>)
    ensures var text := Json.Encode(Document(submissions), true);
            var read := Json.Decode(text);
            read.Some? && SaysExport(read.value, submissions) && Json.PrintableAscii(text)
  {
    Json.RoundTrip(Document(submissions), true);
    Json.AsciiTextIsAscii(Document(submissions));
    DocumentSays(submissions);
  }

  lemma DocumentIsInjective(a: seq<Exported>, b: seq<Exported>)
    requires Document(a) == Document(b)
    ensures a == b
  {
    assert Document(a).members[0] == Document(b).members[0];
    assert |Objects(a)| == |a| && |Objects(b)| == |b|;
    forall i | 0 <= i < |a| ensures a[i] == b[i] {
      assert Objects(a)[i] == Objects(b)[i];
      ObjectIsInjective(a[i], b[i]);
    }
  }

  lemma ObjectIsInjective(a: Exported, b: Exported)
    requires AsObject(a) == AsObject(b)
    ensures a == b
  {
    var x, y := AsObject(a).members, AsObject(b).members;
    assert x[0] == y[0] && x[1] == y[1] && x[2] == y[2] && x[3] == y[3];
    var f, g := x[3].value.members, y[3].value.members;
    assert |f| == |a.fields| && |g| == |b.fields|;
    forall i | 0 <= i < |a.fields| ensures a.fields[i] == b.fields[i] {
      assert f[i] == g[i];
      TextsAreInjective(a.fields[i].values, b.fields[i].values);
    }
  }

  lemma JsonDeterminesExport(a: seq<Exported>, b: seq<Exported>)
    requires Json.Encode(Document(a), true) == Json.Encode(Document(b), true)
    ensures a == b
  {
    Json.Injective(Document(a), Document(b), true, true);
    DocumentIsInjective(a, b);
  }
}
