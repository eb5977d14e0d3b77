/**
 * JSON text as RFC 8259 defines it, for the three kinds of value the service writes: the printer
 * behind json.dumps with compact separators, and a parser that knows nothing of the printer.
 */
module Json {
  import opened Prelude

  // Objects keep the order of their members, as the service's dictionaries do.
  datatype Json = Str(text: string) | Arr(items: seq<Json>) | Obj(members: seq<Member>)
  datatype Member = Member(name: string, value: Json)

  /** What an object says under a name; the first member of that name counts. */
  function Under(j: Json, name: string): Option<Json>
    decreases if j.Obj? then |j.members| else 0
  {
    if !j.Obj? || j.members == [] then None
    else if j.members[0].name == name then Some(j.members[0].value)
    else Under(Obj(j.members[1..]), name)
  }

  // ---------------------------------------------------------------- printing

  function HexDigit(n: nat): char
    requires n < 16
  {
    if n < 10 then ('0' as int + n) as char else ('a' as int + n - 10) as char
  }

  function Hex4(n: nat): string
    requires n < 0x10000
  {
    [HexDigit(n / 4096), HexDigit(n / 256 % 16), HexDigit(n / 16 % 16), HexDigit(n % 16)]
  }

  const BACKSPACE := 8 as char
  const FORM_FEED := 12 as char

  /** The letter of a two-character escape. */
  function Letter(c: char): Option<char> {
    if c == '"' then Some('"')
    else if c == '\\' then Some('\\')
    else if c == '\n' then Some('n')
    else if c == '\r' then Some('r')
    else if c == '\t' then Some('t')
    else if c == BACKSPACE then Some('b')
    else if c == FORM_FEED then Some('f')
    else None
  }

  predicate MustEscape(c: char, ascii: bool) {
    c < ' ' || (ascii && c > '~')
  }

  /** The UTF-16 code units of a character as u-escapes. */
  function UnitEscapes(n: nat): string
    requires n < 0x110000
  {
    if n < 0x10000 then "\\u" + Hex4(n)
    else "\\u" + Hex4(0xD800 + (n - 0x10000) / 0x400) + "\\u" + Hex4(0xDC00 + (n - 0x10000) % 0x400)
  }

  function Escaped(c: char, ascii: bool): string {
    if Letter(c).Some? then ['\\', Letter(c).value]
    else if MustEscape(c, ascii) then UnitEscapes(c as int)
    else [c]
  }

  function EscapedAll(s: string, ascii: bool): string {
    if s == "" then "" else Escaped(s[0], ascii) + EscapedAll(s[1..], ascii)
  }

  function Quoted(s: string, ascii: bool): string {
    "\"" + EscapedAll(s, ascii) + "\""
  }

  function Encode(j: Json, ascii: bool): string {
    match j
    case Str(text) => Quoted(text, ascii)
    case Arr(items) => "[" + (if items == [] then "]" else EncodeItems(items, ascii))
    case Obj(members) => "{" + (if members == [] then "}" else EncodeMembers(members, ascii))
  }

  // From the first item on, closing bracket included.
  function EncodeItems(items: seq<Json>, ascii: bool): string
    requires items != []
  {
    Encode(items[0], ascii) + if |items| == 1 then "]" else "," + EncodeItems(items[1..], ascii)
  }

  function EncodeMembers(members: seq<Member>, ascii: bool): string
    requires members != []
  {
    EncodeMember(members[0], ascii) + if |members| == 1 then "}" else "," + EncodeMembers(members[1..], ascii)
  }

  function EncodeMember(m: Member, ascii: bool): string {
    Quoted(m.name, ascii) + ":" + Encode(m.value, ascii)
  }

  // ---------------------------------------------------------------- parsing (RFC 8259, sections 2, 4, 5 and 7)

  predicate Blank(c: char) {
    c == ' ' || c == '\t' || c == '\n' || c == '\r'
  }

  function Trim(s: string): (r: string)
    ensures |r| <= |s|
  {
    if s != "" && Blank(s[0]) then Trim(s[1..]) else s
  }

  function HexValue(c: char): (r: Option<nat>)
    ensures r.Some? ==> r.value < 16
  {
    if '0' <= c <= '9' then Some(c as int - '0' as int)
    else if 'a' <= c <= 'f' then Some(c as int - 'a' as int + 10)
    else if 'A' <= c <= 'F' then Some(c as int - 'A' as int + 10)
    else None
  }

  function FromHex(a: char, b: char, c: char, d: char): (r: Option<nat>)
    ensures r.Some? ==> r.value < 0x10000
  {
    match (HexValue(a), HexValue(b), HexValue(c), HexValue(d))
    case (Some(w), Some(x), Some(y), Some(z)) => Some(w * 4096 + x * 256 + y * 16 + z)
    case _ => None
  }

  /** The code unit of a u-escape at the start of s. */
  function CodeUnit(s: string): (r: Option<nat>)
    ensures r.Some? ==> |s| >= 6 && r.value < 0x10000
  {
    if |s| < 6 || s[0] != '\\' || s[1] != 'u' then None else FromHex(s[2], s[3], s[4], s[5])
  }

  /** What a backslash and this letter stand for. */
  function Unlettered(letter: char): Option<char> {
    match letter
    case '"' => Some('"')
    case '\\' => Some('\\')
    case '/' => Some('/')
    case 'b' => Some(BACKSPACE)
    case 'f' => Some(FORM_FEED)
    case 'n' => Some('\n')
    case 'r' => Some('\r')
    case 't' => Some('\t')
    case _ => None
  }

  /** One character inside a string; a surrogate stands only as half of a pair. */
  function ParseChar(s: string): (r: Option<(char, string)>)
    requires s != ""
    ensures r.Some? ==> |r.value.1| < |s|
  {
    if s[0] == '"' || s[0] < ' ' then None
    else if s[0] != '\\' then Some((s[0], s[1..]))
    else if |s| == 1 then None
    else
      match Unlettered(s[1])
      case Some(c) => Some((c, s[2..]))
      case None =>
        match CodeUnit(s)
        case None => None
        case Some(n) =>
          if n < 0xD800 || n >= 0xE000 then Some((n as char, s[6..]))
          else if n >= 0xDC00 then None
          else
            match CodeUnit(s[6..])
            case None => None
            case Some(m) =>
              if 0xDC00 <= m < 0xE000
              then Some(((0x10000 + (n - 0xD800) * 0x400 + (m - 0xDC00)) as char, s[12..]))
              else None
  }

  /** The rest of a string, from inside it up to and over its closing quote. */
  function ParseChars(s: string): (r: Option<(string, string)>)
    ensures r.Some? ==> |r.value.1| < |s|
    decreases |s|
  {
    if s == "" then None
    else if s[0] == '"' then Some(("", s[1..]))
    else
      match ParseChar(s)
      case None => None
      case Some((c, rest)) =>
        match ParseChars(rest)
        case None => None
        case Some((text, after)) => Some(([c] + text, after))
  }

  function ParseValue(s: string): (r: Option<(Json, string)>)
    ensures r.Some? ==> |r.value.1| < |s|
    decreases |s|, 0
  {
    var t := Trim(s);
    if t == "" then None
    else if t[0] == '"' then
      match ParseChars(t[1..])
      case None => None
      case Some((text, rest)) => Some((Str(text), rest))
    else if t[0] == '[' then
      var u := Trim(t[1..]);
      if u != "" && u[0] == ']' then Some((Arr([]), u[1..]))
      else
        match ParseItems(u)
        case None => None
        case Some((items, rest)) => Some((Arr(items), rest))
    else if t[0] == '{' then
      var u := Trim(t[1..]);
      if u != "" && u[0] == '}' then Some((Obj([]), u[1..]))
      else
        match ParseMembers(u)
        case None => None
        case Some((members, rest)) => Some((Obj(members), rest))
    else None
  }

  function ParseItems(s: string): (r: Option<(seq<Json>, string)>)
    ensures r.Some? ==> |r.value.1| < |s|
    decreases |s|, 1
  {
    match ParseValue(s)
    case None => None
    case Some((item, rest)) =>
      var t := Trim(rest);
      if t == "" then None
      else if t[0] == ']' then Some(([item], t[1..]))
      else if t[0] == ',' then
        match ParseItems(t[1..])
        case None => None
        case Some((items, after)) => Some(([item] + items, after))
      else None
  }

  function ParseMember(s: string): (r: Option<(Member, string)>)
    ensures r.Some? ==> |r.value.1| < |s|
    decreases |s|, 0
  {
    var t := Trim(s);
    if t == "" || t[0] != '"' then None
    else
      match ParseChars(t[1..])
      case None => None
      case Some((name, rest)) =>
        var u := Trim(rest);
        if u == "" || u[0] != ':' then None
        else
          match ParseValue(u[1..])
          case None => None
          case Some((value, after)) => Some((Member(name, value), after))
  }

  function ParseMembers(s: string): (r: Option<(seq<Member>, string)>)
    ensures r.Some? ==> |r.value.1| < |s|
    decreases |s|, 1
  {
    match ParseMember(s)
    case None => None
    case Some((member, rest)) =>
      var t := Trim(rest);
      if t == "" then None
      else if t[0] == '}' then Some(([member], t[1..]))
      else if t[0] == ',' then
        match ParseMembers(t[1..])
        case None => None
        case Some((members, after)) => Some(([member] + members, after))
      else None
  }

  /** A JSON text is one value with nothing but blanks around it. */
  function Decode(s: string): Option<Json> {
    match ParseValue(s)
    case None => None
    case Some((j, rest)) => if Trim(rest) == "" then Some(j) else None
  }

  // ---------------------------------------------------------------- round trip

  lemma HexDigitRead(n: nat)
    requires n < 16
    ensures HexValue(HexDigit(n)) == Some(n)
  {
  }

  lemma DigitsRead(w: nat, x: nat, y: nat, z: nat)
    requires w < 16 && x < 16 && y < 16 && z < 16
    ensures FromHex(HexDigit(w), HexDigit(x), HexDigit(y), HexDigit(z)) == Some(w * 4096 + x * 256 + y * 16 + z)
  {
    HexDigitRead(w);
    HexDigitRead(x);
    HexDigitRead(y);
    HexDigitRead(z);
  }

  lemma DigitsSum(n: nat)
    requires n < 0x10000
    ensures n / 4096 < 16
    ensures n / 4096 * 4096 + n / 256 % 16 * 256 + n / 16 % 16 * 16 + n % 16 == n
  {
    var a, b := n / 16, n / 256;
    assert b == a / 16 && n / 4096 == b / 16;
  }

  lemma Hex4Read(n: nat)
    requires n < 0x10000
    ensures var h := Hex4(n); FromHex(h[0], h[1], h[2], h[3]) == Some(n)
  {
    DigitsSum(n);
    DigitsRead(n / 4096, n / 256 % 16, n / 16 % 16, n % 16);
  }

  lemma CodeUnitRead(n: nat, rest: string)
    requires n < 0x10000
    ensures var s := "\\u" + Hex4(n) + rest; s[1] == 'u' && CodeUnit(s) == Some(n) && s[6..] == rest
  {
    Hex4Read(n);
    var h := Hex4(n);
    assert "\\u" + h + rest == ['\\', 'u', h[0], h[1], h[2], h[3]] + rest;
  }

  // A pair of escapes, its two halves already read.
  lemma PairRead(s: string, hi: nat, lo: nat)
    requires |s| >= 12 && s[0] == '\\' && s[1] == 'u'
    requires CodeUnit(s) == Some(hi) && 0xD800 <= hi < 0xDC00
    requires CodeUnit(s[6..]) == Some(lo) && 0xDC00 <= lo < 0xE000
    ensures ParseChar(s) == Some(((0x10000 + (hi - 0xD800) * 0x400 + (lo - 0xDC00)) as char, s[12..]))
  {
  }

  lemma SurrogatesRead(n: nat, rest: string)
    requires 0x10000 <= n < 0x110000
    ensures var s := "\\u" + Hex4(0xD800 + (n - 0x10000) / 0x400) + "\\u" + Hex4(0xDC00 + (n - 0x10000) % 0x400) + rest;
            ParseChar(s) == Some((n as char, rest))
  {
    var hi, lo := 0xD800 + (n - 0x10000) / 0x400, 0xDC00 + (n - 0x10000) % 0x400;
    var tail := "\\u" + Hex4(lo) + rest;
    var s := "\\u" + Hex4(hi) + tail;
    assert s == "\\u" + Hex4(hi) + "\\u" + Hex4(lo) + rest;
    CodeUnitRead(hi, tail);
    CodeUnitRead(lo, rest);
    assert s[12..] == s[6..][6..];
    PairRead(s, hi, lo);
  }

  lemma UnitEscapesRead(n: nat, rest: string)
    requires n < 0xD800 || 0xE000 <= n < 0x110000
    ensures UnitEscapes(n)[0] == '\\'
    ensures ParseChar(UnitEscapes(n) + rest) == Some((n as char, rest))
  {
    if n < 0x10000 {
      CodeUnitRead(n, rest);
    } else {
      SurrogatesRead(n, rest);
    }
  }

  lemma EscapedRead(c: char, ascii: bool, rest: string)
    ensures Escaped(c, ascii)[0] != '"'
    ensures ParseChar(Escaped(c, ascii) + rest) == Some((c, rest))
  {
    if Letter(c).Some? {
      assert (['\\', Letter(c).value] + rest)[2..] == rest;
    } else if MustEscape(c, ascii) {
      UnitEscapesRead(c as int, rest);
    } else {
      assert ([c] + rest)[1..] == rest;
    }
  }

  lemma {:induction false} CharsRead(s: string, ascii: bool, rest: string)
    ensures ParseChars(EscapedAll(s, ascii) + "\"" + rest) == Some((s, rest))
  {
    if s == "" {
      assert EscapedAll(s, ascii) + "\"" + rest == ['"'] + rest;
    } else {
      var tail := EscapedAll(s[1..], ascii) + "\"" + rest;
      Associative(Escaped(s[0], ascii), EscapedAll(s[1..], ascii), "\"");
      Associative(Escaped(s[0], ascii), EscapedAll(s[1..], ascii) + "\"", rest);
      EscapedRead(s[0], ascii, tail);
      CharsRead(s[1..], ascii, rest);
      HeadAndTail(s);
    }
  }

  lemma QuotedRead(s: string, ascii: bool, rest: string)
    ensures var q := Quoted(s, ascii) + rest; q[0] == '"' && ParseChars(q[1..]) == Some((s, rest))
  {
    CharsRead(s, ascii, rest);
    var e := EscapedAll(s, ascii);
    Associative("\"", e, "\"");
    Associative("\"", e + "\"", rest);
    Popped('"', e + "\"" + rest);
  }

  lemma StartsPlainly(j: Json, ascii: bool)
    ensures Encode(j, ascii) != "" && !Blank(Encode(j, ascii)[0])
    ensures Encode(j, ascii)[0] != ']'
  {
  }

  lemma ParseNext(s: string, item: Json, tail: string)
    requires ParseValue(s) == Some((item, tail)) && tail != ""
    ensures tail[0] == ']' ==> ParseItems(s) == Some(([item], tail[1..]))
    ensures tail[0] == ',' && ParseItems(tail[1..]).Some? ==>
              var (items, after) := ParseItems(tail[1..]).value;
              ParseItems(s) == Some(([item] + items, after))
  {
  }

  lemma ParseNextMember(s: string, member: Member, tail: string)
    requires ParseMember(s) == Some((member, tail)) && tail != ""
    ensures tail[0] == '}' ==> ParseMembers(s) == Some(([member], tail[1..]))
    ensures tail[0] == ',' && ParseMembers(tail[1..]).Some? ==>
              var (members, after) := ParseMembers(tail[1..]).value;
              ParseMembers(s) == Some(([member] + members, after))
  {
  }

  lemma ParseOpened(s: string, u: string)
    requires s != "" && s[1..] == u && u != "" && !Blank(u[0])
    ensures s[0] == '[' ==> ParseValue(s) == if u[0] == ']' then Some((Arr([]), u[1..])) else
              match ParseItems(u) case None => None case Some((items, rest)) => Some((Arr(items), rest))
    ensures s[0] == '{' ==> ParseValue(s) == if u[0] == '}' then Some((Obj([]), u[1..])) else
              match ParseMembers(u) case None => None case Some((members, rest)) => Some((Obj(members), rest))
  {
  }

  /** Printing then parsing is the identity, whatever follows the value. */
  lemma {:induction false} ValueRead(j: Json, ascii: bool, rest: string)
    ensures ParseValue(Encode(j, ascii) + rest) == Some((j, rest))
    decreases j, 0
  {
    match j
    case Str(text) => QuotedRead(text, ascii, rest);
    case Arr(items) => ArrayRead(items, ascii, rest);
    case Obj(members) => ObjectRead(members, ascii, rest);
  }

  lemma {:induction false} ArrayRead(items: seq<Json>, ascii: bool, rest: string)
    ensures ParseValue(Encode(Arr(items), ascii) + rest) == Some((Arr(items), rest))
    decreases items, 2
  {
    var s := Encode(Arr(items), ascii) + rest;
    var u := (if items == [] then "]" else EncodeItems(items, ascii)) + rest;
    assert s == ['['] + u;
    if items == [] {
      assert u[1..] == rest;
    } else {
      StartsPlainly(items[0], ascii);
      assert u[0] == Encode(items[0], ascii)[0];
      ItemsRead(items, ascii, rest);
    }
    ParseOpened(s, u);
  }

  lemma {:induction false} ObjectRead(members: seq<Member>, ascii: bool, rest: string)
    ensures ParseValue(Encode(Obj(members), ascii) + rest) == Some((Obj(members), rest))
    decreases members, 3
  {
    var s := Encode(Obj(members), ascii) + rest;
    var u := (if members == [] then "}" else EncodeMembers(members, ascii)) + rest;
    assert s == ['{'] + u;
    if members == [] {
      assert u[1..] == rest;
    } else {
      assert u[0] == EncodeMember(members[0], ascii)[0] == '"';
      MembersRead(members, ascii, rest);
    }
    ParseOpened(s, u);
  }

  // What follows the first item, the closing bracket included.
  function ItemsTail(items: seq<Json>, ascii: bool, rest: string): (tail: string)
    requires items != []
    ensures EncodeItems(items, ascii) + rest == Encode(items[0], ascii) + tail
    ensures tail[1..] == if |items| == 1 then rest else EncodeItems(items[1..], ascii) + rest
  {
    if |items| == 1 then
      Associative(Encode(items[0], ascii), [']'], rest);
      Popped(']', rest);
      [']'] + rest
    else
      Regrouped(Encode(items[0], ascii), ',', EncodeItems(items[1..], ascii), rest);
      [','] + (EncodeItems(items[1..], ascii) + rest)
  }

  lemma {:induction false} ItemsRead(items: seq<Json>, ascii: bool, rest: string)
    requires items != []
    ensures ParseItems(EncodeItems(items, ascii) + rest) == Some((items, rest))
    decreases items, 1
  {
    var tail := ItemsTail(items, ascii, rest);
    ValueRead(items[0], ascii, tail);
    if |items| > 1 { ItemsRead(items[1..], ascii, rest); }
    ParseNext(EncodeItems(items, ascii) + rest, items[0], tail);
    HeadAndTail(items);
  }

  lemma {:induction false} MemberRead(m: Member, ascii: bool, rest: string)
    ensures ParseMember(EncodeMember(m, ascii) + rest) == Some((m, rest))
    decreases m, 1
  {
    var colon := [':'] + (Encode(m.value, ascii) + rest);
    assert EncodeMember(m, ascii) + rest == Quoted(m.name, ascii) + colon;
    QuotedRead(m.name, ascii, colon);
    ValueRead(m.value, ascii, rest);
  }

  // What follows the first member, the closing brace included.
  function MembersTail(members: seq<Member>, ascii: bool, rest: string): (tail: string)
    requires members != []
    ensures EncodeMembers(members, ascii) + rest == EncodeMember(members[0], ascii) + tail
    ensures tail[1..] == if |members| == 1 then rest else EncodeMembers(members[1..], ascii) + rest
  {
    if |members| == 1 then
      Associative(EncodeMember(members[0], ascii), ['}'], rest);
      Popped('}', rest);
      ['}'] + rest
    else
      Regrouped(EncodeMember(members[0], ascii), ',', EncodeMembers(members[1..], ascii), rest);
      [','] + (EncodeMembers(members[1..], ascii) + rest)
  }

  lemma {:induction false} MembersRead(members: seq<Member>, ascii: bool, rest: string)
    requires members != []
    ensures ParseMembers(EncodeMembers(members, ascii) + rest) == Some((members, rest))
    decreases members, 2
  {
    var tail := MembersTail(members, ascii, rest);
    MemberRead(members[0], ascii, tail);
    if |members| > 1 { MembersRead(members[1..], ascii, rest); }
    ParseNextMember(EncodeMembers(members, ascii) + rest, members[0], tail);
    HeadAndTail(members);
  }

  /** Every value the service writes is a JSON text that reads back as that value, in either mode. */
  lemma RoundTrip(j: Json, ascii: bool)
    ensures Decode(Encode(j, ascii)) == Some(j)
  {
    ValueRead(j, ascii, "");
    assert Encode(j, ascii) + "" == Encode(j, ascii);
  }

  /** Two values have one text only if they are one value, even across the two modes. */
  lemma Injective(a: Json, b: Json, asciiA: bool, asciiB: bool)
    requires Encode(a, asciiA) == Encode(b, asciiB)
    ensures a == b
  {
    RoundTrip(a, asciiA);
    RoundTrip(b, asciiB);
  }

  predicate PrintableAscii(s: string) {
    forall i | 0 <= i < |s| :: ' ' <= s[i] <= '~'
  }

  lemma EscapedIsAscii(c: char)
    ensures PrintableAscii(Escaped(c, true))
  {
  }

  lemma {:induction false} EscapedAllIsAscii(s: string)
    ensures PrintableAscii(EscapedAll(s, true))
  {
    if s != "" {
      EscapedIsAscii(s[0]);
      EscapedAllIsAscii(s[1..]);
    }
  }

  /** With ensure_ascii the text is printable ASCII, so any 8-bit encoding carries it. */
  lemma {:induction false} AsciiTextIsAscii(j: Json)
    ensures PrintableAscii(Encode(j, true))
    decreases j, 0
  {
    match j
    case Str(text) => EscapedAllIsAscii(text);
    case Arr(items) => if items != [] { AsciiItems(items); }
    case Obj(members) => if members != [] { AsciiMembers(members); }
  }

  lemma {:induction false} AsciiItems(items: seq<Json>)
    requires items != []
    ensures PrintableAscii(EncodeItems(items, true))
    decreases items, 1
  {
    AsciiTextIsAscii(items[0]);
    if |items| > 1 { AsciiItems(items[1..]); }
  }

  lemma {:induction false} AsciiMembers(members: seq<Member>)
    requires members != []
    ensures PrintableAscii(EncodeMembers(members, true))
    decreases members, 1
  {
    EscapedAllIsAscii(members[0].name);
    AsciiTextIsAscii(members[0].value);
    if |members| > 1 { AsciiMembers(members[1..]); }
  }

  predicate Letters(s: string) {
    forall i | 0 <= i < |s| :: 'a' <= s[i] <= 'z'
  }

  lemma LettersArePlain(c: char, ascii: bool)
    requires 'a' <= c <= 'z'
    ensures Escaped(c, ascii) == [c]
  {
  }

  /** Lower-case letters are printed as they stand. */
  lemma {:induction false} PlainText(s: string, ascii: bool)
    requires Letters(s)
    ensures EscapedAll(s, ascii) == s
  {
    if s != "" {
      LettersArePlain(s[0], ascii);
      PlainText(s[1..], ascii);
      HeadAndTail(s);
    }
  }

  lemma LettersQuoted(s: string, ascii: bool)
    requires Letters(s)
    ensures Quoted(s, ascii) == "\"" + s + "\""
  {
    PlainText(s, ascii);
  }

  // ---------------------------------------------------------------- the standards, character by character

  /** The two-character escapes of section 7 of RFC 8259, and no others. */
  lemma ReadsTheStandardEscapes(letter: char)
    ensures Unlettered(letter) == if letter in {'"', '\\', '/'} then Some(letter)
                                  else if letter == 'b' then Some(0x08 as char)
                                  else if letter == 't' then Some(0x09 as char)
                                  else if letter == 'n' then Some(0x0A as char)
                                  else if letter == 'f' then Some(0x0C as char)
                                  else if letter == 'r' then Some(0x0D as char)
                                  else None
  {
  }

  /** Four hexadecimal digits, the most significant first; a code point past the first plane takes two of them. */
  lemma ReadsCodePoints(rest: string)
    ensures ParseChar("\\u00e9" + rest) == Some((0xE9 as char, rest))
    ensures ParseChar("\\u20AC" + rest) == Some((0x20AC as char, rest))
    ensures ParseChar("\\ud83d\\ude00" + rest) == Some((0x1F600 as char, rest))
  {
    var e, euro, face := "\\u00e9" + rest, "\\u20AC" + rest, "\\ud83d\\ude00" + rest;
    assert e[6..] == rest && euro[6..] == rest && face[12..] == rest;
    assert face[6..][0] == '\\' && face[6..][1] == 'u';
    assert CodeUnit(e) == Some(0xE9) && CodeUnit(euro) == Some(0x20AC);
    assert CodeUnit(face) == Some(0xD83D) && CodeUnit(face[6..]) == Some(0xDE00);
  }

  /**
   * A character is printed as it stands unless it is a quote, a backslash or a control, or has to be ASCII and is not.
   */
  lemma EscapesOnlyWhatItMust(c: char, ascii: bool)
    ensures Escaped(c, ascii) == [c] <==>
              c as int >= 0x20 && c != '"' && c != '\\' && (ascii ==> c as int <= 0x7E)
  {
  }

  lemma HexIsLowerCase(n: nat)
    requires n < 16
    ensures HexDigit(n) == "0123456789abcdef"[n]
  {
  }

  lemma PrintsOne(a: Json, ascii: bool)
    ensures Encode(Arr([a]), ascii) == "[" + (Encode(a, ascii) + "]")
    ensures Encode(Arr([a]), ascii) == "[" + Encode(a, ascii) + "]"
  {
  }

  /** Compact separators between the standard's brackets, whatever the two values are. */
  lemma PrintsPairs(a: Json, b: Json, ascii: bool)
    ensures Encode(Arr([]), ascii) == "[]" && Encode(Obj([]), ascii) == "{}"
    ensures Encode(Arr([a, b]), ascii) == "[" + (Encode(a, ascii) + ("," + (Encode(b, ascii) + "]")))
  {
    assert [a, b][1..] == [b];
    assert EncodeItems([b], ascii) == Encode(b, ascii) + "]";
  }

  lemma PrintsMembers(a: Member, b: Member, ascii: bool)
    ensures Encode(Obj([a, b]), ascii) == "{" + (EncodeMember(a, ascii) + ("," + (EncodeMember(b, ascii) + "}")))
    ensures EncodeMember(a, ascii) == Encode(Str(a.name), ascii) + ":" + Encode(a.value, ascii)
  {
    assert [a, b][1..] == [b];
    assert EncodeMembers([b], ascii) == EncodeMember(b, ascii) + "}";
  }
}
