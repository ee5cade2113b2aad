/** JSON trees, their compact printing by Python's `json.dumps` and JavaScript's
    `JSON.stringify`, and a reader (sections 4 to 7 of RFC 8259, without
    insignificant whitespace) that undoes both printers. */
module JsonText {
  import opened Options

  /** A tree as the runtime holds it: an object lists its members in insertion
      order. A number is kept as the token the runtime formats it with. */
  datatype Json =
    | Null
    | Bool(b: bool)
    | Number(token: string)
    | Text(s: string)
    | Array(items: seq<Json>)
    | Object(members: seq<Member>)

  datatype Member = Member(name: string, value: Json)

  predicate NumberChar(c: char) {
    '0' <= c <= '9' || c in "+-.eE"
  }

  predicate NumberToken(s: string) {
    s != "" && forall i | 0 <= i < |s| :: NumberChar(s[i])
  }

  ghost predicate Tokens(j: Json) {
    match j
    case Number(t) => NumberToken(t)
    case Array(items) => forall i | 0 <= i < |items| :: Tokens(items[i])
    case Object(ms) => forall i | 0 <= i < |ms| :: Tokens(ms[i].value)
    case _ => true
  }

  // ----- strings -----

  function HexChar(n: nat): char
    requires n < 16
  {
    if n < 10 then ('0' as int + n) as char else ('a' as int + n - 10) as char
  }

  function HexValue(c: char): (r: Option<nat>)
    ensures r.Some? ==> r.value < 16
  {
    if '0' <= c <= '9' then Some(c as int - '0' as int)
    else if 'a' <= c <= 'f' then Some(c as int - 'a' as int + 10)
    else if 'A' <= c <= 'F' then Some(c as int - 'A' as int + 10)
    else None
  }

  function Hex4(n: nat): (s: string)
    requires n < 0x10000
    ensures |s| == 4
  {
    [HexChar(n / 4096), HexChar(n / 256 % 16), HexChar(n / 16 % 16), HexChar(n % 16)]
  }

  function ReadHex4(s: string): (r: Option<nat>)
    ensures r.Some? ==> |s| >= 4 && r.value < 0x10000
  {
    if |s| < 4 then None
    else match (HexValue(s[0]), HexValue(s[1]), HexValue(s[2]), HexValue(s[3]))
      case (Some(a), Some(b), Some(c), Some(d)) => Some(4096 * a + 256 * b + 16 * c + d)
      case _ => None
  }

  function UnicodeEscape(unit: nat): string
    requires unit < 0x10000
  {
    ['\\', 'u'] + Hex4(unit)
  }

  function HighSurrogate(code: int): nat
    requires 0x10000 <= code < 0x110000
  {
    0xD800 + (code - 0x10000) / 0x400
  }

  function LowSurrogate(code: int): nat
    requires 0x10000 <= code < 0x110000
  {
    0xDC00 + (code - 0x10000) % 0x400
  }

  /** How one character is written inside a string. `ascii` is Python's
      `ensure_ascii`; `JSON.stringify` escapes only what it must. */
  function Escape(c: char, ascii: bool): string {
    if c == '\"' then ['\\', '\"']
    else if c == '\\' then ['\\', '\\']
    else if c == '\n' then ['\\', 'n']
    else if c == '\r' then ['\\', 'r']
    else if c == '\t' then ['\\', 't']
    else if c as int == 8 then ['\\', 'b']
    else if c as int == 12 then ['\\', 'f']
    else if c < ' ' || (ascii && c > '~' && c as int < 0x10000) then UnicodeEscape(c as int)
    else if ascii && c > '~' then
      UnicodeEscape(HighSurrogate(c as int)) + UnicodeEscape(LowSurrogate(c as int))
    else [c]
  }

  function EscapeAll(s: string, ascii: bool): string {
    if s == "" then "" else Escape(s[0], ascii) + EscapeAll(s[1..], ascii)
  }

  function Quote(s: string, ascii: bool): string {
    ['\"'] + EscapeAll(s, ascii) + ['\"']
  }

  // ----- the printer -----

  function Print(j: Json, ascii: bool): string
    decreases j, 1
  {
    match j
    case Null => "null"
    case Bool(b) => if b then "true" else "false"
    case Number(t) => t
    case Text(s) => Quote(s, ascii)
    case Array(items) => "[" + (if items == [] then "]" else PrintItems(items, ascii))
    case Object(members) => "{" + (if members == [] then "}" else PrintMembers(members, ascii))
  }

  /** The items of a non-empty array and its closing bracket. */
  function PrintItems(items: seq<Json>, ascii: bool): string
    requires items != []
    decreases items, 0
  {
    Print(items[0], ascii) + if |items| == 1 then "]" else "," + PrintItems(items[1..], ascii)
  }

  function PrintMember(m: Member, ascii: bool): string
    decreases m, 2
  {
    Quote(m.name, ascii) + (":" + Print(m.value, ascii))
  }

  function PrintMembers(members: seq<Member>, ascii: bool): string
    requires members != []
    decreases members, 0
  {
    PrintMember(members[0], ascii) + if |members| == 1 then "}" else "," + PrintMembers(members[1..], ascii)
  }

  // ----- the reader -----

  datatype Read<+T> = Fail | Got(value: T, rest: string)

  /** The character whose UTF-16 code unit is `unit`, if it is not a surrogate. */
  function UnitChar(unit: nat, rest: string): Read<char> {
    if unit < 0xD800 || 0xE000 <= unit < 0x10000 then Got(unit as char, rest) else Fail
  }

  function ReadUnicode(s: string): (r: Read<char>)
    ensures r.Got? ==> |r.rest| < |s|
  {
    var high := ReadHex4(s);
    if high.None? then Fail
    else if 0xD800 <= high.value < 0xDC00 then
      if |s| < 6 || s[4] != '\\' || s[5] != 'u' then Fail
      else
        var low := ReadHex4(s[6..]);
        if low.None? || !(0xDC00 <= low.value < 0xE000) then Fail
        else Got((0x10000 + (high.value - 0xD800) * 0x400 + (low.value - 0xDC00)) as char, s[10..])
    else UnitChar(high.value, s[4..])
  }

  /** One character of a string body; fails at the closing quote. */
  function ReadChar(s: string): (r: Read<char>)
    ensures r.Got? ==> |r.rest| < |s|
  {
    if s == "" || s[0] == '\"' || s[0] < ' ' then Fail
    else if s[0] != '\\' then Got(s[0], s[1..])
    else if |s| < 2 then Fail
    else if s[1] == 'u' then ReadUnicode(s[2..])
    else if s[1] == 'n' then Got('\n', s[2..])
    else if s[1] == 'r' then Got('\r', s[2..])
    else if s[1] == 't' then Got('\t', s[2..])
    else if s[1] == 'b' then Got(8 as char, s[2..])
    else if s[1] == 'f' then Got(12 as char, s[2..])
    else if s[1] == '\"' || s[1] == '\\' || s[1] == '/' then Got(s[1], s[2..])
    else Fail
  }

  /** A string body up to and including its closing quote. */
  function ReadBody(s: string): (r: Read<string>)
    ensures r.Got? ==> |r.rest| < |s|
    decreases |s|
  {
    if s != "" && s[0] == '\"' then Got("", s[1..])
    else
      var c := ReadChar(s);
      if c.Fail? then Fail
      else
        var more := ReadBody(c.rest);
        if more.Fail? then Fail else Got([c.value] + more.value, more.rest)
  }

  function NumberLength(s: string): (n: nat)
    ensures n <= |s|
  {
    if s == "" || !NumberChar(s[0]) then 0 else 1 + NumberLength(s[1..])
  }

  function ReadWord(s: string, word: string, j: Json): Read<Json> {
    if word <= s then Got(j, s[|word|..]) else Fail
  }

  function ReadNumber(s: string): Read<Json> {
    var n := NumberLength(s);
    if n == 0 then Fail else Got(Number(s[..n]), s[n..])
  }

  function ReadText(s: string): Read<Json> {
    var body := ReadBody(s);
    if body.Fail? then Fail else Got(Text(body.value), body.rest)
  }

  function ReadValue(s: string): (r: Read<Json>)
    ensures r.Got? ==> |r.rest| < |s|
    decreases |s|, 1
  {
    if s == "" then Fail
    else if s[0] == 'n' then ReadWord(s, "null", Null)
    else if s[0] == 't' then ReadWord(s, "true", Bool(true))
    else if s[0] == 'f' then ReadWord(s, "false", Bool(false))
    else if s[0] == '\"' then ReadText(s[1..])
    else if s[0] == '[' then ReadArray(s[1..])
    else if s[0] == '{' then ReadObject(s[1..])
    else ReadNumber(s)
  }

  function ReadArray(s: string): (r: Read<Json>)
    ensures r.Got? ==> |r.rest| < |s|
    decreases |s|, 3
  {
    if s != "" && s[0] == ']' then Got(Array([]), s[1..])
    else
      var items := ReadItems(s);
      if items.Fail? then Fail else Got(Array(items.value), items.rest)
  }

  function ReadObject(s: string): (r: Read<Json>)
    ensures r.Got? ==> |r.rest| < |s|
    decreases |s|, 4
  {
    if s != "" && s[0] == '}' then Got(Object([]), s[1..])
    else
      var members := ReadMembers(s);
      if members.Fail? then Fail else Got(Object(members.value), members.rest)
  }

  function ReadItems(s: string): (r: Read<seq<Json>>)
    ensures r.Got? ==> |r.rest| < |s|
    decreases |s|, 2
  {
    var first := ReadValue(s);
    if first.Fail? || first.rest == "" then Fail
    else if first.rest[0] == ']' then Got([first.value], first.rest[1..])
    else if first.rest[0] != ',' then Fail
    else
      var more := ReadItems(first.rest[1..]);
      if more.Fail? then Fail else Got([first.value] + more.value, more.rest)
  }

  function ReadMember(s: string): (r: Read<Member>)
    ensures r.Got? ==> |r.rest| < |s|
    decreases |s|, 2
  {
    if s == "" || s[0] != '\"' then Fail
    else
      var name := ReadBody(s[1..]);
      if name.Fail? || name.rest == "" || name.rest[0] != ':' then Fail
      else
        var value := ReadValue(name.rest[1..]);
        if value.Fail? then Fail else Got(Member(name.value, value.value), value.rest)
  }

  function ReadMembers(s: string): (r: Read<seq<Member>>)
    ensures r.Got? ==> |r.rest| < |s|
    decreases |s|, 3
  {
    var first := ReadMember(s);
    if first.Fail? || first.rest == "" then Fail
    else if first.rest[0] == '}' then Got([first.value], first.rest[1..])
    else if first.rest[0] != ',' then Fail
    else
      var more := ReadMembers(first.rest[1..]);
      if more.Fail? then Fail else Got([first.value] + more.value, more.rest)
  }

  // ----- the reader undoes the printer -----

  lemma Hex4Reads(n: nat, rest: string)
    requires n < 0x10000
    ensures ReadHex4(Hex4(n) + rest) == Some(n)
  {
    HexSplit(n);
  }

  lemma HexSplit(n: nat)
    ensures n == 4096 * (n / 4096) + 256 * (n / 256 % 16) + 16 * (n / 16 % 16) + n % 16
  {
    var a := n / 16;
    var b := a / 16;
    assert b == n / 256 && b / 16 == n / 4096;
  }

  lemma UnicodeReads(c: char, rest: string)
    requires c as int < 0x10000
    ensures ReadChar(UnicodeEscape(c as int) + rest) == Got(c, rest)
  {
    var s := UnicodeEscape(c as int) + rest;
    assert s[2..] == Hex4(c as int) + rest;
    Hex4Reads(c as int, rest);
    assert s[2..][4..] == rest;
  }

  lemma PairReads(c: char, rest: string)
    requires c as int >= 0x10000
    ensures ReadChar(UnicodeEscape(HighSurrogate(c as int)) + UnicodeEscape(LowSurrogate(c as int)) + rest)
         == Got(c, rest)
  {
    var high, low := HighSurrogate(c as int), LowSurrogate(c as int);
    var s := UnicodeEscape(high) + UnicodeEscape(low) + rest;
    var tail := UnicodeEscape(low) + rest;
    assert s[2..] == Hex4(high) + tail;
    Hex4Reads(high, tail);
    assert s[2..][6..] == Hex4(low) + rest;
    Hex4Reads(low, rest);
    assert s[2..][10..] == rest;
    assert (high - 0xD800) * 0x400 + (low - 0xDC00) == c as int - 0x10000;
  }

  lemma CharReads(c: char, ascii: bool, rest: string)
    ensures ReadChar(Escape(c, ascii) + rest) == Got(c, rest)
    ensures Escape(c, ascii) != "" && Escape(c, ascii)[0] != '\"'
  {
    var e := Escape(c, ascii);
    if |e| == 1 {
      assert (e + rest)[1..] == rest;
    } else if |e| == 2 {
      assert (e + rest)[2..] == rest;
    } else if |e| == 6 {
      UnicodeReads(c, rest);
    } else {
      PairReads(c, rest);
    }
  }

  lemma {:induction false} BodyReads(s: string, ascii: bool, rest: string)
    ensures ReadBody(EscapeAll(s, ascii) + ['\"'] + rest) == Got(s, rest)
  {
    var text := EscapeAll(s, ascii) + ['\"'] + rest;
    if s == "" {
      assert text == ['\"'] + rest;
      assert text[1..] == rest;
    } else {
      var tail := EscapeAll(s[1..], ascii) + ['\"'] + rest;
      assert text == Escape(s[0], ascii) + tail;
      CharReads(s[0], ascii, tail);
      BodyReads(s[1..], ascii, rest);
      assert [s[0]] + s[1..] == s;
    }
  }

  /** What may follow a value in a JSON text: nothing, or a delimiter. */
  predicate Delimited(rest: string) {
    rest == "" || rest[0] == ',' || rest[0] == ']' || rest[0] == '}'
  }

  lemma {:induction false} NumberReads(t: string, rest: string)
    requires (forall i | 0 <= i < |t| :: NumberChar(t[i])) && Delimited(rest)
    ensures NumberLength(t + rest) == |t|
  {
    if t == "" {
      assert t + rest == rest;
    } else {
      assert (t + rest)[1..] == t[1..] + rest;
      NumberReads(t[1..], rest);
    }
  }

  lemma NumberValueReads(t: string, rest: string)
    requires NumberToken(t) && Delimited(rest)
    ensures ReadValue(t + rest) == Got(Number(t), rest)
  {
    var s := t + rest;
    NumberReads(t, rest);
    assert s[..|t|] == t && s[|t|..] == rest;
    assert NumberChar(t[0]) && s[0] == t[0];
  }

  lemma TextValueReads(x: string, ascii: bool, rest: string)
    ensures ReadValue(Quote(x, ascii) + rest) == Got(Text(x), rest)
  {
    BodyReads(x, ascii, rest);
    QuoteParts(x, ascii, rest);
    TextFromBody(Quote(x, ascii) + rest, x, rest);
  }

  lemma QuoteParts(x: string, ascii: bool, rest: string)
    ensures
      var s := Quote(x, ascii) + rest;
      s != "" && s[0] == '\"' && s[1..] == EscapeAll(x, ascii) + ['\"'] + rest
  {
  }

  lemma TextFromBody(s: string, x: string, rest: string)
    requires s != "" && s[0] == '\"' && ReadBody(s[1..]) == Got(x, rest)
    ensures ReadValue(s) == Got(Text(x), rest)
  {
  }

  lemma WordReads(word: string, j: Json, rest: string)
    ensures ReadWord(word + rest, word, j) == Got(j, rest)
  {
    assert (word + rest)[|word|..] == rest;
  }

  /** Reading what was printed gives the tree back, and leaves what follows. */
  lemma {:induction false} PrintReads(j: Json, ascii: bool, rest: string)
    requires Tokens(j) && Delimited(rest)
    ensures ReadValue(Print(j, ascii) + rest) == Got(j, rest)
    decreases j, 1
  {
    match j
    case Null => WordReads("null", Null, rest);
    case Bool(b) => WordReads(if b then "true" else "false", j, rest);
    case Number(t) => NumberValueReads(t, rest);
    case Text(x) => TextValueReads(x, ascii, rest);
    case Array(items) =>
      if items != [] { ItemsRead(items, ascii, rest); }
      ArrayReads(items, ascii, rest);
    case Object(members) =>
      if members != [] { MembersRead(members, ascii, rest); }
      ObjectReads(members, ascii, rest);
  }

  lemma ArrayReads(items: seq<Json>, ascii: bool, rest: string)
    requires Tokens(Array(items))
    requires items != [] ==> ReadItems(PrintItems(items, ascii) + rest) == Got(items, rest)
    ensures ReadValue(Print(Array(items), ascii) + rest) == Got(Array(items), rest)
  {
    var s := Print(Array(items), ascii) + rest;
    if items == [] {
      assert s == "[]" + rest;
      assert s[1..][1..] == rest;
    } else {
      PrintStart(items[0], ascii);
      assert s[1..] == PrintItems(items, ascii) + rest;
    }
  }

  lemma ObjectReads(members: seq<Member>, ascii: bool, rest: string)
    requires members != [] ==> ReadMembers(PrintMembers(members, ascii) + rest) == Got(members, rest)
    ensures ReadValue(Print(Object(members), ascii) + rest) == Got(Object(members), rest)
  {
    var s := Print(Object(members), ascii) + rest;
    if members == [] {
      assert s == "{}" + rest;
      assert s[1..][1..] == rest;
    } else {
      assert s[1..] == PrintMembers(members, ascii) + rest;
    }
  }

  /** No printed value starts with a closing bracket. */
  lemma PrintStart(j: Json, ascii: bool)
    requires Tokens(j)
    ensures Print(j, ascii) != "" && Print(j, ascii)[0] != ']'
  {
    if j.Number? {
      assert NumberChar(j.token[0]);
    }
  }

  lemma {:induction false} ItemsRead(items: seq<Json>, ascii: bool, rest: string)
    requires items != [] && (forall i | 0 <= i < |items| :: Tokens(items[i]))
    ensures ReadItems(PrintItems(items, ascii) + rest) == Got(items, rest)
    decreases items, 0
  {
    var text := Print(items[0], ascii);
    if |items| == 1 {
      PrintReads(items[0], ascii, "]" + rest);
      LastItem(items[0], text, rest);
      assert items == [items[0]];
    } else {
      var more := PrintItems(items[1..], ascii);
      PrintReads(items[0], ascii, "," + more + rest);
      ItemsRead(items[1..], ascii, rest);
      NextItem(items[0], text, items[1..], more, rest);
      assert items == [items[0]] + items[1..];
    }
  }

  lemma LastItem(j: Json, text: string, rest: string)
    requires ReadValue(text + ("]" + rest)) == Got(j, "]" + rest)
    ensures ReadItems(text + "]" + rest) == Got([j], rest)
  {
    var after := "]" + rest;
    assert text + "]" + rest == text + after;
    assert after[1..] == rest;
    LastItemStep(text + after, j, after);
  }

  lemma LastItemStep(s: string, j: Json, after: string)
    requires ReadValue(s) == Got(j, after) && after != "" && after[0] == ']'
    ensures ReadItems(s) == Got([j], after[1..])
  {
  }

  lemma NextItem(j: Json, text: string, items: seq<Json>, more: string, rest: string)
    requires ReadValue(text + ("," + more + rest)) == Got(j, "," + more + rest)
    requires ReadItems(more + rest) == Got(items, rest)
    ensures ReadItems(text + ("," + more) + rest) == Got([j] + items, rest)
  {
    Rejoin(text, more, rest);
    ItemStep(text + ("," + more + rest), j, "," + more + rest);
  }

  lemma Rejoin(text: string, more: string, rest: string)
    ensures text + ("," + more) + rest == text + ("," + more + rest)
    ensures ("," + more + rest)[1..] == more + rest
  {
  }

  lemma ItemStep(s: string, j: Json, after: string)
    requires ReadValue(s) == Got(j, after) && after != "" && after[0] == ','
    requires ReadItems(after[1..]).Got?
    ensures ReadItems(s) == Got([j] + ReadItems(after[1..]).value, ReadItems(after[1..]).rest)
  {
  }

  lemma MemberReads(m: Member, ascii: bool, rest: string)
    requires Tokens(m.value) && Delimited(rest)
    ensures ReadMember(PrintMember(m, ascii) + rest) == Got(m, rest)
    decreases m, 2
  {
    PrintReads(m.value, ascii, rest);
    NamedValueReads(m, ascii, Print(m.value, ascii), rest);
  }

  lemma NamedValueReads(m: Member, ascii: bool, text: string, rest: string)
    requires ReadValue(text + rest) == Got(m.value, rest)
    ensures ReadMember((Quote(m.name, ascii) + (":" + text)) + rest) == Got(m, rest)
  {
    var quoted, after := Quote(m.name, ascii), ":" + (text + rest);
    assert (quoted + (":" + text)) + rest == quoted + after;
    QuoteParts(m.name, ascii, after);
    BodyReads(m.name, ascii, after);
    assert after[1..] == text + rest;
    MemberFromParts(quoted + after, m, after, rest);
  }

  lemma MemberFromParts(s: string, m: Member, after: string, rest: string)
    requires s != "" && s[0] == '\"' && ReadBody(s[1..]) == Got(m.name, after)
    requires after != "" && after[0] == ':' && ReadValue(after[1..]) == Got(m.value, rest)
    ensures ReadMember(s) == Got(m, rest)
  {
  }

  lemma {:induction false} MembersRead(members: seq<Member>, ascii: bool, rest: string)
    requires members != [] && (forall i | 0 <= i < |members| :: Tokens(members[i].value))
    ensures ReadMembers(PrintMembers(members, ascii) + rest) == Got(members, rest)
    decreases members, 0
  {
    var m := members[0];
    if |members| == 1 {
      MemberReads(m, ascii, "}" + rest);
      LastMember(m, PrintMember(m, ascii), rest);
      assert members == [m];
    } else {
      var more := PrintMembers(members[1..], ascii);
      MemberReads(m, ascii, "," + more + rest);
      MembersRead(members[1..], ascii, rest);
      NextMember(m, PrintMember(m, ascii), members[1..], more, rest);
      assert members == [m] + members[1..];
    }
  }

  lemma LastMember(m: Member, text: string, rest: string)
    requires ReadMember(text + ("}" + rest)) == Got(m, "}" + rest)
    ensures ReadMembers(text + "}" + rest) == Got([m], rest)
  {
    var after := "}" + rest;
    assert text + "}" + rest == text + after;
    assert after[1..] == rest;
    LastMemberStep(text + after, m, after);
  }

  lemma LastMemberStep(s: string, m: Member, after: string)
    requires ReadMember(s) == Got(m, after) && after != "" && after[0] == '}'
    ensures ReadMembers(s) == Got([m], after[1..])
  {
  }

  lemma NextMember(m: Member, text: string, members: seq<Member>, more: string, rest: string)
    requires ReadMember(text + ("," + more + rest)) == Got(m, "," + more + rest)
    requires ReadMembers(more + rest) == Got(members, rest)
    ensures ReadMembers(text + ("," + more) + rest) == Got([m] + members, rest)
  {
    Rejoin(text, more, rest);
    MemberStep(text + ("," + more + rest), m, "," + more + rest);
  }

  lemma MemberStep(s: string, m: Member, after: string)
    requires ReadMember(s) == Got(m, after) && after != "" && after[0] == ','
    requires ReadMembers(after[1..]).Got?
    ensures ReadMembers(s) == Got([m] + ReadMembers(after[1..]).value, ReadMembers(after[1..]).rest)
  {
  }

  /** Printing loses nothing: trees that print alike are the same tree. */
  lemma PrintInjective(a: Json, b: Json, ascii: bool)
    requires Tokens(a) && Tokens(b)
    ensures Print(a, ascii) == Print(b, ascii) <==> a == b
  {
    PrintReads(a, ascii, "");
    PrintReads(b, ascii, "");
    assert Print(a, ascii) + "" == Print(a, ascii);
    assert Print(b, ascii) + "" == Print(b, ascii);
  }
}
