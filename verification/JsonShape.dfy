/** Which of the texts that denote a tree the printers choose: how each character
    is written, and in which order names stand. */
module JsonShape {
  import opened Options
  import opened JsonText
  import opened Sorting
  import opened CanonicalJson

  // ----- characters -----

  /** Section 7 of RFC 8259 lets every character stand as itself except the quotation
      mark, the backslash and the control characters; ASCII output also writes what
      lies beyond the tilde as escapes. */
  predicate Stands(c: char, ascii: bool) {
    c != '\"' && c != '\\' && 32 <= c as int && (ascii ==> c as int <= 126)
  }

  /** The characters for which there is an escape of two characters. */
  predicate HasShortEscape(c: char) {
    c == '\"' || c == '\\' || c as int in {8, 9, 10, 12, 13}
  }

  /** The number of characters that c takes in a text. */
  function WrittenLength(c: char, ascii: bool): nat {
    if Stands(c, ascii) then 1 else if HasShortEscape(c) then 2 else if c as int < 0x10000 then 6 else 12
  }

  /** Hexadecimal digits are written in lower case. */
  predicate LowerHex(e: string) {
    |e| >= 6 ==> forall i | 0 <= i < |e| :: !('A' <= e[i] <= 'F')
  }

  predicate Ascii(s: string) {
    forall i | 0 <= i < |s| :: 32 <= s[i] as int <= 126
  }

  lemma HexDigits(n: nat)
    requires n < 0x10000
    ensures Ascii(UnicodeEscape(n)) && LowerHex(UnicodeEscape(n))
  {
  }

  /** Digits are read one way only. */
  lemma HexUnique(c: char, n: nat)
    requires HexValue(c) == Some(n) && !('A' <= c <= 'F')
    ensures c == HexChar(n)
  {
  }

  lemma Hex4Unique(s: string, n: nat)
    requires |s| == 4 && ReadHex4(s) == Some(n) && forall i | 0 <= i < 4 :: !('A' <= s[i] <= 'F')
    ensures s == Hex4(n)
  {
    var a, b, c, d := HexValue(s[0]).value, HexValue(s[1]).value, HexValue(s[2]).value, HexValue(s[3]).value;
    HexUnique(s[0], a);
    HexUnique(s[1], b);
    HexUnique(s[2], c);
    HexUnique(s[3], d);
    FourDigits(a, b, c, d);
  }

  lemma FourDigits(a: nat, b: nat, c: nat, d: nat)
    requires a < 16 && b < 16 && c < 16 && d < 16
    ensures
      var n := 4096 * a + 256 * b + 16 * c + d;
      n < 0x10000 && n / 4096 == a && n / 256 % 16 == b && n / 16 % 16 == c && n % 16 == d
  {
    var n := 4096 * a + 256 * b + 16 * c + d;
    assert n / 16 == 256 * a + 16 * b + c;
    assert n / 256 == 16 * a + b;
  }

  lemma EscapeShape(c: char, ascii: bool)
    ensures
      var e := Escape(c, ascii);
      |e| == WrittenLength(c, ascii) && LowerHex(e) && (ascii ==> Ascii(e)) && ReadChar(e) == Got(c, "")
  {
    var e := Escape(c, ascii);
    CharReads(c, ascii, "");
    assert e + "" == e;
    if |e| == 6 {
      HexDigits(c as int);
    } else if |e| == 12 {
      HexDigits(HighSurrogate(c as int));
      HexDigits(LowSurrogate(c as int));
    }
  }

  lemma ShortUnique(c: char, ascii: bool, e: string)
    requires |e| <= 2 && |e| == WrittenLength(c, ascii) && ReadChar(e) == Got(c, "")
    ensures e == Escape(c, ascii)
  {
    if |e| == 1 {
      assert e == [e[0]];
    } else {
      assert e == [e[0], e[1]];
    }
  }

  lemma UnitUnique(c: char, e: string)
    requires |e| == 6 && ReadChar(e) == Got(c, "") && LowerHex(e)
    ensures e == UnicodeEscape(c as int)
  {
    var hex := e[2..];
    assert e[1..] != "" && e[2..] != "";
    assert e[0] == '\\' && e[1] == 'u' && ReadUnicode(hex) == Got(c, "");
    assert forall i | 0 <= i < 4 :: hex[i] == e[i + 2];
    Hex4Unique(hex, c as int);
    assert e == ['\\', 'u'] + hex;
  }

  lemma PairUnique(c: char, e: string)
    requires |e| == 12 && ReadChar(e) == Got(c, "") && LowerHex(e) && c as int >= 0x10000
    ensures e == UnicodeEscape(HighSurrogate(c as int)) + UnicodeEscape(LowSurrogate(c as int))
  {
    var units := e[2..];
    assert e[1..] != "" && e[2..] != "";
    assert e[0] == '\\' && e[1] == 'u' && ReadUnicode(units) == Got(c, "");
    assert units[4..] != "";
    assert units[4] == '\\' && units[5] == 'u' && e[6] == '\\' && e[7] == 'u';
    PairHalves(c, units);
    assert forall i | 0 <= i < 4 :: units[i] == e[i + 2] && units[6..][i] == e[i + 8];
    assert ReadHex4(units[..4]) == ReadHex4(units);
    Hex4Unique(units[..4], HighSurrogate(c as int));
    Hex4Unique(units[6..], LowSurrogate(c as int));
    assert e == ['\\', 'u'] + units[..4] + (['\\', 'u'] + units[6..]);
  }

  lemma PairHalves(c: char, units: string)
    requires |units| == 10 && ReadUnicode(units) == Got(c, "") && units[4] == '\\' && units[5] == 'u'
    requires c as int >= 0x10000
    ensures ReadHex4(units) == Some(HighSurrogate(c as int)) && ReadHex4(units[6..]) == Some(LowSurrogate(c as int))
  {
    assert units[4..] != "";
    var high, low := ReadHex4(units).value, ReadHex4(units[6..]).value;
    assert c as int - 0x10000 == (high - 0xD800) * 0x400 + (low - 0xDC00);
  }

  /** A character is written as the one text that reads back to it, is as short as
      JSON allows for it, and has its hexadecimal digits in lower case. */
  lemma EscapeIff(c: char, ascii: bool, e: string)
    ensures e == Escape(c, ascii) <==>
            ReadChar(e) == Got(c, "") && |e| == WrittenLength(c, ascii) && LowerHex(e)
  {
    EscapeShape(c, ascii);
    if ReadChar(e) == Got(c, "") && |e| == WrittenLength(c, ascii) && LowerHex(e) {
      if |e| <= 2 {
        ShortUnique(c, ascii, e);
      } else if |e| == 6 {
        UnitUnique(c, e);
        EscapeShape(c, ascii);
        UnitUnique(c, Escape(c, ascii));
      } else {
        PairUnique(c, e);
        PairUnique(c, Escape(c, ascii));
      }
    }
  }

  // ----- strings -----

  lemma {:induction false} BodyAscii(s: string)
    ensures Ascii(EscapeAll(s, true))
  {
    if s != "" {
      EscapeShape(s[0], true);
      BodyAscii(s[1..]);
    }
  }

  lemma {:induction false} BodyStands(s: string, ascii: bool)
    requires forall i | 0 <= i < |s| :: Stands(s[i], ascii)
    ensures EscapeAll(s, ascii) == s
  {
    if s != "" {
      EscapeShape(s[0], ascii);
      var e := Escape(s[0], ascii);
      assert e == [e[0]];
      assert forall i | 0 <= i < |s| - 1 :: s[1..][i] == s[i + 1];
      BodyStands(s[1..], ascii);
      assert s == [s[0]] + s[1..];
    }
  }

  /** A text whose characters may all stand as themselves is printed between
      quotation marks, unchanged. */
  lemma TextStands(s: string, ascii: bool)
    requires forall i | 0 <= i < |s| :: Stands(s[i], ascii)
    ensures Print(Text(s), ascii) == "\"" + s + "\""
  {
    BodyStands(s, ascii);
  }

  // ----- trees -----

  /** ASCII output consists of printable ASCII characters, whatever the tree holds. */
  lemma {:induction false} PrintAscii(j: Json)
    requires Tokens(j)
    ensures Ascii(Print(j, true))
    decreases j, 1
  {
    match j
    case Number(t) => assert forall i | 0 <= i < |t| :: NumberChar(t[i]);
    case Text(s) => BodyAscii(s);
    case Array(items) => if items != [] { ItemsAscii(items); }
    case Object(ms) => if ms != [] { MembersAscii(ms); }
    case _ =>
  }

  lemma {:induction false} ItemsAscii(items: seq<Json>)
    requires items != [] && forall i | 0 <= i < |items| :: Tokens(items[i])
    ensures Ascii(PrintItems(items, true))
    decreases items, 0
  {
    PrintAscii(items[0]);
    if |items| > 1 {
      ItemsAscii(items[1..]);
    }
  }

  lemma MemberAscii(m: Member)
    requires Tokens(m.value)
    ensures Ascii(PrintMember(m, true))
    decreases m, 2
  {
    BodyAscii(m.name);
    PrintAscii(m.value);
  }

  lemma {:induction false} MembersAscii(ms: seq<Member>)
    requires ms != [] && forall i | 0 <= i < |ms| :: Tokens(ms[i].value)
    ensures Ascii(PrintMembers(ms, true))
    decreases ms, 0
  {
    MemberAscii(ms[0]);
    if |ms| > 1 {
      MembersAscii(ms[1..]);
    }
  }

  // ----- names -----

  /** a and b agree up to k, where a ends before b does or has the smaller character. */
  predicate BeforeAt(a: string, b: string, k: nat) {
    && k <= |a| && k <= |b| && a[..k] == b[..k]
    && (if k < |a| then k < |b| && a[k] < b[k] else k < |b|)
  }

  /** a is a proper prefix of b, or has the smaller character where they first differ. */
  ghost predicate Before(a: string, b: string) {
    exists k: nat :: BeforeAt(a, b, k)
  }

  lemma {:induction false} StringLessIff(a: string, b: string)
    ensures StringLess(a, b) <==> Before(a, b)
  {
    if StringLess(a, b) {
      LessBefore(a, b);
    }
    if k: nat :| BeforeAt(a, b, k) {
      BeforeLess(a, b, k);
    }
  }

  lemma {:induction false} LessBefore(a: string, b: string)
    requires StringLess(a, b)
    ensures Before(a, b)
  {
    if a == "" || a[0] < b[0] {
      assert BeforeAt(a, b, 0);
    } else {
      var x, y := a[1..], b[1..];
      LessBefore(x, y);
      var k: nat :| BeforeAt(x, y, k);
      assert a[..k + 1] == [a[0]] + x[..k] && b[..k + 1] == [b[0]] + y[..k];
      assert BeforeAt(a, b, k + 1);
    }
  }

  lemma {:induction false} BeforeLess(a: string, b: string, k: nat)
    requires BeforeAt(a, b, k)
    ensures StringLess(a, b)
  {
    if k > 0 {
      assert a[..k][0] == a[0] && b[..k][0] == b[0];
      assert a[1..][..k - 1] == a[..k][1..] && b[1..][..k - 1] == b[..k][1..];
      BeforeLess(a[1..], b[1..], k - 1);
    }
  }

  /** Every object lists its members in strictly ascending order of names. */
  ghost predicate Ascending(j: Json) {
    match j
    case Array(items) => forall i | 0 <= i < |items| :: Ascending(items[i])
    case Object(ms) =>
      && (forall i, k | 0 <= i < k < |ms| :: Before(ms[i].name, ms[k].name))
      && (forall i | 0 <= i < |ms| :: Ascending(ms[i].value))
    case _ => true
  }

  lemma SortedAscending(ms: seq<Member>)
    requires Sorted(ms, NameOf, StringLess) && DistinctKeys(ms, NameOf)
    ensures forall i, k | 0 <= i < k < |ms| :: Before(ms[i].name, ms[k].name)
  {
    forall i, k | 0 <= i < k < |ms| ensures Before(ms[i].name, ms[k].name) {
      assert NameOf(ms[i]) != NameOf(ms[k]) && !StringLess(NameOf(ms[k]), NameOf(ms[i]));
      StringLessTotal(ms[i].name, ms[k].name);
      StringLessIff(ms[i].name, ms[k].name);
    }
  }

  lemma {:induction false} SortNamesAscending(j: Json)
    requires WellFormed(j)
    ensures Ascending(SortNames(j, StringLess))
  {
    match j
    case Array(items) =>
      forall i | 0 <= i < |items| ensures Ascending(SortNames(items[i], StringLess)) {
        SortNamesAscending(items[i]);
      }
    case Object(ms) =>
      var mapped := SortValues(ms, StringLess);
      assert forall i | 0 <= i < |ms| :: NameOf(mapped[i]) == NameOf(ms[i]);
      forall i | 0 <= i < |ms| ensures Ascending(mapped[i].value) {
        SortNamesAscending(ms[i].value);
      }
      SortedMembersAscending(mapped);
    case _ =>
  }

  lemma SortedMembersAscending(mapped: seq<Member>)
    requires DistinctKeys(mapped, NameOf) && forall i | 0 <= i < |mapped| :: Ascending(mapped[i].value)
    ensures Ascending(Object(Sort(mapped, NameOf, StringLess)))
  {
    StringLessStrictTotal();
    var sorted := Sort(mapped, NameOf, StringLess);
    SortSorted(mapped, NameOf, StringLess);
    SortDistinct(mapped, NameOf, StringLess);
    SortedAscending(sorted);
    forall i | 0 <= i < |sorted| ensures Ascending(sorted[i].value) {
      assert sorted[i] in mapped;
    }
  }

  lemma {:induction false} SortedFixed(ms: seq<Member>)
    requires forall i, k | 0 <= i < k < |ms| :: Before(ms[i].name, ms[k].name)
    ensures Sort(ms, NameOf, StringLess) == ms
  {
    if ms != [] {
      SortedFixed(ms[1..]);
      if |ms| > 1 {
        BeforeIsNotAfter(ms[0].name, ms[1].name);
      }
    }
  }

  lemma BeforeIsNotAfter(a: string, b: string)
    requires Before(a, b)
    ensures !StringLess(b, a)
  {
    StringLessIff(a, b);
    StringLessTotal(a, a);
    if StringLess(b, a) {
      StringLessTrans(a, b, a);
    }
  }

  lemma {:induction false} AscendingFixed(j: Json)
    requires Ascending(j)
    ensures SortNames(j, StringLess) == j
  {
    match j
    case Array(items) =>
      forall i | 0 <= i < |items| ensures SortNames(items[i], StringLess) == items[i] {
        AscendingFixed(items[i]);
      }
    case Object(ms) =>
      forall i | 0 <= i < |ms| ensures SortNames(ms[i].value, StringLess) == ms[i].value {
        AscendingFixed(ms[i].value);
      }
      assert SortValues(ms, StringLess) == ms;
      SortedFixed(ms);
    case _ =>
  }

  /** The canonical text is the ASCII text of the one tree that denotes the value and
      lists all names in ascending order. */
  lemma DumpsIff(j: Json, t: Json)
    requires WellFormed(j) && WellFormed(t)
    ensures Dumps(j) == Print(t, true) <==> Ascending(t) && Meaning(t) == Meaning(j)
  {
    StringLessStrictTotal();
    SortNamesMeaning(j, StringLess);
    SortNamesAscending(j);
    WellFormedTokens(SortNames(j, StringLess));
    WellFormedTokens(t);
    PrintInjective(SortNames(j, StringLess), t, true);
    if Ascending(t) && Meaning(t) == Meaning(j) {
      AscendingFixed(t);
      SameMeaningSortsAlike(t, j, StringLess);
    }
  }

  /** A canonical text is printable ASCII. */
  lemma DumpsAscii(j: Json)
    requires WellFormed(j)
    ensures Ascii(Dumps(j))
  {
    SortNamesMeaning(j, StringLess);
    WellFormedTokens(SortNames(j, StringLess));
    PrintAscii(SortNames(j, StringLess));
  }
}
