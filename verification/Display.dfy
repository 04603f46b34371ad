/**
 * How an untrusted value is printed into a line of text (src/display.ts): bare when it is clean, and otherwise
 * as whitespace-free ASCII JSON that reads back as the value. Values without floats.
 */
module Display {
  import opened Results
  import opened Canonical
  import opened CanonicalParser
  import opened PrintedValues

  const SPACE: Unit := 32

  function HexEscape(u: Unit): Text {
    [BACKSLASH, LOWER_U, HexDigit(u / 4096), HexDigit(u / 256 % 16), HexDigit(u / 16 % 16), HexDigit(u % 16)]
  }

  /** One unit of `pyJsonString`: printable ASCII as it is, five short escapes, `\uXXXX` for the rest. */
  function PyUnit(u: Unit): Text {
    if u == QUOTE then [BACKSLASH, QUOTE]
    else if u == BACKSLASH then [BACKSLASH, BACKSLASH]
    else if u == 10 then [BACKSLASH, 110]
    else if u == 13 then [BACKSLASH, 114]
    else if u == 9 then [BACKSLASH, 116]
    else if u == 8 then [BACKSLASH, 98]
    else if u == 12 then [BACKSLASH, 102]
    else if 32 <= u <= 126 then [u]
    else HexEscape(u)
  }

  method PyJsonString(s: Text) returns (out: Text)
    ensures out == QuotedBy(PyUnit, s)
  {
    out := [QUOTE];
    for i := 0 to |s|
      invariant out + SpellAll(PyUnit, s[i..]) == [QUOTE] + SpellAll(PyUnit, s)
    {
      assert s[i..][0] == s[i] && s[i..][1..] == s[i + 1..];
      assert out + (PyUnit(s[i]) + SpellAll(PyUnit, s[i + 1..])) == out + PyUnit(s[i]) + SpellAll(PyUnit, s[i + 1..]);
      out := out + PyUnit(s[i]);
    }
    assert out + [] == out;
    out := out + [QUOTE];
  }

  /** `json.dumps(value, ensure_ascii=True, separators=(",", ":"))`. */
  function PyJson(v: CValue): Text {
    Print(PyUnit, v)
  }

  function SpaceOut(u: Unit): Text {
    if u == SPACE then [BACKSLASH, LOWER_U, ZERO, ZERO, 50, ZERO] else [u]
  }

  /** `escaped`: every space of the JSON text written as `\u0020`. */
  function Escaped(v: CValue): Text {
    SpellAll(SpaceOut, PyJson(v))
  }

  predicate IsBareUnit(u: Unit) { u == 33 || 35 <= u <= 91 || 93 <= u <= 126 }

  /** `BARE`: printable ASCII without a quote or a backslash. */
  predicate IsBare(t: Text) {
    t != [] && forall i :: 0 <= i < |t| ==> IsBareUnit(t[i])
  }

  /** `shownText`. */
  function ShownText(text: Text, v: CValue): Text {
    if IsBare(text) then text else Escaped(v)
  }

  /** How Python's `json.dumps` spells a unit in ASCII: the short escapes, itself where printable, else four hexadecimal digits. */
  predicate SpellsAscii(e: Text, u: Unit) {
    if u == 8 then e == [92, 'b' as int]
    else if u == 9 then e == [92, 't' as int]
    else if u == 10 then e == [92, 'n' as int]
    else if u == 12 then e == [92, 'f' as int]
    else if u == 13 then e == [92, 'r' as int]
    else if u == '"' as int || u == '\\' as int then e == [92, u]
    else if ' ' as int <= u <= '~' as int then e == [u]
    else
      && |e| == 6 && e[0] == 92 && e[1] == 'u' as int && IsHex(e[2], u / 4096) && IsHex(e[3], u / 256 % 16)
      && IsHex(e[4], u / 16 % 16) && IsHex(e[5], u % 16)
  }

  /** A lower-case hexadecimal digit worth `d`. */
  predicate IsHex(u: Unit, d: int) {
    ('0' as int <= u <= '9' as int && d == u - '0' as int) || ('a' as int <= u <= 'f' as int && d == 10 + u - 'a' as int)
  }

  lemma SpellsAsciiIff(e: Text, u: Unit)
    ensures SpellsAscii(e, u) <==> e == PyUnit(u)
  {
    if |e| == 6 { assert e == [e[0], e[1], e[2], e[3], e[4], e[5]]; }
  }

  /** A text of printable ASCII without spaces, quotes and backslashes is shown as it is, and any other as its JSON. */
  lemma ShownAsItIsIff(text: Text, v: CValue)
    ensures (text != [] && forall i :: 0 <= i < |text| ==> '!' as int <= text[i] <= '~' as int && text[i] != '"' as int && text[i] != '\\' as int) ==>
              ShownText(text, v) == text
    ensures !(text != [] && forall i :: 0 <= i < |text| ==> '!' as int <= text[i] <= '~' as int && text[i] != '"' as int && text[i] != '\\' as int) ==>
              ShownText(text, v) == Escaped(v)
  {
    assert IsBare(text) <==> text != [] && forall i :: 0 <= i < |text| ==> '!' as int <= text[i] <= '~' as int && text[i] != '"' as int && text[i] != '\\' as int;
  }

  // ---- the spaced-out text is a printed value -----------------------------

  /** A unit of the escaped form. */
  function AsciiUnit(u: Unit): Text {
    SpellAll(SpaceOut, PyUnit(u))
  }

  lemma {:induction false} SpellConcat(spell: Spelling, a: Text, b: Text)
    ensures SpellAll(spell, a + b) == SpellAll(spell, a) + SpellAll(spell, b)
  {
    if a == [] {
      assert a + b == b;
    } else {
      SpellConcat(spell, a[1..], b);
      assert (a + b)[1..] == a[1..] + b;
      assert spell(a[0]) + (SpellAll(spell, a[1..]) + SpellAll(spell, b)) == spell(a[0]) + SpellAll(spell, a[1..]) + SpellAll(spell, b);
    }
  }

  lemma {:induction false} NoSpaceStays(t: Text)
    requires forall i :: 0 <= i < |t| ==> t[i] != SPACE
    ensures SpellAll(SpaceOut, t) == t
  {
    if t != [] {
      NoSpaceStays(t[1..]);
      assert t == [t[0]] + t[1..];
    }
  }

  lemma {:induction false} QuotedSpacesOut(s: Text)
    ensures SpellAll(SpaceOut, SpellAll(PyUnit, s)) == SpellAll(AsciiUnit, s)
  {
    hide PyUnit;
    if s != [] {
      SpellConcat(SpaceOut, PyUnit(s[0]), SpellAll(PyUnit, s[1..]));
      QuotedSpacesOut(s[1..]);
    }
  }

  lemma StringSpacesOut(s: Text)
    ensures SpellAll(SpaceOut, QuotedBy(PyUnit, s)) == QuotedBy(AsciiUnit, s)
  {
    hide SpellAll, AsciiUnit;
    SpellConcat(SpaceOut, [QUOTE] + SpellAll(PyUnit, s), [QUOTE]);
    SpellConcat(SpaceOut, [QUOTE], SpellAll(PyUnit, s));
    QuotedSpacesOut(s);
    NoSpaceStays([QUOTE]);
  }

  lemma IntSpacesOut(n: int)
    ensures SpellAll(SpaceOut, IntText(n)) == IntText(n)
  {
    hide SpellAll;
    NoSpaceStays(IntText(n));
  }

  predicate NoFloat(v: CValue) {
    match v
    case CFloat(_) => false
    case CArr(items) => forall i :: 0 <= i < |items| ==> NoFloat(items[i])
    case CObj(ms) => forall i :: 0 <= i < |ms| ==> NoFloat(ms[i].value)
    case _ => true
  }

  /** Spaces stand only inside strings, so replacing them in the text is printing with another spelling. */
  lemma {:induction false} EscapedIsPrinted(v: CValue)
    requires NoFloat(v)
    ensures Escaped(v) == Print(AsciiUnit, v)
    decreases Size(v), 0
  {
    hide PyUnit, AsciiUnit, SpaceOut, QuotedBy, IntText;
    match v
    case CNull => Words();
    case CBool(_) => Words();
    case CInt(n) => IntSpacesOut(n);
    case CStr(s) => StringSpacesOut(s);
    case CArr(items) =>
      ItemsEscaped(items);
      Enclosed(OPEN_LIST, PrintItems(PyUnit, items), CLOSE_LIST);
    case CObj(ms) =>
      MembersEscaped(ms);
      Enclosed(OPEN_OBJECT, PrintMembers(PyUnit, ms), CLOSE_OBJECT);
  }

  lemma Words()
    ensures SpellAll(SpaceOut, NULL_TEXT) == NULL_TEXT && SpellAll(SpaceOut, TRUE_TEXT) == TRUE_TEXT && SpellAll(SpaceOut, FALSE_TEXT) == FALSE_TEXT
  {
    hide SpellAll;
    NoSpaceStays(NULL_TEXT);
    NoSpaceStays(TRUE_TEXT);
    NoSpaceStays(FALSE_TEXT);
  }

  lemma Enclosed(open: Unit, body: Text, close: Unit)
    requires open != SPACE && close != SPACE
    ensures SpellAll(SpaceOut, [open] + body + [close]) == [open] + SpellAll(SpaceOut, body) + [close]
  {
    hide SpellAll;
    SpellConcat(SpaceOut, [open] + body, [close]);
    SpellConcat(SpaceOut, [open], body);
    NoSpaceStays([open]);
    NoSpaceStays([close]);
  }

  lemma SeparatedSpacesOut(rest: Text, more: bool)
    ensures SpellAll(SpaceOut, Separated(rest, more)) == Separated(SpellAll(SpaceOut, rest), more)
  {
    hide SpellAll;
    SpellConcat(SpaceOut, [COMMA], rest);
    NoSpaceStays([COMMA]);
  }

  lemma {:induction false} ItemsEscaped(items: seq<CValue>)
    requires forall i :: 0 <= i < |items| ==> NoFloat(items[i])
    ensures SpellAll(SpaceOut, PrintItems(PyUnit, items)) == PrintItems(AsciiUnit, items)
    decreases SizeItems(items), 1
  {
    hide PyUnit, AsciiUnit, SpaceOut, Print, NoFloat, Separated;
    if items != [] {
      EscapedIsPrinted(items[0]);
      ItemsEscaped(items[1..]);
      SpellConcat(SpaceOut, Print(PyUnit, items[0]), Separated(PrintItems(PyUnit, items[1..]), |items| > 1));
      SeparatedSpacesOut(PrintItems(PyUnit, items[1..]), |items| > 1);
    }
  }

  lemma {:induction false} MembersEscaped(ms: seq<CMember>)
    requires forall i :: 0 <= i < |ms| ==> NoFloat(ms[i].value)
    ensures SpellAll(SpaceOut, PrintMembers(PyUnit, ms)) == PrintMembers(AsciiUnit, ms)
    decreases SizeMembers(ms), 1
  {
    hide PyUnit, AsciiUnit, SpaceOut, Print, NoFloat, Separated, PrintMember;
    if ms != [] {
      MemberEscaped(ms[0]);
      MembersEscaped(ms[1..]);
      SpellConcat(SpaceOut, PrintMember(PyUnit, ms[0]), Separated(PrintMembers(PyUnit, ms[1..]), |ms| > 1));
      SeparatedSpacesOut(PrintMembers(PyUnit, ms[1..]), |ms| > 1);
    }
  }

  lemma MemberEscaped(m: CMember)
    requires NoFloat(m.value)
    ensures SpellAll(SpaceOut, PrintMember(PyUnit, m)) == PrintMember(AsciiUnit, m)
    decreases Size(m.value), 1
  {
    hide PyUnit, AsciiUnit, SpaceOut, Print, NoFloat, QuotedBy, SpellAll;
    SpellConcat(SpaceOut, QuotedBy(PyUnit, m.name) + [COLON], Print(PyUnit, m.value));
    SpellConcat(SpaceOut, QuotedBy(PyUnit, m.name), [COLON]);
    StringSpacesOut(m.name);
    NoSpaceStays([COLON]);
    EscapedIsPrinted(m.value);
  }

  // ---- reading back -------------------------------------------------------

  /** The escaped form of each unit, spelled out. */
  function AsciiForm(u: Unit): Text {
    if u == SPACE then [BACKSLASH, LOWER_U, ZERO, ZERO, 50, ZERO] else PyUnit(u)
  }

  lemma AsciiUnitForm(u: Unit)
    ensures AsciiUnit(u) == AsciiForm(u)
  {
    if u == SPACE {
      assert SpellAll(SpaceOut, [SPACE]) == SpaceOut(SPACE) + SpellAll(SpaceOut, []);
    } else {
      PyUnitHasNoSpace(u);
      NoSpaceStays(PyUnit(u));
    }
  }

  lemma PyUnitHasNoSpace(u: Unit)
    requires u != SPACE
    ensures forall i :: 0 <= i < |PyUnit(u)| ==> PyUnit(u)[i] != SPACE && 33 <= PyUnit(u)[i] <= 126
  {
  }

  lemma HexEscapeRead(t: Text, i: nat, u: Unit)
    requires Has(t, i, HexEscape(u))
    ensures At(t, i) == BACKSLASH && At(t, i + 1) == LOWER_U && HexUnit(t, i + 2) == Some(u)
  {
    var e := HexEscape(u);
    HasAt(t, i, e, 0);
    HasAt(t, i, e, 1);
    HasAt(t, i, e, 2);
    HasAt(t, i, e, 3);
    HasAt(t, i, e, 4);
    HasAt(t, i, e, 5);
    HexDigitRead(u / 4096);
    HexDigitRead(u / 256 % 16);
    HexDigitRead(u / 16 % 16);
    HexDigitRead(u % 16);
    NibblesCombine(u);
    hide HexDigit, HexOf, CombineHex;
  }

  lemma NibblesCombine(u: Unit)
    ensures CombineHex(u / 4096, u / 256 % 16, u / 16 % 16, u % 16) == u
  {
    var a, b, c, d := u / 4096, u / 256 % 16, u / 16 % 16, u % 16;
    assert u / 16 == 16 * (u / 256) + c && u / 256 == 16 * a + b;
    assert u == 16 * (u / 16) + d;
  }

  lemma FormRead(t: Text, i: nat, u: Unit, sofar: Text)
    requires Has(t, i, AsciiForm(u))
    ensures StringRest(t, i, sofar) == StringRest(t, i + |AsciiForm(u)|, sofar + [u])
  {
    hide HexUnit, HexDigit;
    var e := AsciiForm(u);
    assert HexEscape(SPACE) == [BACKSLASH, LOWER_U, ZERO, ZERO, 50, ZERO] by { SpaceHex(); }
    if e == HexEscape(u) {
      HexEscapeRead(t, i, u);
    } else {
      HasAt(t, i, e, 0);
      if |e| > 1 { HasAt(t, i, e, 1); }
    }
  }

  lemma SpaceHex()
    ensures HexEscape(SPACE) == [BACKSLASH, LOWER_U, ZERO, ZERO, 50, ZERO]
  {
  }

  lemma AsciiReadsBack()
    ensures ReadsBack(AsciiUnit)
  {
    hide AsciiUnit, AsciiForm, StringRest;
    forall t: Text, i: nat, u: Unit, sofar: Text ensures ReadBackAt(AsciiUnit, t, i, u, sofar) {
      AsciiUnitForm(u);
      FormIsNotEmpty(u);
      if Has(t, i, AsciiUnit(u)) { FormRead(t, i, u, sofar); }
    }
  }

  lemma FormIsNotEmpty(u: Unit)
    ensures |AsciiForm(u)| > 0
  {
  }

  lemma {:induction false} ReadableHasNoFloat(v: CValue)
    requires IsReadable(v)
    ensures NoFloat(v)
  {
    hide ValidUnicode;
    match v
    case CArr(items) => forall i | 0 <= i < |items| ensures NoFloat(items[i]) { ReadableHasNoFloat(items[i]); }
    case CObj(ms) => forall i | 0 <= i < |ms| ensures NoFloat(ms[i].value) { ReadableHasNoFloat(ms[i].value); }
    case _ =>
  }

  // ---- printable ----------------------------------------------------------

  /** Printable ASCII other than the space. */
  predicate IsPrintable(t: Text) {
    forall i :: 0 <= i < |t| ==> 33 <= t[i] <= 126
  }

  lemma {:induction false} SpelledIsPrintable(s: Text)
    ensures IsPrintable(SpellAll(AsciiUnit, s))
  {
    hide AsciiUnit, PyUnit;
    if s != [] {
      AsciiUnitForm(s[0]);
      if s[0] != SPACE { PyUnitHasNoSpace(s[0]); }
      SpelledIsPrintable(s[1..]);
    }
  }

  lemma QuotedIsPrintable(s: Text)
    ensures IsPrintable(QuotedBy(AsciiUnit, s))
  {
    hide SpellAll, AsciiUnit;
    SpelledIsPrintable(s);
  }

  lemma {:induction false} PrintIsPrintable(v: CValue)
    requires NoFloat(v)
    ensures IsPrintable(Print(AsciiUnit, v))
    decreases Size(v), 0
  {
    hide AsciiUnit, QuotedBy;
    match v
    case CStr(s) => QuotedIsPrintable(s);
    case CArr(items) => ItemsArePrintable(items);
    case CObj(ms) => MembersArePrintable(ms);
    case _ =>
  }

  lemma {:induction false} ItemsArePrintable(items: seq<CValue>)
    requires forall i :: 0 <= i < |items| ==> NoFloat(items[i])
    ensures IsPrintable(PrintItems(AsciiUnit, items))
    decreases SizeItems(items), 1
  {
    hide Print, NoFloat;
    if items != [] {
      PrintIsPrintable(items[0]);
      ItemsArePrintable(items[1..]);
    }
  }

  lemma {:induction false} MembersArePrintable(ms: seq<CMember>)
    requires forall i :: 0 <= i < |ms| ==> NoFloat(ms[i].value)
    ensures IsPrintable(PrintMembers(AsciiUnit, ms))
    decreases SizeMembers(ms), 1
  {
    hide Print, NoFloat, QuotedBy;
    if ms != [] {
      PrintIsPrintable(ms[0].value);
      QuotedIsPrintable(ms[0].name);
      MembersArePrintable(ms[1..]);
    }
  }

  // ---- the main results ---------------------------------------------------

  /** No value adds a token or a line: what is shown is printable ASCII with no space, and not empty. */
  lemma ShownIsOneToken(text: Text, v: CValue)
    requires NoFloat(v)
    ensures IsPrintable(ShownText(text, v)) && ShownText(text, v) != []
  {
    hide Print, AsciiUnit, NoFloat, PyJson;
    EscapedIsPrinted(v);
    PrintIsPrintable(v);
    PrintNotEmpty(AsciiUnit, v);
  }

  lemma PrintNotEmpty(spell: Spelling, v: CValue)
    requires NoFloat(v)
    ensures Print(spell, v) != []
  {
  }

  /** A JSON parser gives the escaped value back. */
  lemma EscapedReadsBack(v: CValue)
    requires IsReadable(v)
    ensures ParseJson(Escaped(v)) == Ok(v)
  {
    hide Print, AsciiUnit, IsReadable, ReadsBack, ParseJson, NoFloat;
    ReadableHasNoFloat(v);
    EscapedIsPrinted(v);
    AsciiReadsBack();
    ParsePrinted(AsciiUnit, v);
  }

  /** How a reader takes a shown string: quoted text through the parser, bare text as it is. */
  function ReadToken(t: Text): Result<Text, ParseError> {
    if At(t, 0) != QUOTE then Ok(t)
    else
      match ParseJson(t)
      case Ok(CStr(s)) => Ok(s)
      case Ok(_) => Err(Syntax)
      case Err(e) => Err(e)
  }

  /** Escaping round trip: any string without a lone surrogate is read back from the token it is shown as. */
  lemma ShownReadsBack(s: Text)
    requires ValidUnicode(s)
    ensures ReadToken(ShownText(s, CStr(s))) == Ok(s)
  {
    hide ValidUnicode, SpellAll, AsciiUnit, ParseJson;
    EscapedReadsBack(CStr(s));
    EscapedIsPrinted(CStr(s));
  }
}
