/**
 * Printing a JSON value under a way of spelling string units, and the theorem that the parser of
 * src/canonical.ts reads the value back, exactly as it was printed.
 */
module PrintedValues {
  import opened Results
  import opened Numerals
  import opened Canonical
  import opened CanonicalParser

  type Spelling = Unit -> Text

  function SpellAll(spell: Spelling, s: Text): Text {
    if s == [] then [] else spell(s[0]) + SpellAll(spell, s[1..])
  }

  function QuotedBy(spell: Spelling, s: Text): Text {
    [QUOTE] + SpellAll(spell, s) + [QUOTE]
  }

  /** The value's text, members in the order they stand; a float keeps its literal. */
  function Print(spell: Spelling, v: CValue): Text
    decreases Size(v), 0
  {
    match v
    case CNull => NULL_TEXT
    case CBool(b) => if b then TRUE_TEXT else FALSE_TEXT
    case CInt(n) => IntText(n)
    case CFloat(literal) => literal
    case CStr(s) => QuotedBy(spell, s)
    case CArr(items) => [OPEN_LIST] + PrintItems(spell, items) + [CLOSE_LIST]
    case CObj(ms) => [OPEN_OBJECT] + PrintMembers(spell, ms) + [CLOSE_OBJECT]
  }

  function PrintItems(spell: Spelling, items: seq<CValue>): Text
    decreases SizeItems(items), 1
  {
    if items == [] then [] else Print(spell, items[0]) + Separated(PrintItems(spell, items[1..]), |items| > 1)
  }

  function PrintMember(spell: Spelling, m: CMember): Text
    decreases Size(m.value), 1
  {
    QuotedBy(spell, m.name) + [COLON] + Print(spell, m.value)
  }

  function PrintMembers(spell: Spelling, ms: seq<CMember>): Text
    decreases SizeMembers(ms), 1
  {
    if ms == [] then [] else PrintMember(spell, ms[0]) + Separated(PrintMembers(spell, ms[1..]), |ms| > 1)
  }

  /** A value the printed form keeps: distinct names, no lone surrogate, no float. */
  predicate IsReadable(v: CValue) {
    match v
    case CFloat(_) => false
    case CStr(s) => ValidUnicode(s)
    case CArr(items) => forall i :: 0 <= i < |items| ==> IsReadable(items[i])
    case CObj(ms) => DistinctNames(ms) && forall i :: 0 <= i < |ms| ==> ValidUnicode(ms[i].name) && IsReadable(ms[i].value)
    case _ => true
  }

  /** `c` is written in `t` at `i`. */
  predicate Has(t: Text, i: nat, c: Text) {
    StartsWith(t, i, c)
  }

  lemma HasParts(t: Text, i: nat, a: Text, b: Text)
    requires Has(t, i, a + b)
    ensures Has(t, i, a) && Has(t, i + |a|, b)
  {
    assert t[i..i + |a|] == (a + b)[..|a|];
    assert t[i + |a|..i + |a| + |b|] == (a + b)[|a|..];
  }

  lemma HasAt(t: Text, i: nat, c: Text, k: nat)
    requires Has(t, i, c) && k < |c|
    ensures At(t, i + k) == c[k]
  {
    assert t[i..i + |c|][k] == t[i + k];
  }

  // ---- strings ------------------------------------------------------------

  lemma HexDigitRead(d: nat)
    requires d < 16
    ensures HexOf(HexDigit(d)) == Some(d)
  {
  }

  /** The spelling of `u` is not empty, and read back as `u`. */
  ghost predicate ReadBackAt(spell: Spelling, t: Text, i: nat, u: Unit, sofar: Text) {
    Has(t, i, spell(u)) ==> |spell(u)| > 0 && StringRest(t, i, sofar) == StringRest(t, i + |spell(u)|, sofar + [u])
  }

  ghost predicate ReadsBack(spell: Spelling) {
    forall t: Text, i: nat, u: Unit, sofar: Text :: ReadBackAt(spell, t, i, u, sofar)
  }

  lemma {:induction false} SpelledRead(spell: Spelling, t: Text, i: nat, s: Text, sofar: Text)
    requires ReadsBack(spell) && Has(t, i, SpellAll(spell, s) + [QUOTE]) && ValidUnicode(sofar + s)
    ensures StringRest(t, i, sofar) == Ok(Read(sofar + s, i + |SpellAll(spell, s)| + 1))
    decreases |s|
  {
    hide ValidUnicode;
    if s == [] {
      assert sofar + s == sofar;
      HasAt(t, i, [QUOTE], 0);
    } else {
      var e := spell(s[0]);
      assert SpellAll(spell, s) + [QUOTE] == e + (SpellAll(spell, s[1..]) + [QUOTE]);
      HasParts(t, i, e, SpellAll(spell, s[1..]) + [QUOTE]);
      assert ReadBackAt(spell, t, i, s[0], sofar);
      assert sofar + s == sofar + [s[0]] + s[1..];
      SpelledRead(spell, t, i + |e|, s[1..], sofar + [s[0]]);
    }
  }

  /** A quoted string is read back, whatever follows it. */
  lemma QuotedRead(spell: Spelling, t: Text, i: nat, s: Text)
    requires ReadsBack(spell) && Has(t, i, QuotedBy(spell, s)) && ValidUnicode(s)
    ensures At(t, i) == QUOTE && StringRest(t, i + 1, []) == Ok(Read(s, i + |QuotedBy(spell, s)|))
  {
    hide ValidUnicode, SpellAll, StringRest, ReadsBack;
    assert QuotedBy(spell, s) == [QUOTE] + (SpellAll(spell, s) + [QUOTE]);
    HasParts(t, i, [QUOTE], SpellAll(spell, s) + [QUOTE]);
    HasAt(t, i, [QUOTE], 0);
    assert [] + s == s;
    SpelledRead(spell, t, i + 1, s, []);
  }

  // ---- numbers ------------------------------------------------------------

  /** What may follow a number: nothing that would extend it. */
  predicate EndsNumber(u: int) {
    !IsDigit(u) && u != 46 && u != 101 && u != 69
  }

  lemma {:induction false} DigitsRead(t: Text, i: nat, end: nat)
    requires i <= end <= |t| && (forall k :: i <= k < end ==> IsDigit(t[k])) && !IsDigit(At(t, end))
    ensures DigitsEnd(t, i) == end
    decreases end - i
  {
    if i < end { DigitsRead(t, i + 1, end); }
  }

  lemma {:induction false} DigitTextValue(digits: seq<nat>, t: Text)
    requires |t| == |digits| && forall k :: 0 <= k < |t| ==> digits[k] < 10 && t[k] == 48 + digits[k]
    ensures DigitsOf(t) == ValueOf(digits)
  {
    if t != [] { DigitTextValue(digits[..|digits| - 1], t[..|t| - 1]); }
  }

  lemma DigitTextRead(t: Text, i: nat, n: nat)
    requires Has(t, i, DigitText(n)) && EndsNumber(At(t, i + |DigitText(n)|))
    ensures var end := i + |DigitText(n)|; IntegerEnd(t, i) == Some(end) && DigitsOf(t[i..end]) == n
  {
    hide DigitsOf, ValueOf, Digits;
    var c := DigitText(n);
    var end := i + |c|;
    forall k | i <= k < end ensures IsDigit(t[k]) && t[k] == c[k - i] { HasAt(t, i, c, k - i); }
    DigitTextValue(Digits(n), c);
    DigitsValue(n);
    if n == 0 {
      assert Digits(0) == [0] by { ZeroDigits(); }
    } else {
      DigitsRead(t, i + 1, end);
    }
  }

  lemma ZeroDigits()
    ensures Digits(0) == [0]
  {
  }

  lemma IntRead(t: Text, i: nat, n: int)
    requires Has(t, i, IntText(n)) && EndsNumber(At(t, i + |IntText(n)|))
    ensures NumberAt(t, i) == Ok(Read(CInt(n), i + |IntText(n)|))
  {
    hide DigitText, DigitsOf, IntegerEnd;
    if n < 0 {
      HasParts(t, i, [MINUS], DigitText(-n));
      HasAt(t, i, [MINUS], 0);
      DigitTextRead(t, i + 1, -n);
    } else {
      HasAt(t, i, DigitText(n), 0);
      DigitTextFirst(n);
      DigitTextRead(t, i, n);
    }
  }

  lemma DigitTextFirst(n: nat)
    ensures |DigitText(n)| > 0 && IsDigit(DigitText(n)[0])
  {
  }

  // ---- values -------------------------------------------------------------

  /** A printed value never starts with a space or a closing mark. */
  lemma FirstUnit(spell: Spelling, v: CValue)
    requires IsReadable(v)
    ensures var c := Print(spell, v); |c| > 0 && !IsSpace(c[0]) && c[0] != CLOSE_LIST && c[0] != CLOSE_OBJECT
  {
    if v.CInt? { DigitTextFirst(if v.number < 0 then -v.number else v.number); }
  }

  lemma NotSpaceSkips(t: Text, i: nat)
    requires !IsSpace(At(t, i))
    ensures SkipSpace(t, i) == i
  {
  }

  ghost predicate Printed(spell: Spelling, v: CValue, t: Text, i: nat) {
    ReadsBack(spell) && IsReadable(v) && Has(t, i, Print(spell, v)) && EndsNumber(At(t, i + |Print(spell, v)|))
  }

  /** The words the parser looks for, by the units they start with. */
  lemma WordsDiffer(t: Text, i: nat)
    ensures StartsWith(t, i, TRUE_TEXT) ==> At(t, i) == 116
    ensures StartsWith(t, i, FALSE_TEXT) ==> At(t, i) == 102
    ensures StartsWith(t, i, NULL_TEXT) ==> At(t, i) == 110
    ensures StartsWith(t, i, NAN_TEXT) ==> At(t, i) == 78
    ensures StartsWith(t, i, INFINITY_TEXT) ==> At(t, i) == 73
    ensures StartsWith(t, i, [MINUS] + INFINITY_TEXT) ==> At(t, i) == MINUS && At(t, i + 1) == 73
  {
    if StartsWith(t, i, TRUE_TEXT) { HasAt(t, i, TRUE_TEXT, 0); }
    if StartsWith(t, i, FALSE_TEXT) { HasAt(t, i, FALSE_TEXT, 0); }
    if StartsWith(t, i, NULL_TEXT) { HasAt(t, i, NULL_TEXT, 0); }
    if StartsWith(t, i, NAN_TEXT) { HasAt(t, i, NAN_TEXT, 0); }
    if StartsWith(t, i, INFINITY_TEXT) { HasAt(t, i, INFINITY_TEXT, 0); }
    if StartsWith(t, i, [MINUS] + INFINITY_TEXT) {
      HasAt(t, i, [MINUS] + INFINITY_TEXT, 0);
      HasAt(t, i, [MINUS] + INFINITY_TEXT, 1);
    }
  }

  lemma LeafRead(spell: Spelling, v: CValue, t: Text, i: nat)
    requires Printed(spell, v, t, i) && !v.CArr? && !v.CObj?
    ensures ValueAt(t, i) == Ok(Read(v, i + |Print(spell, v)|))
  {
    hide StringRest, MembersAt, ItemsAt, NumberAt, QuotedBy, ValidUnicode, IntText, StartsWith, ReadsBack;
    WordsDiffer(t, i);
    FirstUnit(spell, v);
    HasAt(t, i, Print(spell, v), 0);
    match v
    case CStr(s) => QuotedRead(spell, t, i, s);
    case CInt(n) =>
      IntRead(t, i, n);
      IntIsNoWord(t, i, n);
    case CBool(_) =>
    case CNull =>
  }

  lemma IntIsNoWord(t: Text, i: nat, n: int)
    requires Has(t, i, IntText(n))
    ensures At(t, i) == MINUS || IsDigit(At(t, i))
    ensures At(t, i) == MINUS ==> IsDigit(At(t, i + 1))
  {
    hide DigitText;
    DigitTextFirst(if n < 0 then -n else n);
    HasAt(t, i, IntText(n), 0);
    if n < 0 { HasAt(t, i, IntText(n), 1); }
  }

  // ---- one step of each production ----------------------------------------

  lemma ArrayStep(t: Text, i: nat)
    requires At(t, i) == OPEN_LIST && SkipSpace(t, i + 1) == i + 1
    ensures ValueAt(t, i) == if At(t, i + 1) == CLOSE_LIST then Ok(Read(CArr([]), i + 2)) else ItemsAt(t, i + 1, [])
  {
    hide ItemsAt, MembersAt, StringRest, NumberAt, StartsWith;
  }

  lemma ObjectStep(t: Text, i: nat)
    requires At(t, i) == OPEN_OBJECT && SkipSpace(t, i + 1) == i + 1
    ensures ValueAt(t, i) == if At(t, i + 1) == CLOSE_OBJECT then Ok(Read(CObj([]), i + 2)) else MembersAt(t, i + 1, [])
  {
    hide ItemsAt, MembersAt, StringRest, NumberAt, StartsWith;
  }

  lemma ItemsStep(t: Text, i: nat, sofar: seq<CValue>, v: CValue, next: nat)
    requires SkipSpace(t, i) == i && ValueAt(t, i) == Ok(Read(v, next)) && !IsSpace(At(t, next))
    ensures At(t, next) == COMMA ==> ItemsAt(t, i, sofar) == ItemsAt(t, next + 1, sofar + [v])
    ensures At(t, next) == CLOSE_LIST ==> ItemsAt(t, i, sofar) == Ok(Read(CArr(sofar + [v]), next + 1))
  {
    hide ValueAt;
    NotSpaceSkips(t, next);
  }

  lemma MembersStep(t: Text, i: nat, sofar: seq<CMember>, m: CMember, next: nat)
    requires SkipSpace(t, i) == i && MemberAt(t, i, sofar) == Ok(Read(m, next)) && !IsSpace(At(t, next))
    ensures At(t, next) == COMMA ==> MembersAt(t, i, sofar) == MembersAt(t, next + 1, sofar + [m])
    ensures At(t, next) == CLOSE_OBJECT ==> MembersAt(t, i, sofar) == Ok(Read(CObj(sofar + [m]), next + 1))
  {
    hide MemberAt;
    NotSpaceSkips(t, next);
  }

  /** Where a list of printed parts goes on after its first: a comma and the rest, or the closing mark. */
  function Tail(rest: Text, more: bool, close: Unit): Text {
    if more then [COMMA] + (rest + [close]) else [close]
  }

  lemma BodySplits(first: Text, rest: Text, more: bool, close: Unit)
    requires !more ==> rest == []
    ensures first + Separated(rest, more) + [close] == first + Tail(rest, more, close)
  {
  }

  lemma TailHolds(t: Text, i: nat, rest: Text, more: bool, close: Unit)
    requires Has(t, i, Tail(rest, more, close))
    ensures At(t, i) == (if more then COMMA else close) && (more ==> Has(t, i + 1, rest + [close]))
  {
    HasAt(t, i, Tail(rest, more, close), 0);
    if more { HasParts(t, i, [COMMA], rest + [close]); }
  }

  /** The parser reads back the value that was printed. */
  lemma {:induction false} ValueRead(spell: Spelling, v: CValue, t: Text, i: nat)
    requires Printed(spell, v, t, i)
    ensures ValueAt(t, i) == Ok(Read(v, i + |Print(spell, v)|))
    decreases Size(v), 0
  {
    hide ValueAt, StringRest, NumberAt, StartsWith, QuotedBy, ValidUnicode, IntText, ReadsBack;
    match v
    case CArr(items) => ArrayRead(spell, items, t, i);
    case CObj(ms) => ObjectRead(spell, ms, t, i);
    case _ => LeafRead(spell, v, t, i);
  }

  lemma ArrayRead(spell: Spelling, items: seq<CValue>, t: Text, i: nat)
    requires Printed(spell, CArr(items), t, i)
    ensures ValueAt(t, i) == Ok(Read(CArr(items), i + |Print(spell, CArr(items))|))
    decreases SizeItems(items), 2
  {
    hide ValueAt, StringRest, NumberAt, StartsWith, ValidUnicode, ItemsAt, ReadsBack, QuotedBy;
    var body := PrintItems(spell, items);
    assert Print(spell, CArr(items)) == [OPEN_LIST] + (body + [CLOSE_LIST]);
    HasParts(t, i, [OPEN_LIST], body + [CLOSE_LIST]);
    HasAt(t, i, [OPEN_LIST], 0);
    if items == [] {
      assert body + [CLOSE_LIST] == [CLOSE_LIST];
      HasAt(t, i + 1, [CLOSE_LIST], 0);
      NotSpaceSkips(t, i + 1);
      ArrayStep(t, i);
    } else {
      ItemsStart(spell, items, t, i + 1);
      ArrayStep(t, i);
      assert [] + items == items;
      ItemsRead(spell, items, t, i + 1, []);
    }
  }

  lemma ObjectRead(spell: Spelling, ms: seq<CMember>, t: Text, i: nat)
    requires Printed(spell, CObj(ms), t, i)
    ensures ValueAt(t, i) == Ok(Read(CObj(ms), i + |Print(spell, CObj(ms))|))
    decreases SizeMembers(ms), 2
  {
    hide ValueAt, StringRest, NumberAt, StartsWith, ValidUnicode, MembersAt, ReadsBack, PrintMember;
    var body := PrintMembers(spell, ms);
    assert Print(spell, CObj(ms)) == [OPEN_OBJECT] + (body + [CLOSE_OBJECT]);
    HasParts(t, i, [OPEN_OBJECT], body + [CLOSE_OBJECT]);
    HasAt(t, i, [OPEN_OBJECT], 0);
    if ms == [] {
      assert body + [CLOSE_OBJECT] == [CLOSE_OBJECT];
      HasAt(t, i + 1, [CLOSE_OBJECT], 0);
      NotSpaceSkips(t, i + 1);
      ObjectStep(t, i);
    } else {
      MembersStart(spell, ms, t, i + 1);
      ObjectStep(t, i);
      assert [] + ms == ms;
      MembersRead(spell, ms, t, i + 1, []);
    }
  }

  lemma ItemsStart(spell: Spelling, items: seq<CValue>, t: Text, i: nat)
    requires items != [] && IsReadable(items[0]) && Has(t, i, PrintItems(spell, items) + [CLOSE_LIST])
    ensures SkipSpace(t, i) == i && At(t, i) != CLOSE_LIST
  {
    hide Print;
    FirstUnit(spell, items[0]);
    HasAt(t, i, PrintItems(spell, items) + [CLOSE_LIST], 0);
    NotSpaceSkips(t, i);
  }

  lemma {:induction false} ItemsRead(spell: Spelling, items: seq<CValue>, t: Text, i: nat, sofar: seq<CValue>)
    requires ReadsBack(spell) && items != [] && forall k :: 0 <= k < |items| ==> IsReadable(items[k])
    requires Has(t, i, PrintItems(spell, items) + [CLOSE_LIST])
    ensures ItemsAt(t, i, sofar) == Ok(Read(CArr(sofar + items), i + |PrintItems(spell, items)| + 1))
    decreases SizeItems(items), 1
  {
    hide Print, ValueAt, ItemsAt, StartsWith, IsReadable, Tail, SkipSpace, ReadsBack;
    var first := Print(spell, items[0]);
    var rest := PrintItems(spell, items[1..]);
    var more := |items| > 1;
    ItemsStart(spell, items, t, i);
    assert PrintItems(spell, items) == first + Separated(rest, more) && (!more ==> rest == []);
    hide PrintItems;
    BodySplits(first, rest, more, CLOSE_LIST);
    HasParts(t, i, first, Tail(rest, more, CLOSE_LIST));
    TailHolds(t, i + |first|, rest, more, CLOSE_LIST);
    ValueRead(spell, items[0], t, i);
    ItemsStep(t, i, sofar, items[0], i + |first|);
    assert sofar + items == sofar + [items[0]] + items[1..];
    if more {
      ItemsRead(spell, items[1..], t, i + |first| + 1, sofar + [items[0]]);
    } else {
      assert sofar + items == sofar + [items[0]];
    }
  }

  lemma MembersStart(spell: Spelling, ms: seq<CMember>, t: Text, i: nat)
    requires ms != [] && Has(t, i, PrintMembers(spell, ms) + [CLOSE_OBJECT])
    ensures SkipSpace(t, i) == i && At(t, i) == QUOTE
  {
    hide Print, SpellAll;
    HasAt(t, i, PrintMembers(spell, ms) + [CLOSE_OBJECT], 0);
    NotSpaceSkips(t, i);
  }

  predicate MembersReadable(ms: seq<CMember>) {
    forall k :: 0 <= k < |ms| ==> ValidUnicode(ms[k].name) && IsReadable(ms[k].value)
  }

  lemma MembersPrint(spell: Spelling, ms: seq<CMember>)
    requires ms != []
    ensures PrintMembers(spell, ms) == PrintMember(spell, ms[0]) + Separated(PrintMembers(spell, ms[1..]), |ms| > 1)
    ensures |ms| <= 1 ==> PrintMembers(spell, ms[1..]) == []
    ensures SizeMembers(ms[1..]) < SizeMembers(ms) && Size(ms[0].value) < SizeMembers(ms)
  {
    hide PrintMember;
  }

  lemma {:induction false} MembersRead(spell: Spelling, ms: seq<CMember>, t: Text, i: nat, sofar: seq<CMember>)
    requires ReadsBack(spell) && ms != [] && MembersReadable(ms) && DistinctNames(sofar + ms)
    requires Has(t, i, PrintMembers(spell, ms) + [CLOSE_OBJECT])
    ensures MembersAt(t, i, sofar) == Ok(Read(CObj(sofar + ms), i + |PrintMembers(spell, ms)| + 1))
    decreases SizeMembers(ms), 1
  {
    hide Print, PrintMember, ValueAt, MembersAt, StartsWith, IsReadable, ValidUnicode, StringRest, MemberAt, Tail, SkipSpace, ReadsBack, DistinctNames;
    hide PrintMembers, Has, Size, SizeMembers;
    var first := PrintMember(spell, ms[0]);
    var rest := PrintMembers(spell, ms[1..]);
    var more := |ms| > 1;
    MembersStart(spell, ms, t, i);
    MembersPrint(spell, ms);
    BodySplits(first, rest, more, CLOSE_OBJECT);
    HasParts(t, i, first, Tail(rest, more, CLOSE_OBJECT));
    TailHolds(t, i + |first|, rest, more, CLOSE_OBJECT);
    NameIsNew(sofar, ms);
    MemberRead(spell, ms[0], t, i, sofar);
    MembersStep(t, i, sofar, ms[0], i + |first|);
    assert sofar + ms == sofar + [ms[0]] + ms[1..];
    if more {
      MembersRead(spell, ms[1..], t, i + |first| + 1, sofar + [ms[0]]);
    } else {
      assert sofar + ms == sofar + [ms[0]];
    }
  }

  lemma NameIsNew(sofar: seq<CMember>, ms: seq<CMember>)
    requires ms != [] && DistinctNames(sofar + ms)
    ensures forall x :: x in sofar ==> x.name != ms[0].name
  {
    forall x | x in sofar ensures x.name != ms[0].name {
      var k :| 0 <= k < |sofar| && sofar[k] == x;
      assert (sofar + ms)[k] == x && (sofar + ms)[|sofar|] == ms[0];
    }
  }

  lemma MemberRead(spell: Spelling, m: CMember, t: Text, i: nat, sofar: seq<CMember>)
    requires ReadsBack(spell) && IsReadable(m.value) && ValidUnicode(m.name)
    requires Has(t, i, PrintMember(spell, m)) && EndsNumber(At(t, i + |PrintMember(spell, m)|))
    requires forall x :: x in sofar ==> x.name != m.name
    ensures MemberAt(t, i, sofar) == Ok(Read(m, i + |PrintMember(spell, m)|))
    decreases Size(m.value), 1
  {
    hide Print, ValueAt, StartsWith, IsReadable, QuotedBy, ValidUnicode, StringRest, ReadsBack;
    var name, value := QuotedBy(spell, m.name), Print(spell, m.value);
    assert PrintMember(spell, m) == name + ([COLON] + value);
    HasParts(t, i, name, [COLON] + value);
    HasParts(t, i + |name|, [COLON], value);
    QuotedRead(spell, t, i, m.name);
    HasAt(t, i + |name|, [COLON], 0);
    NotSpaceSkips(t, i + |name|);
    FirstUnit(spell, m.value);
    HasAt(t, i + |name| + 1, value, 0);
    NotSpaceSkips(t, i + |name| + 1);
    ValueRead(spell, m.value, t, i + |name| + 1);
  }

  /** Parsing undoes printing. */
  lemma ParsePrinted(spell: Spelling, v: CValue)
    requires ReadsBack(spell) && IsReadable(v)
    ensures ParseJson(Print(spell, v)) == Ok(v)
  {
    hide Print, ValueAt, IsReadable, ReadsBack;
    var t := Print(spell, v);
    FirstUnit(spell, v);
    assert t[0..|t|] == t;
    NotSpaceSkips(t, 0);
    ValueRead(spell, v, t, 0);
  }
}
