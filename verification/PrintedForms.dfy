/** The forms of canonical JSON (RFC 8785, section 3.2), members by code units. */
module PrintedForms {
  import opened Results
  import opened Numerals
  import opened Canonical
  import opened CanonicalParser
  import opened CanonicalLaws

  /** A text of ASCII characters, as code units. */
  function Units(s: string): (t: Text)
    requires forall i :: 0 <= i < |s| ==> s[i] as int < 128
    ensures |t| == |s| && forall i :: 0 <= i < |t| ==> t[i] == s[i] as int
  {
    seq(|s|, i requires 0 <= i < |s| => s[i] as int)
  }

  // ---- literals and numbers -----------------------------------------------

  lemma LiteralForms()
    ensures CanonicalJson(CNull) == Ok(Units("null"))
    ensures CanonicalJson(CBool(true)) == Ok(Units("true"))
    ensures CanonicalJson(CBool(false)) == Ok(Units("false"))
  {
    assert Units("null") == NULL_TEXT;
    assert Units("true") == TRUE_TEXT;
    assert Units("false") == FALSE_TEXT;
  }

  function Amount(t: Text): int {
    if t == [] then 0 else 10 * Amount(t[..|t| - 1]) + (t[|t| - 1] as int - 48)
  }

  /** Decimal digits without a leading zero, worth `n`. */
  predicate IsNumeral(t: Text, n: int) {
    && t != [] && (forall i :: 0 <= i < |t| ==> '0' as int <= t[i] <= '9' as int)
    && (|t| > 1 ==> t[0] != '0' as int) && Amount(t) == n
  }

  /** One numeral spells a number. */
  lemma {:induction false} NumeralIsDigits(t: Text, n: nat)
    requires IsNumeral(t, n)
    ensures t == DigitText(n)
  {
    var last := t[|t| - 1] as int - 48;
    if |t| > 1 {
      var front := t[..|t| - 1];
      AmountIsPositive(front);
      assert n / 10 == Amount(front) && n % 10 == last;
      assert IsNumeral(front, n / 10);
      NumeralIsDigits(front, n / 10);
      assert DigitText(n) == DigitText(n / 10) + [48 + n % 10];
      assert t == front + [t[|t| - 1]];
    } else {
      assert Amount(t) == 10 * Amount(t[..0]) + last && Amount(t[..0]) == 0;
      assert Digits(n) == [n];
    }
  }

  lemma {:induction false} AmountIsPositive(t: Text)
    requires t != [] && (forall i :: 0 <= i < |t| ==> 48 <= t[i] <= 57) && t[0] != 48
    ensures Amount(t) > 0
  {
    if |t| > 1 { AmountIsPositive(t[..|t| - 1]); } else { assert t[..|t| - 1] == []; }
  }

  lemma {:induction false} DigitsAreNumeral(n: nat)
    ensures IsNumeral(DigitText(n), n)
  {
    if n >= 10 {
      DigitsAreNumeral(n / 10);
      var t := DigitText(n);
      assert t == DigitText(n / 10) + [48 + n % 10];
      assert t[..|t| - 1] == DigitText(n / 10);
    } else {
      assert DigitText(n)[..0] == [];
    }
  }

  /** An integer in the safe range prints as its numeral, after a minus sign where it is negative; any other is refused. */
  lemma IntegerForm(n: int, t: Text)
    ensures CanonicalJson(CInt(n)) == Ok(t) <==>
              && -9007199254740991 <= n <= 9007199254740991
              && if n < 0 then t != [] && t[0] == '-' as int && IsNumeral(t[1..], -n) else IsNumeral(t, n)
  {
    if n < 0 {
      DigitsAreNumeral(-n);
      assert IntText(n)[1..] == DigitText(-n);
      if t != [] && t[0] == 45 && IsNumeral(t[1..], -n) {
        NumeralIsDigits(t[1..], -n);
        assert t == [t[0]] + t[1..];
      }
    } else {
      DigitsAreNumeral(n);
      if IsNumeral(t, n) { NumeralIsDigits(t, n); }
    }
  }

  lemma FractionsAreRefused(literal: Text)
    ensures CanonicalJson(CFloat(literal)) == Err(FloatSpelling)
    ensures forall n :: !(-9007199254740991 <= n <= 9007199254740991) ==> CanonicalJson(CInt(n)) == Err(UnsafeInteger)
  {
  }

  // ---- strings ------------------------------------------------------------

  /** A lower-case hexadecimal digit worth `d`. */
  predicate IsHexDigit(u: Unit, d: int) {
    ('0' as int <= u <= '9' as int && d == u - '0' as int) || ('a' as int <= u <= 'f' as int && d == 10 + u - 'a' as int)
  }

  /** How section 3.2.2.2 spells one unit: the short escapes, "\\u00" and two digits for the other controls, else as it is. */
  predicate Spells(e: Text, u: Unit) {
    if u == 8 then e == Units("\\b")
    else if u == 9 then e == Units("\\t")
    else if u == 10 then e == Units("\\n")
    else if u == 12 then e == Units("\\f")
    else if u == 13 then e == Units("\\r")
    else if u == '"' as int then e == Units("\\\"")
    else if u == '\\' as int then e == Units("\\\\")
    else if u < 32 then |e| == 6 && e[..4] == Units("\\u00") && IsHexDigit(e[4], u / 16) && IsHexDigit(e[5], u % 16)
    else e == [u]
  }

  lemma SpellsIff(e: Text, u: Unit)
    ensures Spells(e, u) <==> e == EscapeUnit(u)
  {
    assert Units("\\b") == [92, 98] && Units("\\t") == [92, 116] && Units("\\n") == [92, 110] && Units("\\f") == [92, 102] && Units("\\r") == [92, 114];
    assert Units("\\\"") == [92, 34] && Units("\\\\") == [92, 92] && Units("\\u00") == [92, 117, 48, 48];
    if |e| == 6 && e[..4] == [92, 117, 48, 48] {
      assert e == e[..4] + [e[4], e[5]];
      assert e == [92, 117, 48, 48, e[4], e[5]];
    }
  }

  function Concat(parts: seq<Text>): Text {
    if parts == [] then [] else parts[0] + Concat(parts[1..])
  }

  /** The unit-by-unit spelling of a text between quotes. */
  ghost predicate IsQuoted(t: Text, s: Text) {
    exists parts: seq<Text> :: SpellsAll(parts, s) && t == ['"' as int] + Concat(parts) + ['"' as int]
  }

  predicate SpellsAll(parts: seq<Text>, s: Text) {
    |parts| == |s| && forall i :: 0 <= i < |s| ==> Spells(parts[i], s[i])
  }

  lemma {:induction false} EscapedIff(parts: seq<Text>, s: Text)
    requires SpellsAll(parts, s)
    ensures Concat(parts) == Escape(s)
  {
    hide EscapeUnit, Spells;
    if s != [] {
      SpellsIff(parts[0], s[0]);
      EscapedIff(parts[1..], s[1..]);
    }
  }

  lemma QuotedIff(t: Text, s: Text)
    ensures t == Quoted(s) <==> IsQuoted(t, s)
  {
    hide EscapeUnit, Spells, Escape, Concat;
    var parts := seq(|s|, i requires 0 <= i < |s| => EscapeUnit(s[i]));
    forall i | 0 <= i < |s| ensures Spells(parts[i], s[i]) { SpellsIff(parts[i], s[i]); }
    EscapedIff(parts, s);
    if other: seq<Text> :| SpellsAll(other, s) && t == [34] + Concat(other) + [34] { EscapedIff(other, s); }
  }

  /** The unit is no surrogate, or the high or the low half of a pair. */
  predicate IsPairedAt(s: Text, i: int)
    requires 0 <= i < |s|
  {
    && (0xD800 <= s[i] <= 0xDBFF ==> i + 1 < |s| && 0xDC00 <= s[i + 1] <= 0xDFFF)
    && (0xDC00 <= s[i] <= 0xDFFF ==> i > 0 && 0xD800 <= s[i - 1] <= 0xDBFF)
  }

  /** Every high surrogate is followed by a low one, and every low one follows a high one. */
  predicate IsWellPaired(s: Text) {
    forall i :: 0 <= i < |s| ==> IsPairedAt(s, i)
  }

  lemma {:induction false} PairedIff(s: Text)
    ensures ValidUnicode(s) <==> IsWellPaired(s)
    decreases |s|
  {
    if s == [] {
    } else if !IsHigh(s[0]) {
      PairedIff(s[1..]);
      PairedRest(s, 1);
    } else if |s| > 1 {
      PairedIff(s[2..]);
      PairedRest(s, 2);
    } else {
      assert !IsPairedAt(s, 0);
    }
  }

  lemma PairedRest(s: Text, n: nat)
    requires s != [] && n == (if IsHigh(s[0]) then 2 else 1) && n <= |s|
    ensures IsWellPaired(s) <==> !IsLow(s[0]) && (IsHigh(s[0]) ==> IsLow(s[1])) && IsWellPaired(s[n..])
  {
    if IsWellPaired(s) {
      assert IsPairedAt(s, 0);
      if n == 2 { assert IsPairedAt(s, 1); }
      if n < |s| { assert IsPairedAt(s, n); }
      forall i | 0 <= i < |s[n..]| ensures IsPairedAt(s[n..], i) { assert IsPairedAt(s, n + i); }
    }
    if !IsLow(s[0]) && (IsHigh(s[0]) ==> IsLow(s[1])) && IsWellPaired(s[n..]) {
      forall i | 0 <= i < |s| ensures IsPairedAt(s, i) {
        if i >= n { assert IsPairedAt(s[n..], i - n); }
      }
    }
  }

  /** A string of paired surrogates prints as its quoted spelling; any other is refused. */
  lemma StringForm(s: Text, t: Text)
    ensures CanonicalJson(CStr(s)) == Ok(t) <==> IsWellPaired(s) && IsQuoted(t, s)
    ensures !IsWellPaired(s) ==> CanonicalJson(CStr(s)) == Err(LoneSurrogate)
  {
    hide IsQuoted, Quoted, IsWellPaired, ValidUnicode;
    PairedIff(s);
    QuotedIff(t, s);
  }

  // ---- lists --------------------------------------------------------------

  /** The parts with a comma between each two. */
  function Listed(parts: seq<Text>): Text {
    if |parts| == 0 then [] else if |parts| == 1 then parts[0] else parts[0] + [',' as int] + Listed(parts[1..])
  }

  lemma ListedNext(parts: seq<Text>)
    requires parts != []
    ensures Listed(parts) == parts[0] + Separated(Listed(parts[1..]), |parts| > 1)
  {
    if |parts| == 1 {
      assert parts[0] + [] == parts[0];
    } else {
      assert parts[0] + ([44] + Listed(parts[1..])) == parts[0] + [44] + Listed(parts[1..]);
    }
  }

  predicate PrintsEach(items: seq<CValue>, parts: seq<Text>) {
    |parts| == |items| && forall i :: 0 <= i < |items| ==> CanonicalJson(items[i]) == Ok(parts[i])
  }

  lemma {:induction false} ItemsIff(items: seq<CValue>, parts: seq<Text>)
    requires PrintsEach(items, parts)
    ensures SerializeItems(items) == Ok(Listed(parts))
  {
    hide Serialize;
    if items != [] {
      ItemsIff(items[1..], parts[1..]);
      assert CanonicalJson(items[0]) == Ok(parts[0]);
      ListedNext(parts);
    }
  }

  lemma {:induction false} ItemsPrint(items: seq<CValue>) returns (parts: seq<Text>)
    requires SerializeItems(items).Ok?
    ensures PrintsEach(items, parts)
  {
    hide Serialize;
    parts := [];
    if items != [] {
      var rest := ItemsPrint(items[1..]);
      parts := [Serialize(items[0]).value] + rest;
    }
  }

  /** A list prints as its printed items, in order, between brackets. */
  lemma ListForm(items: seq<CValue>, t: Text)
    ensures CanonicalJson(CArr(items)) == Ok(t) <==>
              exists parts: seq<Text> :: PrintsEach(items, parts) && t == ['[' as int] + Listed(parts) + [']' as int]
  {
    hide PrintsEach, Listed, SerializeItems;
    if CanonicalJson(CArr(items)) == Ok(t) {
      var parts := ItemsPrint(items);
      ItemsIff(items, parts);
      assert t == [91] + Listed(parts) + [93];
    }
    if parts: seq<Text> :| PrintsEach(items, parts) && t == [91] + Listed(parts) + [93] { ItemsIff(items, parts); }
  }

  // ---- objects ------------------------------------------------------------

  /** The two agree up to `k`, where `a` has ended or has the smaller unit. */
  predicate PartAt(a: Text, b: Text, k: nat) {
    k < |b| && k <= |a| && a[..k] == b[..k] && (k == |a| || a[k] < b[k])
  }

  /** At the first unit where the two part, `a` has ended or has the smaller unit. */
  ghost predicate StandsBefore(a: Text, b: Text) {
    exists k: nat :: PartAt(a, b, k)
  }

  lemma {:induction false} PrecedesIff(a: Text, b: Text)
    ensures Precedes(a, b) <==> StandsBefore(a, b)
  {
    if b == [] {
    } else if a == [] || a[0] != b[0] {
      assert a[..0] == b[..0] && (PartAt(a, b, 0) <==> Precedes(a, b));
      forall k: nat | PartAt(a, b, k) ensures k == 0 { UnlikeParts(a, b, k); }
    } else {
      PrecedesIff(a[1..], b[1..]);
      forall k: nat ensures PartAt(a, b, k + 1) <==> PartAt(a[1..], b[1..], k) { PartsFurther(a, b, k); }
      if k: nat :| PartAt(a[1..], b[1..], k) { assert PartAt(a, b, k + 1); }
      if k: nat :| PartAt(a, b, k) {
        if k > 0 { assert PartAt(a[1..], b[1..], k - 1); }
      }
    }
  }

  lemma UnlikeParts(a: Text, b: Text, k: nat)
    requires b != [] && (a == [] || a[0] != b[0]) && PartAt(a, b, k)
    ensures k == 0
  {
  }

  lemma PartsFurther(a: Text, b: Text, k: nat)
    requires a != [] && b != [] && a[0] == b[0]
    ensures PartAt(a, b, k + 1) <==> PartAt(a[1..], b[1..], k)
  {
    if k < |b[1..]| && k <= |a[1..]| {
      assert a[..k + 1] == [a[0]] + a[1..][..k] && b[..k + 1] == [b[0]] + b[1..][..k];
      assert a[1..][..k] == a[..k + 1][1..] && b[1..][..k] == b[..k + 1][1..];
    }
  }

  ghost predicate StandInOrder(ms: seq<CMember>) {
    forall i, j :: 0 <= i < j < |ms| ==> StandsBefore(ms[i].name, ms[j].name)
  }

  /** The members, each once, in order of their names. */
  ghost predicate Arranges(sorted: seq<CMember>, ms: seq<CMember>) {
    |sorted| == |ms| && (forall m :: m in sorted <==> m in ms) && StandInOrder(sorted)
  }

  lemma OrderIff(ms: seq<CMember>)
    ensures InOrder(ms) <==> StandInOrder(ms)
  {
    hide Precedes, StandsBefore;
    forall i, j | 0 <= i < j < |ms| ensures Precedes(ms[i].name, ms[j].name) <==> StandsBefore(ms[i].name, ms[j].name) {
      PrecedesIff(ms[i].name, ms[j].name);
    }
  }

  /** `keys.sort()` is the one arrangement. */
  lemma ArrangedIff(sorted: seq<CMember>, ms: seq<CMember>)
    requires DistinctNames(ms)
    ensures Arranges(sorted, ms) <==> sorted == Sort(ms)
  {
    hide Precedes, StandsBefore, InOrder, StandInOrder, Size, SizeMembers;
    SortInOrder(ms);
    OrderIff(Sort(ms));
    OrderIff(sorted);
    if Arranges(sorted, ms) {
      assert SameNames(sorted, Sort(ms)) by {
        forall m | m in sorted ensures Names(Sort(ms), m.name) { assert m in Sort(ms); }
        forall m | m in Sort(ms) ensures Names(sorted, m.name) { assert m in sorted; }
      }
      SameOrderedNames(sorted, Sort(ms));
      forall i | 0 <= i < |sorted| ensures sorted[i] == Sort(ms)[i] {
        assert sorted[i] in ms && Sort(ms)[i] in ms;
        OneOfName(ms, sorted[i], Sort(ms)[i]);
      }
    }
  }

  lemma OneOfName(ms: seq<CMember>, m: CMember, n: CMember)
    requires DistinctNames(ms) && m in ms && n in ms && m.name == n.name
    ensures m == n
  {
  }

  /** A member prints as its quoted name, a colon and its printed value. */
  ghost predicate PrintsMember(part: Text, m: CMember) {
    exists name: Text, value: Text :: IsQuoted(name, m.name) && CanonicalJson(m.value) == Ok(value) && part == name + [':' as int] + value
  }

  ghost predicate PrintsMembers(parts: seq<Text>, ms: seq<CMember>) {
    |parts| == |ms| && forall i :: 0 <= i < |ms| ==> PrintsMember(parts[i], ms[i])
  }

  lemma MemberIff(part: Text, m: CMember)
    ensures PrintsMember(part, m) <==> Serialize(m.value).Ok? && part == Quoted(m.name) + [COLON] + Serialize(m.value).value
  {
    hide IsQuoted, Serialize, Quoted;
    QuotedIff(Quoted(m.name), m.name);
    if name: Text, value: Text :| IsQuoted(name, m.name) && CanonicalJson(m.value) == Ok(value) && part == name + [58] + value { QuotedIff(name, m.name); }
    if Serialize(m.value).Ok? { assert CanonicalJson(m.value) == Ok(Serialize(m.value).value); }
  }

  lemma {:induction false} MembersIff(parts: seq<Text>, ms: seq<CMember>)
    requires PrintsMembers(parts, ms)
    ensures SerializeMembers(ms) == Ok(Listed(parts))
  {
    hide Serialize, Quoted, PrintsMember;
    if ms != [] {
      MemberIff(parts[0], ms[0]);
      MembersIff(parts[1..], ms[1..]);
      ListedNext(parts);
    }
  }

  lemma {:induction false} MembersPrint(ms: seq<CMember>) returns (parts: seq<Text>)
    requires SerializeMembers(ms).Ok?
    ensures PrintsMembers(parts, ms)
  {
    hide Serialize, Quoted, PrintsMember;
    parts := [];
    if ms != [] {
      var rest := MembersPrint(ms[1..]);
      var first := Quoted(ms[0].name) + [COLON] + Serialize(ms[0].value).value;
      MemberIff(first, ms[0]);
      parts := [first] + rest;
    }
  }

  /** An object prints as its printed members between braces, in order of the code units of their names. */
  lemma ObjectForm(ms: seq<CMember>, t: Text)
    requires DistinctNames(ms)
    ensures CanonicalJson(CObj(ms)) == Ok(t) <==>
              && (forall m :: m in ms ==> IsWellPaired(m.name))
              && exists sorted, parts :: Arranges(sorted, ms) && PrintsMembers(parts, sorted) && t == ['{' as int] + Listed(parts) + ['}' as int]
  {
    hide PrintsMembers, Listed, SerializeMembers, Arranges, IsWellPaired, ValidUnicode, Sort;
    forall m | m in ms ensures ValidUnicode(m.name) <==> IsWellPaired(m.name) { PairedIff(m.name); }
    ArrangedIff(Sort(ms), ms);
    if CanonicalJson(CObj(ms)) == Ok(t) {
      var parts := MembersPrint(Sort(ms));
      MembersIff(parts, Sort(ms));
      assert t == [123] + Listed(parts) + [125];
    }
    if sorted, parts :| Arranges(sorted, ms) && PrintsMembers(parts, sorted) && t == [123] + Listed(parts) + [125] {
      ArrangedIff(sorted, ms);
      MembersIff(parts, sorted);
    }
  }
}
