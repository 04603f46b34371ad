/**
 * The printer of RFC 8785 canonical JSON (src/canonical.ts; sections 3.2.2 and 3.2.3) over UTF-16 code units.
 * A number is an integer, or the literal it was written with.
 */
module Canonical {
  import opened Results
  import opened Numerals

  type Unit = n: int | 0 <= n < 0x10000

  type Text = seq<Unit>

  datatype CValue =
    | CNull
    | CBool(flag: bool)
    | CInt(number: int)
    | CFloat(literal: Text)
    | CStr(text: Text)
    | CArr(items: seq<CValue>)
    | CObj(members: seq<CMember>)

  datatype CMember = CMember(name: Text, value: CValue)

  /** `CanonicalizationError`. Printing a fraction or an exponent is not modelled. */
  datatype CanonError = LoneSurrogate | UnsafeInteger | FloatSpelling

  const QUOTE: Unit := 34
  const COMMA: Unit := 44
  const MINUS: Unit := 45
  const ZERO: Unit := 48
  const COLON: Unit := 58
  const OPEN_LIST: Unit := 91
  const BACKSLASH: Unit := 92
  const CLOSE_LIST: Unit := 93
  const LOWER_U: Unit := 117
  const OPEN_OBJECT: Unit := 123
  const CLOSE_OBJECT: Unit := 125

  const NULL_TEXT: Text := [110, 117, 108, 108]
  const TRUE_TEXT: Text := [116, 114, 117, 101]
  const FALSE_TEXT: Text := [102, 97, 108, 115, 101]

  const MAX_SAFE := 9007199254740991

  // ---- strings ------------------------------------------------------------

  predicate IsHigh(u: Unit) { 0xD800 <= u <= 0xDBFF }

  predicate IsLow(u: Unit) { 0xDC00 <= u <= 0xDFFF }

  /** `validateUnicode`: every surrogate is one of a pair. */
  predicate ValidUnicode(s: Text) {
    if s == [] then true
    else if IsHigh(s[0]) then |s| >= 2 && IsLow(s[1]) && ValidUnicode(s[2..])
    else !IsLow(s[0]) && ValidUnicode(s[1..])
  }

  /** The loop of `validateUnicode`. */
  method CheckUnicode(s: Text) returns (ok: bool)
    ensures ok == ValidUnicode(s)
  {
    var i := 0;
    while i < |s|
      invariant 0 <= i <= |s| && ValidUnicode(s) == ValidUnicode(s[i..])
    {
      assert s[i..][1..] == s[i + 1..];
      if IsHigh(s[i]) {
        if i + 1 >= |s| || !IsLow(s[i + 1]) { return false; }
        assert s[i..][2..] == s[i + 2..];
        i := i + 1;
      } else if IsLow(s[i]) {
        return false;
      }
      i := i + 1;
    }
    return true;
  }

  function HexDigit(d: int): Unit
    requires 0 <= d < 16
  {
    if d < 10 then 48 + d else 87 + d
  }

  /** How a string literal spells one unit. */
  function EscapeUnit(u: Unit): (r: Text)
    ensures |r| > 0
  {
    if u == QUOTE then [BACKSLASH, QUOTE]
    else if u == BACKSLASH then [BACKSLASH, BACKSLASH]
    else if u == 8 then [BACKSLASH, 98]
    else if u == 9 then [BACKSLASH, 116]
    else if u == 10 then [BACKSLASH, 110]
    else if u == 12 then [BACKSLASH, 102]
    else if u == 13 then [BACKSLASH, 114]
    else if u < 32 then [BACKSLASH, LOWER_U, ZERO, ZERO, HexDigit(u / 16), HexDigit(u % 16)]
    else [u]
  }

  function Escape(s: Text): Text {
    if s == [] then [] else EscapeUnit(s[0]) + Escape(s[1..])
  }

  function Quoted(s: Text): Text {
    [QUOTE] + Escape(s) + [QUOTE]
  }

  // ---- numbers ------------------------------------------------------------

  function DigitText(n: nat): (r: Text)
    ensures |r| == |Digits(n)| && forall i :: 0 <= i < |r| ==> r[i] == 48 + Digits(n)[i]
  {
    seq(|Digits(n)|, i requires 0 <= i < |Digits(n)| => 48 + Digits(n)[i])
  }

  function IntText(n: int): Text {
    if n < 0 then [MINUS] + DigitText(-n) else DigitText(n)
  }

  // ---- member order -------------------------------------------------------

  /** JavaScript's string order: by code units. */
  predicate Precedes(a: Text, b: Text) {
    b != [] && (a == [] || a[0] < b[0] || (a[0] == b[0] && Precedes(a[1..], b[1..])))
  }

  lemma {:induction false} OneOrder(a: Text, b: Text)
    ensures a == b || Precedes(a, b) || Precedes(b, a)
    ensures !(Precedes(a, b) && Precedes(b, a)) && !Precedes(a, a)
  {
    if a != [] && b != [] && a[0] == b[0] {
      OneOrder(a[1..], b[1..]);
      assert a == [a[0]] + a[1..] && b == [b[0]] + b[1..];
    }
    if a != [] { OneOrder(a[1..], a[1..]); }
  }

  lemma {:induction false} PrecedesTransitive(a: Text, b: Text, c: Text)
    requires Precedes(a, b) && Precedes(b, c)
    ensures Precedes(a, c)
  {
    if a != [] && a[0] == b[0] && b[0] == c[0] { PrecedesTransitive(a[1..], b[1..], c[1..]); }
  }

  function Insert(m: CMember, ms: seq<CMember>): (r: seq<CMember>)
    ensures |r| == |ms| + 1 && forall x :: x in r <==> x == m || x in ms
    ensures SizeMembers(r) == 1 + Size(m.value) + SizeMembers(ms)
  {
    if ms == [] then [m]
    else if Precedes(m.name, ms[0].name) then
      var r := [m] + ms;
      assert r[1..] == ms;
      r
    else
      var r := [ms[0]] + Insert(m, ms[1..]);
      assert r[1..] == Insert(m, ms[1..]);
      r
  }

  /** `keys.sort()`. */
  function Sort(ms: seq<CMember>): (r: seq<CMember>)
    ensures |r| == |ms| && forall x :: x in r <==> x in ms
    ensures SizeMembers(r) == SizeMembers(ms)
  {
    if ms == [] then [] else Insert(ms[0], Sort(ms[1..]))
  }

  /** A measure under which the values an object holds come below it, in any order. */
  function Size(v: CValue): nat {
    match v
    case CArr(items) => 1 + SizeItems(items)
    case CObj(members) => 1 + SizeMembers(members)
    case _ => 0
  }

  function SizeItems(items: seq<CValue>): nat {
    if items == [] then 0 else 1 + Size(items[0]) + SizeItems(items[1..])
  }

  function SizeMembers(ms: seq<CMember>): nat {
    if ms == [] then 0 else 1 + Size(ms[0].value) + SizeMembers(ms[1..])
  }

  // ---- the printer --------------------------------------------------------

  /** `serialize`. */
  function Serialize(v: CValue): Result<Text, CanonError>
    decreases Size(v), 0
  {
    match v
    case CNull => Ok(NULL_TEXT)
    case CBool(b) => Ok(if b then TRUE_TEXT else FALSE_TEXT)
    case CInt(n) => if -MAX_SAFE <= n <= MAX_SAFE then Ok(IntText(n)) else Err(UnsafeInteger)
    case CFloat(_) => Err(FloatSpelling)
    case CStr(s) => if ValidUnicode(s) then Ok(Quoted(s)) else Err(LoneSurrogate)
    case CArr(items) =>
      (match SerializeItems(items)
       case Ok(body) => Ok([OPEN_LIST] + body + [CLOSE_LIST])
       case Err(e) => Err(e))
    case CObj(members) =>
      if exists m :: m in members && !ValidUnicode(m.name) then Err(LoneSurrogate)
      else
        match SerializeMembers(Sort(members))
        case Ok(body) => Ok([OPEN_OBJECT] + body + [CLOSE_OBJECT])
        case Err(e) => Err(e)
  }

  function Separated(rest: Text, more: bool): Text {
    if more then [COMMA] + rest else rest
  }

  function SerializeItems(items: seq<CValue>): Result<Text, CanonError>
    decreases SizeItems(items), 1
  {
    if items == [] then Ok([])
    else
      match (Serialize(items[0]), SerializeItems(items[1..]))
      case (Ok(first), Ok(rest)) => Ok(first + Separated(rest, |items| > 1))
      case (Err(e), _) => Err(e)
      case (_, Err(e)) => Err(e)
  }

  function SerializeMembers(ms: seq<CMember>): Result<Text, CanonError>
    decreases SizeMembers(ms), 1
  {
    if ms == [] then Ok([])
    else
      match (Serialize(ms[0].value), SerializeMembers(ms[1..]))
      case (Ok(first), Ok(rest)) => Ok(Quoted(ms[0].name) + [COLON] + first + Separated(rest, |ms| > 1))
      case (Err(e), _) => Err(e)
      case (_, Err(e)) => Err(e)
  }

  /** `canonicalJson`. */
  function CanonicalJson(v: CValue): Result<Text, CanonError> {
    Serialize(v)
  }

  // ---- values up to member order ------------------------------------------

  predicate DistinctNames(ms: seq<CMember>) {
    forall i, j :: 0 <= i < j < |ms| ==> ms[i].name != ms[j].name
  }

  /** Every object has each name once, as a JavaScript object does. */
  predicate IsValue(v: CValue) {
    match v
    case CArr(items) => forall i :: 0 <= i < |items| ==> IsValue(items[i])
    case CObj(ms) => DistinctNames(ms) && forall i :: 0 <= i < |ms| ==> IsValue(ms[i].value)
    case _ => true
  }

  /** The value with every object's members in order. */
  function Normal(v: CValue): CValue
    decreases Size(v), 0
  {
    match v
    case CArr(items) => CArr(NormalItems(items))
    case CObj(members) => CObj(NormalMembers(Sort(members)))
    case _ => v
  }

  function NormalItems(items: seq<CValue>): (r: seq<CValue>)
    ensures |r| == |items|
    decreases SizeItems(items), 1
  {
    if items == [] then [] else [Normal(items[0])] + NormalItems(items[1..])
  }

  function NormalMembers(ms: seq<CMember>): (r: seq<CMember>)
    ensures |r| == |ms| && forall i :: 0 <= i < |ms| ==> r[i].name == ms[i].name
    decreases SizeMembers(ms), 1
  {
    if ms == [] then [] else [CMember(ms[0].name, Normal(ms[0].value))] + NormalMembers(ms[1..])
  }
}
