/**
 * The cursor-based JSON parser of src/canonical.ts: what each production reads, as functions of the text and a
 * position, and the `Parser` class whose moving cursor reads exactly that.
 */
module CanonicalParser {
  import opened Results
  import opened Numerals
  import opened Canonical

  datatype ParseError = Syntax | DuplicateMember | NonFinite | Unpaired

  /** What was read, and the position after it. */
  datatype Read<T> = Read(value: T, next: nat)

  type Outcome<T> = Result<Read<T>, ParseError>

  function At(t: Text, i: nat): int {
    if i < |t| then t[i] else -1
  }

  predicate StartsWith(t: Text, i: nat, word: Text) {
    i + |word| <= |t| && t[i..i + |word|] == word
  }

  predicate IsSpace(u: int) { u == 9 || u == 10 || u == 13 || u == 32 }

  function SkipSpace(t: Text, i: nat): (r: nat)
    ensures r >= i && (i <= |t| ==> r <= |t|) && !IsSpace(At(t, r))
    decreases |t| - i
  {
    if IsSpace(At(t, i)) then SkipSpace(t, i + 1) else i
  }

  // ---- strings ------------------------------------------------------------

  /** The value of a hexadecimal digit of either case. */
  function HexOf(u: int): Option<nat> {
    if 48 <= u <= 57 then Some(u - 48)
    else if 97 <= u <= 102 then Some(u - 87)
    else if 65 <= u <= 70 then Some(u - 55)
    else None
  }

  /** Four hexadecimal digits. */
  function HexUnit(t: Text, i: nat): Option<Unit> {
    match (HexOf(At(t, i)), HexOf(At(t, i + 1)), HexOf(At(t, i + 2)), HexOf(At(t, i + 3)))
    case (Some(a), Some(b), Some(c), Some(d)) => Some(CombineHex(a, b, c, d))
    case _ => None
  }

  function CombineHex(a: nat, b: nat, c: nat, d: nat): (u: Unit) {
    (a * 4096 + b * 256 + c * 16 + d) % 0x10000
  }

  /** The unit an escape letter stands for. */
  function SimpleEscape(u: int): Option<Unit> {
    if u == QUOTE || u == BACKSLASH || u == 47 then Some(u)
    else if u == 98 then Some(8)
    else if u == 102 then Some(12)
    else if u == 110 then Some(10)
    else if u == 114 then Some(13)
    else if u == 116 then Some(9)
    else None
  }

  /** The rest of a string literal, from inside it. */
  function StringRest(t: Text, i: nat, sofar: Text): (r: Outcome<Text>)
    ensures r.Ok? ==> i < r.value.next <= |t|
    decreases |t| - i
  {
    if i >= |t| then Err(Syntax)
    else if t[i] == QUOTE then (if ValidUnicode(sofar) then Ok(Read(sofar, i + 1)) else Err(Unpaired))
    else if t[i] < 32 then Err(Syntax)
    else if t[i] != BACKSLASH then StringRest(t, i + 1, sofar + [t[i]])
    else if At(t, i + 1) == LOWER_U then
      (match HexUnit(t, i + 2)
       case Some(u) => StringRest(t, i + 6, sofar + [u])
       case None => Err(Syntax))
    else
      match SimpleEscape(At(t, i + 1))
      case Some(u) => StringRest(t, i + 2, sofar + [u])
      case None => Err(Syntax)
  }

  // ---- numbers ------------------------------------------------------------

  predicate IsDigit(u: int) { 48 <= u <= 57 }

  function DigitsEnd(t: Text, i: nat): (r: nat)
    ensures r >= i && (i <= |t| ==> r <= |t|)
    decreases |t| - i
  {
    if IsDigit(At(t, i)) then DigitsEnd(t, i + 1) else i
  }

  /** The integer part: one zero, or digits that do not start with one. */
  function IntegerEnd(t: Text, i: nat): Option<nat> {
    if At(t, i) == ZERO then Some(i + 1)
    else if IsDigit(At(t, i)) then Some(DigitsEnd(t, i + 1))
    else None
  }

  function FractionEnd(t: Text, i: nat): (r: nat)
    ensures r >= i && (i <= |t| ==> r <= |t|)
  {
    if At(t, i) == 46 && IsDigit(At(t, i + 1)) then DigitsEnd(t, i + 1) else i
  }

  function ExponentEnd(t: Text, i: nat): (r: nat)
    ensures r >= i && (i <= |t| ==> r <= |t|)
  {
    if At(t, i) != 101 && At(t, i) != 69 then i
    else
      var j := if At(t, i + 1) == 43 || At(t, i + 1) == MINUS then i + 2 else i + 1;
      if IsDigit(At(t, j)) then DigitsEnd(t, j) else i
  }

  /** The value of a run of decimal digits. */
  function DigitsOf(t: Text): int {
    if t == [] then 0 else 10 * DigitsOf(t[..|t| - 1]) + t[|t| - 1] as int - 48
  }

  function NumberAt(t: Text, i: nat): (r: Outcome<CValue>)
    ensures r.Ok? ==> i < r.value.next <= |t|
  {
    var start := if At(t, i) == MINUS then i + 1 else i;
    match IntegerEnd(t, start)
    case None => Err(Syntax)
    case Some(whole) =>
      var end := ExponentEnd(t, FractionEnd(t, whole));
      if end > whole then Ok(Read(CFloat(t[i..end]), end))
      else Ok(Read(CInt(if start > i then -DigitsOf(t[start..whole]) else DigitsOf(t[start..whole])), whole))
  }

  // ---- values -------------------------------------------------------------

  const NAN_TEXT: Text := [78, 97, 78]
  const INFINITY_TEXT: Text := [73, 110, 102, 105, 110, 105, 116, 121]

  function ValueAt(t: Text, i: nat): (r: Outcome<CValue>)
    ensures r.Ok? ==> i < r.value.next <= |t|
    decreases |t| - i, 1
  {
    if i >= |t| then Err(Syntax)
    else if t[i] == OPEN_OBJECT then
      var j := SkipSpace(t, i + 1);
      if At(t, j) == CLOSE_OBJECT then Ok(Read(CObj([]), j + 1)) else MembersAt(t, j, [])
    else if t[i] == OPEN_LIST then
      var j := SkipSpace(t, i + 1);
      if At(t, j) == CLOSE_LIST then Ok(Read(CArr([]), j + 1)) else ItemsAt(t, j, [])
    else if t[i] == QUOTE then
      (match StringRest(t, i + 1, [])
       case Ok(s) => Ok(Read(CStr(s.value), s.next))
       case Err(e) => Err(e))
    else if StartsWith(t, i, TRUE_TEXT) then Ok(Read(CBool(true), i + 4))
    else if StartsWith(t, i, FALSE_TEXT) then Ok(Read(CBool(false), i + 5))
    else if StartsWith(t, i, NULL_TEXT) then Ok(Read(CNull, i + 4))
    else if StartsWith(t, i, NAN_TEXT) || StartsWith(t, i, INFINITY_TEXT) || StartsWith(t, i, [MINUS] + INFINITY_TEXT) then Err(NonFinite)
    else NumberAt(t, i)
  }

  /** The items from `i` to the closing bracket. */
  function ItemsAt(t: Text, i: nat, sofar: seq<CValue>): (r: Outcome<CValue>)
    ensures r.Ok? ==> i < r.value.next <= |t|
    decreases |t| - i, 2
  {
    var start := SkipSpace(t, i);
    match ValueAt(t, start)
    case Err(e) => Err(e)
    case Ok(v) =>
      var j := SkipSpace(t, v.next);
      var items := sofar + [v.value];
      if At(t, j) == COMMA then ItemsAt(t, j + 1, items)
      else if At(t, j) == CLOSE_LIST then Ok(Read(CArr(items), j + 1))
      else Err(Syntax)
  }

  predicate Names(ms: seq<CMember>, name: Text) {
    exists m :: m in ms && m.name == name
  }

  /** The members from `i` to the closing brace. */
  function MembersAt(t: Text, i: nat, sofar: seq<CMember>): (r: Outcome<CValue>)
    ensures r.Ok? ==> i < r.value.next <= |t|
    decreases |t| - i, 2
  {
    match MemberAt(t, SkipSpace(t, i), sofar)
    case Err(e) => Err(e)
    case Ok(m) =>
      var j := SkipSpace(t, m.next);
      var members := sofar + [m.value];
      if At(t, j) == COMMA then MembersAt(t, j + 1, members)
      else if At(t, j) == CLOSE_OBJECT then Ok(Read(CObj(members), j + 1))
      else Err(Syntax)
  }

  /** One `"name": value`, its name new to the object. */
  function MemberAt(t: Text, i: nat, sofar: seq<CMember>): (r: Outcome<CMember>)
    ensures r.Ok? ==> i < r.value.next <= |t|
    decreases |t| - i, 1
  {
    if At(t, i) != QUOTE then Err(Syntax)
    else
      match StringRest(t, i + 1, [])
      case Err(e) => Err(e)
      case Ok(key) =>
        if Names(sofar, key.value) then Err(DuplicateMember)
        else
          var colon := SkipSpace(t, key.next);
          if At(t, colon) != COLON then Err(Syntax)
          else
            match ValueAt(t, SkipSpace(t, colon + 1))
            case Err(e) => Err(e)
            case Ok(v) => Ok(Read(CMember(key.value, v.value), v.next))
  }

  /** `parseJson`: one value and nothing after it. */
  function ParseJson(t: Text): Result<CValue, ParseError> {
    match ValueAt(t, SkipSpace(t, 0))
    case Err(e) => Err(e)
    case Ok(v) => if SkipSpace(t, v.next) == |t| then Ok(v.value) else Err(Syntax)
  }

  // ---- the class ----------------------------------------------------------

  class Parser {
    const source: Text
    var i: nat

    ghost predicate Valid()
      reads this
    {
      i <= |source|
    }

    constructor (source: Text)
      ensures this.source == source && i == 0
    {
      this.source, i := source, 0;
    }

    method SkipWhitespace()
      requires Valid()
      modifies this
      ensures Valid() && i == SkipSpace(source, old(i))
    {
      while i < |source| && IsSpace(source[i])
        invariant Valid() && SkipSpace(source, i) == SkipSpace(source, old(i))
      {
        i := i + 1;
      }
    }

    /** After a failed production the cursor is where the exception left it. */
    method ParseString() returns (r: Result<Text, ParseError>)
      requires i < |source|
      modifies this
      ensures Valid() && Moved(r, i, StringRest(source, old(i) + 1, []))
    {
      i := i + 1;
      ghost var start := i;
      var text: Text := [];
      while true
        invariant start <= i <= |source| && StringRest(source, i, text) == StringRest(source, start, [])
        decreases |source| - i
      {
        if i >= |source| { return Err(Syntax); }
        var u := source[i];
        if u == QUOTE {
          i := i + 1;
          var valid := CheckUnicode(text);
          return if valid then Ok(text) else Err(Unpaired);
        }
        if u < 32 { return Err(Syntax); }
        if u != BACKSLASH {
          text := text + [u];
          i := i + 1;
        } else if i + 1 < |source| && source[i + 1] == LOWER_U {
          var unit := HexUnit(source, i + 2);
          if unit.None? { return Err(Syntax); }
          text := text + [unit.value];
          i := i + 6;
        } else {
          var unit := SimpleEscape(At(source, i + 1));
          if unit.None? { return Err(Syntax); }
          text := text + [unit.value];
          i := i + 2;
        }
      }
    }

    method SkipDigits()
      requires Valid()
      modifies this
      ensures Valid() && i == DigitsEnd(source, old(i))
    {
      while i < |source| && IsDigit(source[i])
        invariant Valid() && DigitsEnd(source, i) == DigitsEnd(source, old(i))
      {
        i := i + 1;
      }
    }

    method ParseNumber() returns (r: Result<CValue, ParseError>)
      requires Valid()
      modifies this
      ensures Valid() && Moved(r, i, NumberAt(source, old(i)))
    {
      var first := i;
      if At(source, i) == MINUS { i := i + 1; }
      var start := i;
      if At(source, i) == ZERO {
        i := i + 1;
      } else if IsDigit(At(source, i)) {
        i := i + 1;
        SkipDigits();
      } else {
        return Err(Syntax);
      }
      var whole := i;
      var end := ExponentEnd(source, FractionEnd(source, whole));
      if end > whole {
        i := end;
        return Ok(CFloat(source[first..end]));
      }
      var magnitude := ReadDigits(source[start..whole]);
      return Ok(CInt(if start > first then -magnitude else magnitude));
    }

    method ParseValue() returns (r: Result<CValue, ParseError>)
      requires Valid()
      modifies this
      ensures Valid() && Moved(r, i, ValueAt(source, old(i)))
      decreases |source| - i, 1
    {
      if i >= |source| { return Err(Syntax); }
      var u := source[i];
      if u == OPEN_OBJECT {
        r := ParseObject();
      } else if u == OPEN_LIST {
        r := ParseArray();
      } else if u == QUOTE {
        var s := ParseString();
        r := match s case Ok(text) => Ok(CStr(text)) case Err(e) => Err(e);
      } else if StartsWith(source, i, TRUE_TEXT) {
        i := i + 4;
        r := Ok(CBool(true));
      } else if StartsWith(source, i, FALSE_TEXT) {
        i := i + 5;
        r := Ok(CBool(false));
      } else if StartsWith(source, i, NULL_TEXT) {
        i := i + 4;
        r := Ok(CNull);
      } else if StartsWith(source, i, NAN_TEXT) || StartsWith(source, i, INFINITY_TEXT) || StartsWith(source, i, [MINUS] + INFINITY_TEXT) {
        r := Err(NonFinite);
      } else {
        r := ParseNumber();
      }
    }

    method ParseArray() returns (r: Result<CValue, ParseError>)
      requires i < |source| && source[i] == OPEN_LIST
      modifies this
      ensures Valid() && Moved(r, i, ValueAt(source, old(i)))
      decreases |source| - i, 0
    {
      hide StringRest, NumberAt, MembersAt, StartsWith;
      ghost var whole := ValueAt(source, i);
      i := i + 1;
      ghost var first := i;
      SkipWhitespace();
      if At(source, i) == CLOSE_LIST {
        i := i + 1;
        return Ok(CArr([]));
      }
      var items: seq<CValue> := [];
      while true
        invariant first <= i <= |source| && ItemsAt(source, i, items) == whole
        decreases |source| - i
      {
        SkipWhitespace();
        var v := ParseValue();
        if v.Err? { return Err(v.error); }
        items := items + [v.value];
        SkipWhitespace();
        if At(source, i) == COMMA {
          i := i + 1;
        } else if At(source, i) == CLOSE_LIST {
          i := i + 1;
          return Ok(CArr(items));
        } else {
          return Err(Syntax);
        }
      }
    }

    method ParseMember(sofar: seq<CMember>) returns (r: Result<CMember, ParseError>)
      requires Valid()
      modifies this
      ensures Valid() && Moved(r, i, MemberAt(source, old(i), sofar))
      decreases |source| - i, 1
    {
      if At(source, i) != QUOTE { return Err(Syntax); }
      var key := ParseString();
      if key.Err? { return Err(key.error); }
      if Names(sofar, key.value) { return Err(DuplicateMember); }
      SkipWhitespace();
      if At(source, i) != COLON { return Err(Syntax); }
      i := i + 1;
      SkipWhitespace();
      var v := ParseValue();
      if v.Err? { return Err(v.error); }
      return Ok(CMember(key.value, v.value));
    }

    method ParseObject() returns (r: Result<CValue, ParseError>)
      requires i < |source| && source[i] == OPEN_OBJECT
      modifies this
      ensures Valid() && Moved(r, i, ValueAt(source, old(i)))
      decreases |source| - i, 0
    {
      hide StringRest, NumberAt, ItemsAt, MemberAt, StartsWith;
      ghost var whole := ValueAt(source, i);
      i := i + 1;
      ghost var first := i;
      SkipWhitespace();
      if At(source, i) == CLOSE_OBJECT {
        i := i + 1;
        return Ok(CObj([]));
      }
      var members: seq<CMember> := [];
      while true
        invariant first <= i <= |source| && MembersAt(source, i, members) == whole
        decreases |source| - i
      {
        SkipWhitespace();
        var m := ParseMember(members);
        if m.Err? { return Err(m.error); }
        members := members + [m.value];
        SkipWhitespace();
        if At(source, i) == COMMA {
          i := i + 1;
        } else if At(source, i) == CLOSE_OBJECT {
          i := i + 1;
          return Ok(CObj(members));
        } else {
          return Err(Syntax);
        }
      }
    }
  }

  /** The production read what its function says, and the cursor is after it. */
  ghost predicate Moved<T>(r: Result<T, ParseError>, i: nat, spec: Outcome<T>) {
    match spec
    case Ok(x) => r == Ok(x.value) && i == x.next
    case Err(e) => r == Err(e)
  }

  method ReadDigits(t: Text) returns (n: int)
    ensures n == DigitsOf(t)
  {
    n := 0;
    for k := 0 to |t|
      invariant n == DigitsOf(t[..k])
    {
      assert t[..k + 1][..k] == t[..k];
      n := 10 * n + t[k] as int - 48;
    }
    assert t[..|t|] == t;
  }

  method ParseText(t: Text) returns (r: Result<CValue, ParseError>)
    ensures r == ParseJson(t)
  {
    var p := new Parser(t);
    p.SkipWhitespace();
    r := p.ParseValue();
    if r.Err? { return; }
    p.SkipWhitespace();
    if p.i < |t| { r := Err(Syntax); }
  }
}
