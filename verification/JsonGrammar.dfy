/**
 * The JSON grammar (RFC 8259) as a relation between texts and values: what a string literal, a number, a list and an
 * object spell, with white space around them. The parser (src/canonical.ts) is proved to decide it: what it reads is
 * what the text spells, and a text that spells a value is read.
 */
module JsonGrammar {
  import opened Results
  import opened Numerals
  import opened Canonical
  import opened CanonicalParser
  import opened PrintedValues
  import opened PrintedForms

  predicate AreSpaces(t: Text) {
    forall i :: 0 <= i < |t| ==> t[i] == ' ' as int || t[i] == '\t' as int || t[i] == '\n' as int || t[i] == '\r' as int
  }

  // ---- strings ------------------------------------------------------------

  /** A hexadecimal digit of either case worth `d`. */
  predicate IsHexit(u: Unit, d: int) {
    || ('0' as int <= u <= '9' as int && d == u - '0' as int)
    || ('a' as int <= u <= 'f' as int && d == 10 + u - 'a' as int)
    || ('A' as int <= u <= 'F' as int && d == 10 + u - 'A' as int)
  }

  /** The letter of a two-unit escape, and the unit it stands for. */
  predicate IsEscape(letter: Unit, u: Unit) {
    || (letter == u && (u == '"' as int || u == '\\' as int || u == '/' as int))
    || (letter == 'b' as int && u == 8) || (letter == 'f' as int && u == 12) || (letter == 'n' as int && u == 10)
    || (letter == 'r' as int && u == 13) || (letter == 't' as int && u == 9)
  }

  ghost predicate IsHexEscape(e: Text, u: Unit) {
    |e| == 6 && e[0] == '\\' as int && e[1] == 'u' as int && IsFourHexits(e[2], e[3], e[4], e[5], u)
  }

  /** One spelling of one unit inside a string. */
  ghost predicate Denotes(e: Text, u: Unit) {
    || (e == [u] && u >= 32 && u != '"' as int && u != '\\' as int)
    || (|e| == 2 && e[0] == '\\' as int && IsEscape(e[1], u))
    || IsHexEscape(e, u)
  }

  ghost predicate DenotesAll(parts: seq<Text>, s: Text) {
    |parts| == |s| && forall k :: 0 <= k < |s| ==> Denotes(parts[k], s[k])
  }

  /** A string literal: spelled units between quotes, its surrogates paired. */
  ghost predicate IsStringLiteral(t: Text, s: Text) {
    IsWellPaired(s) && exists parts: seq<Text> :: DenotesAll(parts, s) && t == ['"' as int] + Concat(parts) + ['"' as int]
  }

  lemma HexitIff(u: Unit, d: nat)
    ensures HexOf(u) == Some(d) <==> IsHexit(u, d)
  {
  }

  lemma HexitIsSmall(u: Unit, d: int)
    requires IsHexit(u, d)
    ensures 0 <= d < 16
  {
  }

  /** Four hexadecimal digits, and the number they make. */
  ghost predicate IsFourHexits(p: Unit, q: Unit, r: Unit, x: Unit, u: Unit) {
    exists a, b, c, d :: IsHexit(p, a) && IsHexit(q, b) && IsHexit(r, c) && IsHexit(x, d) && u == a * 4096 + b * 256 + c * 16 + d
  }

  function FourHex(p: Unit, q: Unit, r: Unit, x: Unit): Option<Unit> {
    match (HexOf(p), HexOf(q), HexOf(r), HexOf(x))
    case (Some(a), Some(b), Some(c), Some(d)) => Some(CombineHex(a, b, c, d))
    case _ => None
  }

  lemma FourIff(p: Unit, q: Unit, r: Unit, x: Unit, u: Unit)
    ensures FourHex(p, q, r, x) == Some(u) <==> IsFourHexits(p, q, r, x, u)
  {
    hide CombineHex, HexOf, IsHexit;
    if FourHex(p, q, r, x) == Some(u) {
      var a, b, c, d := HexOf(p).value, HexOf(q).value, HexOf(r).value, HexOf(x).value;
      HexitIff(p, a);
      HexitIff(q, b);
      HexitIff(r, c);
      HexitIff(x, d);
      FourCombine(p, q, r, x, a, b, c, d);
    }
    if a, b, c, d :| IsHexit(p, a) && IsHexit(q, b) && IsHexit(r, c) && IsHexit(x, d) && u == a * 4096 + b * 256 + c * 16 + d {
      HexitIsSmall(p, a);
      HexitIsSmall(q, b);
      HexitIsSmall(r, c);
      HexitIsSmall(x, d);
      HexitIff(p, a);
      HexitIff(q, b);
      HexitIff(r, c);
      HexitIff(x, d);
      FourCombine(p, q, r, x, a, b, c, d);
    }
  }

  lemma FourCombine(p: Unit, q: Unit, r: Unit, x: Unit, a: nat, b: nat, c: nat, d: nat)
    requires IsHexit(p, a) && IsHexit(q, b) && IsHexit(r, c) && IsHexit(x, d)
    ensures CombineHex(a, b, c, d) == a * 4096 + b * 256 + c * 16 + d
  {
    hide CombineHex, IsHexit;
    HexitIsSmall(p, a);
    HexitIsSmall(q, b);
    HexitIsSmall(r, c);
    HexitIsSmall(x, d);
    CombinesPlainly(a, b, c, d);
  }

  lemma HexUnitIff(t: Text, i: nat, u: Unit)
    requires i + 6 <= |t| && t[i] == 92 && t[i + 1] == 117
    ensures HexUnit(t, i + 2) == Some(u) <==> IsHexEscape(t[i..i + 6], u)
  {
    hide HexOf, IsHexit, CombineHex;
    var e := t[i..i + 6];
    assert e[0] == t[i] && e[1] == t[i + 1] && e[2] == t[i + 2] && e[3] == t[i + 3] && e[4] == t[i + 4] && e[5] == t[i + 5];
    FourIff(e[2], e[3], e[4], e[5], u);
  }

  lemma CombinesPlainly(a: nat, b: nat, c: nat, d: nat)
    requires a < 16 && b < 16 && c < 16 && d < 16
    ensures CombineHex(a, b, c, d) == a * 4096 + b * 256 + c * 16 + d
  {
  }

  lemma EscapeIff(letter: Unit, u: Unit)
    ensures SimpleEscape(letter) == Some(u) <==> IsEscape(letter, u)
  {
  }

  /** A spelled unit is read as that unit. */
  lemma DenotedRead(t: Text, i: nat, e: Text, u: Unit, sofar: Text)
    requires Denotes(e, u) && Has(t, i, e)
    ensures StringRest(t, i, sofar) == StringRest(t, i + |e|, sofar + [u])
  {
    hide Denotes, HexUnit, SimpleEscape, ValidUnicode, IsHexEscape, IsEscape;
    DenotedUnits(e, u);
    HasAt(t, i, e, 0);
    if |e| == 2 {
      HasAt(t, i, e, 1);
      EscapeIff(e[1], u);
    }
    if |e| == 6 {
      HasAt(t, i, e, 1);
      HexUnitIff(t, i, u);
    }
  }

  lemma DenotedUnits(e: Text, u: Unit)
    requires Denotes(e, u)
    ensures |e| == 1 || |e| == 2 || |e| == 6
    ensures |e| == 1 ==> e[0] == u && u >= 32 && u != 34 && u != 92
    ensures |e| == 2 ==> e[0] == 92 && IsEscape(e[1], u) && e[1] != 117
    ensures |e| == 6 ==> e[0] == 92 && e[1] == 117 && IsHexEscape(e, u)
  {
  }

  lemma {:induction false} UnitsRead(t: Text, i: nat, parts: seq<Text>, s: Text, sofar: Text)
    requires DenotesAll(parts, s) && Has(t, i, Concat(parts) + [QUOTE]) && ValidUnicode(sofar + s)
    ensures StringRest(t, i, sofar) == Ok(Read(sofar + s, i + |Concat(parts)| + 1))
    decreases |s|
  {
    hide ValidUnicode, Denotes;
    if s == [] {
      assert sofar + s == sofar && parts == [];
      HasAt(t, i, [QUOTE], 0);
    } else {
      assert Concat(parts) + [QUOTE] == parts[0] + (Concat(parts[1..]) + [QUOTE]);
      HasParts(t, i, parts[0], Concat(parts[1..]) + [QUOTE]);
      DenotedRead(t, i, parts[0], s[0], sofar);
      assert sofar + s == sofar + [s[0]] + s[1..];
      UnitsRead(t, i + |parts[0]|, parts[1..], s[1..], sofar + [s[0]]);
    }
  }

  /** A string literal is read whole. */
  lemma LiteralRead(t: Text, i: nat, c: Text, s: Text)
    requires IsStringLiteral(c, s) && Has(t, i, c)
    ensures |c| > 0 && c[0] == QUOTE && At(t, i) == QUOTE && StringRest(t, i + 1, []) == Ok(Read(s, i + |c|))
  {
    hide ValidUnicode, StringRest, DenotesAll, Concat, IsWellPaired;
    var parts: seq<Text> :| DenotesAll(parts, s) && c == [34] + Concat(parts) + [34];
    PairedIff(s);
    assert c == [QUOTE] + (Concat(parts) + [QUOTE]);
    HasParts(t, i, [QUOTE], Concat(parts) + [QUOTE]);
    HasAt(t, i, [QUOTE], 0);
    assert [] + s == s;
    UnitsRead(t, i + 1, parts, s, []);
  }

  /** The spelled units a string is read from. */
  lemma {:induction false} UnitsFound(t: Text, i: nat, sofar: Text) returns (parts: seq<Text>, s: Text)
    requires StringRest(t, i, sofar).Ok?
    ensures var r := StringRest(t, i, sofar).value;
            DenotesAll(parts, s) && r.value == sofar + s && t[i..r.next] == Concat(parts) + [QUOTE] && ValidUnicode(r.value)
    decreases |t| - i
  {
    hide ValidUnicode, HexUnit, SimpleEscape, IsEscape, IsHexEscape;
    var j := StringRest(t, i, sofar).value.next;
    if t[i] == QUOTE {
      parts, s := [], [];
      assert sofar + [] == sofar && t[i..j] == [QUOTE];
    } else {
      var n, u := UnitFound(t, i, sofar);
      var rest, more := UnitsFound(t, i + n, sofar + [u]);
      parts, s := [t[i..i + n]] + rest, [u] + more;
      assert t[i..j] == t[i..i + n] + t[i + n..j];
      assert parts[1..] == rest && Concat(parts) + [QUOTE] == t[i..i + n] + (Concat(rest) + [QUOTE]);
      assert sofar + s == sofar + [u] + more;
    }
  }

  /** The unit a string goes on with. */
  lemma UnitFound(t: Text, i: nat, sofar: Text) returns (n: nat, u: Unit)
    requires StringRest(t, i, sofar).Ok? && t[i] != QUOTE
    ensures 0 < n && i + n <= |t| && Denotes(t[i..i + n], u) && StringRest(t, i, sofar) == StringRest(t, i + n, sofar + [u])
  {
    hide ValidUnicode, HexUnit, SimpleEscape, IsEscape, IsHexEscape;
    if t[i] != BACKSLASH {
      n, u := 1, t[i];
      assert t[i..i + 1] == [u];
    } else if At(t, i + 1) == LOWER_U {
      n, u := 6, HexUnit(t, i + 2).value;
      HexUnitInside(t, i + 2);
      HexUnitIff(t, i, u);
    } else {
      n, u := 2, SimpleEscape(At(t, i + 1)).value;
      EscapeInside(t, i + 1);
      EscapeIff(t[i + 1], u);
      assert t[i..i + 2][1] == t[i + 1];
    }
  }

  lemma HexUnitInside(t: Text, i: nat)
    requires HexUnit(t, i).Some?
    ensures i + 4 <= |t|
  {
  }

  lemma EscapeInside(t: Text, i: nat)
    requires SimpleEscape(At(t, i)).Some?
    ensures i < |t|
  {
  }

  lemma LiteralFound(t: Text, i: nat)
    requires At(t, i) == QUOTE && StringRest(t, i + 1, []).Ok?
    ensures var r := StringRest(t, i + 1, []).value; IsStringLiteral(t[i..r.next], r.value)
  {
    hide ValidUnicode, StringRest, DenotesAll, Concat, IsWellPaired;
    var r := StringRest(t, i + 1, []).value;
    var parts, s := UnitsFound(t, i + 1, []);
    assert [] + s == s;
    PairedIff(s);
    assert t[i..r.next] == [t[i]] + t[i + 1..r.next];
    assert t[i..r.next] == [34] + Concat(parts) + [34];
  }

  // ---- numbers ------------------------------------------------------------

  predicate AreDigits(t: Text) {
    t != [] && forall i :: 0 <= i < |t| ==> '0' as int <= t[i] <= '9' as int
  }

  /** One zero, or digits that do not start with one. */
  predicate IsWholePart(t: Text) { AreDigits(t) && (t[0] == '0' as int ==> |t| == 1) }

  predicate IsFraction(t: Text) { |t| > 1 && t[0] == '.' as int && AreDigits(t[1..]) }

  predicate IsExponent(t: Text) {
    && |t| > 1 && (t[0] == 'e' as int || t[0] == 'E' as int)
    && (AreDigits(t[1..]) || ((t[1] == '+' as int || t[1] == '-' as int) && AreDigits(t[2..])))
  }

  /** A sign and a whole part. */
  predicate IsSigned(t: Text) { IsWholePart(t) || (t != [] && t[0] == '-' as int && IsWholePart(t[1..])) }

  predicate IsInteger(t: Text, n: int) {
    if t != [] && t[0] == '-' as int then IsWholePart(t[1..]) && n == -Amount(t[1..]) else IsWholePart(t) && n == Amount(t)
  }

  /** A whole part with a fraction, an exponent or both. */
  ghost predicate IsFloat(t: Text) {
    exists w, f, e :: FloatParts(w, f, e) && t == w + f + e
  }

  predicate FloatParts(w: Text, f: Text, e: Text) {
    IsSigned(w) && (f == [] || IsFraction(f)) && (e == [] || IsExponent(e)) && f + e != []
  }

  lemma {:induction false} AmountIsValue(t: Text)
    ensures Amount(t) == DigitsOf(t)
  {
    if t != [] { AmountIsValue(t[..|t| - 1]); }
  }

  lemma DigitsStand(t: Text, i: nat, d: Text)
    requires AreDigits(d) && Has(t, i, d) && !IsDigit(At(t, i + |d|))
    ensures DigitsEnd(t, i) == i + |d| && IsDigit(At(t, i)) && DigitsEnd(t, i + 1) == i + |d| && At(t, i) == d[0]
  {
    forall k | i <= k < i + |d| ensures IsDigit(t[k]) { HasAt(t, i, d, k - i); }
    HasAt(t, i, d, 0);
    DigitsRead(t, i, i + |d|);
    DigitsRead(t, i + 1, i + |d|);
  }

  /** A whole part is read to its end, where no digit follows. */
  lemma WholeRead(t: Text, i: nat, w: Text)
    requires IsWholePart(w) && Has(t, i, w) && !IsDigit(At(t, i + |w|))
    ensures IntegerEnd(t, i) == Some(i + |w|)
  {
    hide DigitsEnd;
    DigitsStand(t, i, w);
  }

  lemma FractionRead(t: Text, i: nat, f: Text)
    requires f == [] || IsFraction(f)
    requires Has(t, i, f) && !IsDigit(At(t, i + |f|)) && (f == [] ==> At(t, i) != '.' as int)
    ensures FractionEnd(t, i) == i + |f|
  {
    hide DigitsEnd;
    if f != [] {
      assert f == [f[0]] + f[1..];
      HasParts(t, i, [f[0]], f[1..]);
      HasAt(t, i, f, 0);
      DigitsStand(t, i + 1, f[1..]);
    }
  }

  lemma ExponentRead(t: Text, i: nat, e: Text)
    requires e == [] || IsExponent(e)
    requires Has(t, i, e) && EndsNumber(At(t, i + |e|))
    ensures ExponentEnd(t, i) == i + |e|
  {
    hide DigitsEnd;
    if e != [] {
      HasAt(t, i, e, 0);
      HasAt(t, i, e, 1);
      if AreDigits(e[1..]) {
        assert e == [e[0]] + e[1..];
        HasParts(t, i, [e[0]], e[1..]);
        DigitsStand(t, i + 1, e[1..]);
        assert IsDigit(e[1]) by { assert e[1..][0] == e[1]; }
      } else {
        assert e == [e[0], e[1]] + e[2..];
        HasParts(t, i, [e[0], e[1]], e[2..]);
        DigitsStand(t, i + 2, e[2..]);
      }
    }
  }

  /** Where the whole part of a number starts. */
  lemma SignRead(t: Text, i: nat, w: Text) returns (body: Text)
    requires IsSigned(w) && Has(t, i, w)
    ensures var start := if At(t, i) == MINUS then i + 1 else i;
            IsWholePart(body) && Has(t, start, body) && start + |body| == i + |w| && body == w[start - i..]
    ensures At(t, i) == MINUS <==> w[0] == '-' as int
  {
    HasAt(t, i, w, 0);
    if IsWholePart(w) {
      body := w;
      assert w[0..] == w;
    } else {
      body := w[1..];
      assert w == [w[0]] + body;
      HasParts(t, i, [w[0]], body);
    }
  }

  /** The parts of a number stand where the grammar divides it. */
  lemma PartsStand(t: Text, i: nat, w: Text, f: Text, e: Text)
    requires Has(t, i, w + f + e) && EndsNumber(At(t, i + |w + f + e|)) && (f == [] || IsFraction(f)) && (e == [] || IsExponent(e))
    ensures Has(t, i, w) && Has(t, i + |w|, f) && Has(t, i + |w| + |f|, e)
    ensures !IsDigit(At(t, i + |w|)) && !IsDigit(At(t, i + |w| + |f|)) && EndsNumber(At(t, i + |w| + |f| + |e|))
    ensures f == [] ==> At(t, i + |w|) != '.' as int
  {
    hide IsFraction, IsExponent;
    assert w + f + e == w + (f + e);
    HasParts(t, i, w, f + e);
    HasParts(t, i + |w|, f, e);
    PartStarts(t, i + |w|, f);
    PartStarts(t, i + |w| + |f|, e);
  }

  lemma SignedEnd(t: Text, i: nat, w: Text, end: nat)
    requires IsSigned(w) && Has(t, i, w) && end == i + |w| && !IsDigit(At(t, end))
    ensures w != [] && IntegerEnd(t, if w[0] == '-' as int then i + 1 else i) == Some(end)
    ensures At(t, i) == MINUS <==> w[0] == '-' as int
  {
    hide IntegerEnd, IsWholePart, StartsWith, At, IsDigit;
    SignedIsNotEmpty(w);
    var body := SignRead(t, i, w);
    var start := if At(t, i) == MINUS then i + 1 else i;
    assert start + |body| == end;
    WholeRead(t, start, body);
  }

  lemma SignedIsNotEmpty(w: Text)
    requires IsSigned(w)
    ensures w != []
  {
  }

  /** So the parser finds their ends there. */
  lemma PartsEnd(t: Text, i: nat, w: Text, f: Text, e: Text)
    requires IsSigned(w) && (f == [] || IsFraction(f)) && (e == [] || IsExponent(e))
    requires Has(t, i, w + f + e) && EndsNumber(At(t, i + |w + f + e|))
    ensures w != [] && IntegerEnd(t, if w[0] == '-' as int then i + 1 else i) == Some(i + |w|)
    ensures FractionEnd(t, i + |w|) == i + |w| + |f| && ExponentEnd(t, i + |w| + |f|) == i + |w| + |f| + |e|
    ensures At(t, i) == MINUS <==> w[0] == '-' as int
  {
    hide IntegerEnd, FractionEnd, ExponentEnd, IsFraction, IsExponent, IsWholePart, StartsWith, At, IsDigit, EndsNumber, IsSigned;
    PartsStand(t, i, w, f, e);
    SignedEnd(t, i, w, i + |w|);
    FractionRead(t, i + |w|, f);
    ExponentRead(t, i + |w| + |f|, e);
  }

  lemma SlicesStand(t: Text, i: nat, w: Text, f: Text, e: Text)
    requires Has(t, i, w + f + e) && w != []
    ensures i + |w| + |f| + |e| <= |t| && t[i..i + |w| + |f| + |e|] == w + f + e && t[i..i + |w|] == w && t[i + 1..i + |w|] == w[1..]
  {
    assert w + f + e == w + (f + e);
    HasParts(t, i, w, f + e);
  }

  /** A number is read as the grammar divides it, where nothing follows that would extend it. */
  lemma NumberRead(t: Text, i: nat, w: Text, f: Text, e: Text)
    requires IsSigned(w) && (f == [] || IsFraction(f)) && (e == [] || IsExponent(e))
    requires Has(t, i, w + f + e) && EndsNumber(At(t, i + |w + f + e|))
    ensures NumberAt(t, i) ==
              Ok(Read(if f + e == [] then CInt(if w[0] == '-' as int then -Amount(w[1..]) else Amount(w)) else CFloat(w + f + e), i + |w + f + e|))
  {
    hide IntegerEnd, FractionEnd, ExponentEnd, DigitsOf, Amount, IsFraction, IsExponent, IsWholePart, EndsNumber, StartsWith;
    PartsEnd(t, i, w, f, e);
    SlicesStand(t, i, w, f, e);
    AmountIsValue(w);
    AmountIsValue(w[1..]);
    assert |f + e| == |f| + |e| && |w + f + e| == |w| + |f| + |e|;
  }

  /** A fraction or an exponent starts with no digit, and an exponent with no point. */
  lemma PartStarts(t: Text, i: nat, p: Text)
    requires Has(t, i, p)
    ensures IsFraction(p) ==> At(t, i) == '.' as int
    ensures IsExponent(p) ==> At(t, i) == 'e' as int || At(t, i) == 'E' as int
  {
    if p != [] { HasAt(t, i, p, 0); }
  }

  // ---- what a number is read from -----------------------------------------

  lemma {:induction false} DigitsFound(t: Text, i: nat)
    requires IsDigit(At(t, i))
    ensures DigitsEnd(t, i) > i && DigitsEnd(t, i) <= |t| && AreDigits(t[i..DigitsEnd(t, i)])
    decreases |t| - i
  {
    var end := DigitsEnd(t, i);
    if IsDigit(At(t, i + 1)) {
      DigitsFound(t, i + 1);
      assert t[i..end] == [t[i]] + t[i + 1..end];
    } else {
      assert t[i..i + 1] == [t[i]];
    }
  }

  lemma WholeFound(t: Text, i: nat)
    requires IntegerEnd(t, i).Some?
    ensures i < IntegerEnd(t, i).value <= |t| && IsWholePart(t[i..IntegerEnd(t, i).value])
  {
    if At(t, i) == ZERO {
      assert t[i..i + 1] == [t[i]];
    } else {
      DigitsFound(t, i);
    }
  }

  lemma FractionFound(t: Text, i: nat)
    requires i <= |t|
    ensures var j := FractionEnd(t, i); i <= j <= |t| && (t[i..j] == [] || IsFraction(t[i..j]))
  {
    var j := FractionEnd(t, i);
    if j > i {
      DigitsFound(t, i + 1);
      assert t[i..j][1..] == t[i + 1..j];
    }
  }

  lemma ExponentFound(t: Text, i: nat)
    requires i <= |t|
    ensures var j := ExponentEnd(t, i); i <= j <= |t| && (t[i..j] == [] || IsExponent(t[i..j]))
  {
    var j := ExponentEnd(t, i);
    if j > i {
      if At(t, i + 1) == 43 || At(t, i + 1) == MINUS {
        DigitsFound(t, i + 2);
        assert t[i..j][2..] == t[i + 2..j];
      } else {
        DigitsFound(t, i + 1);
        assert t[i..j][1..] == t[i + 1..j];
      }
    }
  }

  /** What is read as a number is one by the grammar. */
  lemma NumberFound(t: Text, i: nat)
    requires NumberAt(t, i).Ok?
    ensures var r := NumberAt(t, i).value;
            match r.value
            case CInt(n) => IsInteger(t[i..r.next], n)
            case CFloat(literal) => literal == t[i..r.next] && IsFloat(literal)
            case _ => false
  {
    hide IntegerEnd, FractionEnd, ExponentEnd, DigitsOf, Amount, IsFraction, IsExponent, IsWholePart;
    var start := if At(t, i) == MINUS then i + 1 else i;
    WholeFound(t, start);
    var whole := IntegerEnd(t, start).value;
    FractionFound(t, whole);
    var mid := FractionEnd(t, whole);
    ExponentFound(t, mid);
    var end := ExponentEnd(t, mid);
    AmountIsValue(t[start..whole]);
    SignFound(t, i, whole);
    if end > whole {
      assert t[i..end] == t[i..whole] + t[whole..mid] + t[mid..end];
      assert FloatParts(t[i..whole], t[whole..mid], t[mid..end]) by { assert |t[whole..mid] + t[mid..end]| == end - whole; }
    } else {
      IntegerFound(t, i, whole);
    }
  }

  lemma IntegerFound(t: Text, i: nat, whole: nat)
    requires i < whole <= |t| && (var start := if At(t, i) == MINUS then i + 1 else i; start < whole && IsWholePart(t[start..whole]))
    ensures IsInteger(t[i..whole], if At(t, i) == MINUS then -Amount(t[i + 1..whole]) else Amount(t[i..whole]))
  {
    hide IsWholePart, Amount;
    SignFound(t, i, whole);
  }

  lemma SignFound(t: Text, i: nat, whole: nat)
    requires i < whole <= |t| && (var start := if At(t, i) == MINUS then i + 1 else i; start < whole && IsWholePart(t[start..whole]))
    ensures IsSigned(t[i..whole])
    ensures At(t, i) == MINUS ==> t[i..whole][0] == '-' as int && t[i..whole][1..] == t[i + 1..whole]
    ensures At(t, i) != MINUS ==> t[i..whole][0] != '-' as int
  {
    hide IsWholePart;
    if At(t, i) == MINUS { assert t[i..whole][1..] == t[i + 1..whole]; }
  }

  // ---- values -------------------------------------------------------------

  /** The text spells the value: words, numbers, strings, and lists and objects of padded parts, no name twice. */
  ghost predicate IsText(t: Text, v: CValue)
    decreases v, 0
  {
    match v
    case CNull => t == Units("null")
    case CBool(b) => t == if b then Units("true") else Units("false")
    case CInt(n) => IsInteger(t, n)
    case CFloat(literal) => t == literal && IsFloat(t)
    case CStr(s) => IsStringLiteral(t, s)
    case CArr(items) =>
      if items == [] then exists pad :: AreSpaces(pad) && t == ['[' as int] + pad + [']' as int]
      else
        exists parts: seq<Text> ::
          |parts| == |items| && (forall k :: 0 <= k < |items| ==> IsPadded(parts[k], items[k])) && t == ['[' as int] + Listed(parts) + [']' as int]
    case CObj(ms) =>
      DistinctNames(ms) &&
      if ms == [] then exists pad :: AreSpaces(pad) && t == ['{' as int] + pad + ['}' as int]
      else
        exists parts: seq<Text> ::
          |parts| == |ms| && (forall k :: 0 <= k < |ms| ==> IsMemberText(parts[k], ms[k])) && t == ['{' as int] + Listed(parts) + ['}' as int]
  }

  /** The value's text with spaces around it. */
  ghost predicate IsPadded(t: Text, v: CValue)
    decreases v, 1
  {
    exists a, core, b :: AreSpaces(a) && IsText(core, v) && AreSpaces(b) && t == a + core + b
  }

  /** A name, a colon and a value, with spaces around each. */
  ghost predicate IsMemberText(t: Text, m: CMember)
    decreases m, 0
  {
    exists a: Text, name: Text, b: Text, value: Text :: AreSpaces(a) && IsStringLiteral(name, m.name) && AreSpaces(b) && IsPadded(value, m.value) && t == a + name + b + [':' as int] + value
  }

  lemma {:induction false} SpacesSkipped(t: Text, i: nat, pad: Text)
    requires AreSpaces(pad) && Has(t, i, pad) && !IsSpace(At(t, i + |pad|))
    ensures SkipSpace(t, i) == i + |pad|
    decreases |pad|
  {
    if pad != [] {
      HasAt(t, i, pad, 0);
      assert pad == [pad[0]] + pad[1..];
      HasParts(t, i, [pad[0]], pad[1..]);
      SpacesSkipped(t, i + 1, pad[1..]);
    }
  }

  lemma {:induction false} SpacesFound(t: Text, i: nat)
    requires i <= |t|
    ensures var j := SkipSpace(t, i); i <= j <= |t| && AreSpaces(t[i..j]) && !IsSpace(At(t, j))
    decreases |t| - i
  {
    var j := SkipSpace(t, i);
    if j > i {
      SpacesFound(t, i + 1);
      assert t[i..j] == [t[i]] + t[i + 1..j];
    }
  }

  /** What may stand after a value: the end, a space, a comma or a closing mark. */
  predicate Ends(u: int) { u == -1 || IsSpace(u) || u == COMMA || u == CLOSE_LIST || u == CLOSE_OBJECT }

  lemma EndsAnyNumber(u: int)
    requires Ends(u)
    ensures EndsNumber(u)
  {
  }

  /** The first unit of a value's text tells what it is. */
  lemma FirstOfText(t: Text, v: CValue)
    requires IsText(t, v)
    ensures t != [] && !IsSpace(t[0]) && t[0] != CLOSE_LIST && t[0] != CLOSE_OBJECT && t[0] != COMMA
    ensures v.CInt? || v.CFloat? ==> t[0] == MINUS || IsDigit(t[0])
  {
    hide IsPadded, IsMemberText, Amount, IsFraction, IsExponent, Listed, DenotesAll, Concat, IsWellPaired;
    match v
    case CFloat(_) =>
      var w, f, e :| FloatParts(w, f, e) && t == w + f + e;
      assert t[0] == w[0];
    case _ =>
  }

  // ---- the parser finds what the grammar spells ---------------------------

  lemma WordText(c: Text, v: CValue)
    requires IsText(c, v) && (v.CNull? || v.CBool?)
    ensures c == if v.CNull? then NULL_TEXT else if v.flag then TRUE_TEXT else FALSE_TEXT
  {
    assert Units("null") == NULL_TEXT && Units("true") == TRUE_TEXT && Units("false") == FALSE_TEXT;
  }

  lemma WordRead(t: Text, i: nat, c: Text, v: CValue)
    requires (v.CNull? || v.CBool?) && c == (if v.CNull? then NULL_TEXT else if v.flag then TRUE_TEXT else FALSE_TEXT) && Has(t, i, c)
    ensures ValueAt(t, i) == Ok(Read(v, i + |c|))
  {
    hide StringRest, MembersAt, ItemsAt, NumberAt, StartsWith;
    WordsDiffer(t, i);
    HasAt(t, i, c, 0);
  }

  lemma NumberIsNoWord(t: Text, i: nat, c: Text)
    requires Has(t, i, c) && c != [] && (c[0] == MINUS || IsDigit(c[0])) && (c[0] == MINUS ==> |c| > 1 && IsDigit(c[1]))
    ensures i < |t| && t[i] == c[0] && ValueAt(t, i) == NumberAt(t, i)
  {
    hide StringRest, MembersAt, ItemsAt, NumberAt, StartsWith;
    WordsDiffer(t, i);
    HasAt(t, i, c, 0);
    if c[0] == MINUS { HasAt(t, i, c, 1); }
  }

  lemma SignedStarts(w: Text, rest: Text)
    requires IsSigned(w)
    ensures var c := w + rest; c != [] && (c[0] == MINUS || IsDigit(c[0])) && (c[0] == MINUS ==> |c| > 1 && IsDigit(c[1]))
  {
    if w[0] == '-' as int { assert w[1..][0] == w[1]; }
  }

  lemma IntegerRead(t: Text, i: nat, c: Text, n: int)
    requires IsText(c, CInt(n)) && Has(t, i, c) && Ends(At(t, i + |c|))
    ensures ValueAt(t, i) == Ok(Read(CInt(n), i + |c|))
  {
    assert IsInteger(c, n);
    hide IsText, ValueAt, NumberAt, Amount, StartsWith, IsSigned, IsFraction, IsExponent, EndsNumber, Ends;
    EndsAnyNumber(At(t, i + |c|));
    assert c + [] + [] == c && c + [] == c;
    SignedInteger(c, n);
    NumberRead(t, i, c, [], []);
    SignedStarts(c, []);
    NumberIsNoWord(t, i, c);
  }

  lemma FloatText(c: Text, literal: Text) returns (w: Text, f: Text, e: Text)
    requires IsText(c, CFloat(literal))
    ensures c == literal && FloatParts(w, f, e) && c == w + f + e
  {
    hide FloatParts;
    assert IsFloat(c);
    w, f, e :| FloatParts(w, f, e) && c == w + f + e;
  }

  lemma FloatRead(t: Text, i: nat, c: Text, literal: Text)
    requires IsText(c, CFloat(literal)) && Has(t, i, c) && Ends(At(t, i + |c|))
    ensures ValueAt(t, i) == Ok(Read(CFloat(literal), i + |c|))
  {
    hide IsText, ValueAt, NumberAt, Amount, StartsWith, IsSigned, IsFraction, IsExponent, EndsNumber, Ends, IsFloat, At, IsDigit;
    var w, f, e := FloatText(c, literal);
    EndsAnyNumber(At(t, i + |c|));
    NumberRead(t, i, w, f, e);
    assert c == w + (f + e);
    SignedStarts(w, f + e);
    NumberIsNoWord(t, i, c);
  }

  lemma SignedInteger(c: Text, n: int)
    requires IsInteger(c, n)
    ensures IsSigned(c) && c != [] && n == if c[0] == '-' as int then -Amount(c[1..]) else Amount(c)
  {
    hide Amount;
  }

  lemma StringRead(t: Text, i: nat, c: Text, s: Text)
    requires IsStringLiteral(c, s) && Has(t, i, c)
    ensures ValueAt(t, i) == Ok(Read(CStr(s), i + |c|))
  {
    hide StringRest, MembersAt, ItemsAt, NumberAt, StartsWith, IsStringLiteral;
    LiteralRead(t, i, c, s);
  }

  /** A value's text is read as the value, where nothing follows that would extend a number. */
  lemma {:induction false} TextRead(t: Text, i: nat, c: Text, v: CValue)
    requires IsText(c, v) && Has(t, i, c) && Ends(At(t, i + |c|))
    ensures ValueAt(t, i) == Ok(Read(v, i + |c|))
    decreases Size(v), 0
  {
    hide ValueAt, IsStringLiteral, StartsWith, IsPadded, IsMemberText, Listed, IsText;
    match v
    case CNull =>
      WordText(c, v);
      WordRead(t, i, c, v);
    case CBool(_) =>
      WordText(c, v);
      WordRead(t, i, c, v);
    case CInt(n) => IntegerRead(t, i, c, n);
    case CFloat(literal) => FloatRead(t, i, c, literal);
    case CStr(s) =>
      StringText(c, s);
      StringRead(t, i, c, s);
    case CArr(items) => ListRead(t, i, c, items);
    case CObj(ms) => ObjectRead(t, i, c, ms);
  }

  lemma ListRead(t: Text, i: nat, c: Text, items: seq<CValue>)
    requires IsText(c, CArr(items)) && Has(t, i, c)
    ensures ValueAt(t, i) == Ok(Read(CArr(items), i + |c|))
    decreases SizeItems(items), 3
  {
    hide ValueAt, StartsWith, IsPadded, Listed, IsText;
    if items == [] {
      var pad := EmptyText(c, CArr(items), OPEN_LIST, CLOSE_LIST);
      EmptyRead(t, i, pad, OPEN_LIST, CLOSE_LIST);
    } else {
      var parts := ListText(c, items);
      assert c == [OPEN_LIST] + (Listed(parts) + [CLOSE_LIST]);
      HasParts(t, i, [OPEN_LIST], Listed(parts) + [CLOSE_LIST]);
      ItemsStand(t, i + 1, parts, items, []);
      assert [] + items == items;
      ListOpens(t, i, parts, items);
    }
  }

  lemma ObjectRead(t: Text, i: nat, c: Text, ms: seq<CMember>)
    requires IsText(c, CObj(ms)) && Has(t, i, c)
    ensures ValueAt(t, i) == Ok(Read(CObj(ms), i + |c|))
    decreases SizeMembers(ms), 4
  {
    hide ValueAt, StartsWith, IsMemberText, Listed, IsText;
    if ms == [] {
      var pad := EmptyText(c, CObj(ms), OPEN_OBJECT, CLOSE_OBJECT);
      EmptyRead(t, i, pad, OPEN_OBJECT, CLOSE_OBJECT);
    } else {
      var parts := ObjectText(c, ms);
      assert c == [OPEN_OBJECT] + (Listed(parts) + [CLOSE_OBJECT]);
      HasParts(t, i, [OPEN_OBJECT], Listed(parts) + [CLOSE_OBJECT]);
      MembersStand(t, i + 1, parts, ms, []);
      assert [] + ms == ms;
      ObjectOpens(t, i, parts, ms);
    }
  }

  lemma StringText(c: Text, s: Text)
    requires IsText(c, CStr(s))
    ensures IsStringLiteral(c, s)
  {
  }

  lemma EmptyText(c: Text, v: CValue, open: Unit, close: Unit) returns (pad: Text)
    requires IsText(c, v)
    requires (v == CArr([]) && open == OPEN_LIST && close == CLOSE_LIST) || (v == CObj([]) && open == OPEN_OBJECT && close == CLOSE_OBJECT)
    ensures AreSpaces(pad) && c == [open] + pad + [close]
  {
    hide AreSpaces;
    if v == CArr([]) {
      pad :| AreSpaces(pad) && c == [91] + pad + [93];
    } else {
      pad :| AreSpaces(pad) && c == [123] + pad + [125];
    }
  }

  lemma ListText(c: Text, items: seq<CValue>) returns (parts: seq<Text>)
    requires IsText(c, CArr(items)) && items != []
    ensures |parts| == |items| && (forall k :: 0 <= k < |items| ==> IsPadded(parts[k], items[k])) && c == [OPEN_LIST] + Listed(parts) + [CLOSE_LIST]
  {
    hide IsPadded, Listed;
    parts :| |parts| == |items| && (forall k :: 0 <= k < |items| ==> IsPadded(parts[k], items[k])) && c == [91] + Listed(parts) + [93];
  }

  lemma ObjectText(c: Text, ms: seq<CMember>) returns (parts: seq<Text>)
    requires IsText(c, CObj(ms)) && ms != []
    ensures DistinctNames(ms) && |parts| == |ms| && (forall k :: 0 <= k < |ms| ==> IsMemberText(parts[k], ms[k]))
    ensures c == [OPEN_OBJECT] + Listed(parts) + [CLOSE_OBJECT]
  {
    hide IsMemberText, Listed;
    parts :| |parts| == |ms| && (forall k :: 0 <= k < |ms| ==> IsMemberText(parts[k], ms[k])) && c == [123] + Listed(parts) + [125];
  }

  lemma EmptyRead(t: Text, i: nat, pad: Text, open: Unit, close: Unit)
    requires AreSpaces(pad) && Has(t, i, [open] + pad + [close])
    requires (open == OPEN_LIST && close == CLOSE_LIST) || (open == OPEN_OBJECT && close == CLOSE_OBJECT)
    ensures ValueAt(t, i) == Ok(Read(if open == OPEN_LIST then CArr([]) else CObj([]), i + |pad| + 2))
  {
    hide StringRest, MembersAt, ItemsAt, NumberAt, SkipSpace;
    assert [open] + pad + [close] == [open] + (pad + [close]);
    HasParts(t, i, [open], pad + [close]);
    HasParts(t, i + 1, pad, [close]);
    HasAt(t, i, [open], 0);
    HasAt(t, i + 1 + |pad|, [close], 0);
    SpacesSkipped(t, i + 1, pad);
  }

  /** A padded value is read between its spaces, up to what ends it. */
  lemma PaddedRead(t: Text, i: nat, part: Text, v: CValue)
    requires IsPadded(part, v) && Has(t, i, part) && Ends(At(t, i + |part|)) && !IsSpace(At(t, i + |part|))
    ensures ValueAt(t, SkipSpace(t, i)).Ok?
    ensures var r := ValueAt(t, SkipSpace(t, i)).value; r.value == v && SkipSpace(t, r.next) == i + |part|
    ensures var u := At(t, SkipSpace(t, i)); !IsSpace(u) && u != CLOSE_LIST && u != CLOSE_OBJECT
    decreases Size(v), 1
  {
    hide IsText, ValueAt, SkipSpace, StartsWith, AreSpaces;
    var a, core, b :| AreSpaces(a) && IsText(core, v) && AreSpaces(b) && part == a + core + b;
    assert part == a + (core + b);
    HasParts(t, i, a, core + b);
    HasParts(t, i + |a|, core, b);
    FirstOfText(core, v);
    HasAt(t, i + |a|, core, 0);
    SpacesSkipped(t, i, a);
    SpacesEnd(t, i + |a| + |core|, b);
    TextRead(t, i + |a|, core, v);
    SpacesSkipped(t, i + |a| + |core|, b);
  }

  lemma SpacesEnd(t: Text, i: nat, pad: Text)
    requires AreSpaces(pad) && Has(t, i, pad) && Ends(At(t, i + |pad|))
    ensures Ends(At(t, i))
  {
    if pad != [] { HasAt(t, i, pad, 0); }
  }

  /** The parts of a list or an object, and what follows each. */
  lemma PartStands(t: Text, i: nat, parts: seq<Text>, close: Unit)
    requires parts != [] && Has(t, i, Listed(parts) + [close])
    ensures Has(t, i, parts[0]) && At(t, i + |parts[0]|) == (if |parts| == 1 then close else COMMA)
    ensures |parts| == 1 ==> Listed(parts) == parts[0]
    ensures |parts| > 1 ==> Has(t, i + |parts[0]| + 1, Listed(parts[1..]) + [close]) && |Listed(parts)| == |parts[0]| + 1 + |Listed(parts[1..])|
  {
    if |parts| == 1 {
      HasParts(t, i, parts[0], [close]);
      HasAt(t, i + |parts[0]|, [close], 0);
    } else {
      var rest := Listed(parts[1..]) + [close];
      assert Listed(parts) + [close] == parts[0] + ([COMMA] + rest);
      HasParts(t, i, parts[0], [COMMA] + rest);
      HasParts(t, i + |parts[0]|, [COMMA], rest);
      HasAt(t, i + |parts[0]|, [COMMA], 0);
    }
  }

  lemma {:induction false} ItemsStand(t: Text, i: nat, parts: seq<Text>, items: seq<CValue>, sofar: seq<CValue>)
    requires |parts| == |items| > 0 && (forall k :: 0 <= k < |items| ==> IsPadded(parts[k], items[k]))
    requires Has(t, i, Listed(parts) + [CLOSE_LIST])
    ensures ItemsAt(t, i, sofar) == Ok(Read(CArr(sofar + items), i + |Listed(parts)| + 1))
    ensures At(t, SkipSpace(t, i)) != CLOSE_LIST
    decreases SizeItems(items), 2
  {
    hide IsPadded, ValueAt, SkipSpace, Listed, StartsWith;
    PartStands(t, i, parts, CLOSE_LIST);
    PaddedRead(t, i, parts[0], items[0]);
    if |items| == 1 {
      assert items == [items[0]];
    } else {
      ItemsStand(t, i + |parts[0]| + 1, parts[1..], items[1..], sofar + [items[0]]);
      assert sofar + [items[0]] + items[1..] == sofar + items;
    }
  }

  lemma ListOpens(t: Text, i: nat, parts: seq<Text>, items: seq<CValue>)
    requires Has(t, i, [OPEN_LIST]) && ItemsAt(t, i + 1, []) == Ok(Read(CArr(items), i + |Listed(parts)| + 2)) && At(t, SkipSpace(t, i + 1)) != CLOSE_LIST
    ensures ValueAt(t, i) == Ok(Read(CArr(items), i + |Listed(parts)| + 2))
  {
    HasAt(t, i, [OPEN_LIST], 0);
    ItemsSkip(t, i + 1);
    hide ItemsAt, MembersAt, StringRest, NumberAt, SkipSpace, Listed;
  }

  lemma {:induction false} SkipTwice(t: Text, i: nat)
    ensures SkipSpace(t, SkipSpace(t, i)) == SkipSpace(t, i)
    decreases |t| - i
  {
    if IsSpace(At(t, i)) { SkipTwice(t, i + 1); }
  }

  lemma ItemsSkip(t: Text, i: nat)
    ensures ItemsAt(t, SkipSpace(t, i), []) == ItemsAt(t, i, [])
  {
    SkipTwice(t, i);
    hide ValueAt, SkipSpace;
  }

  /** Where the name, the colon and the value of a member stand. */
  lemma MemberPieces(t: Text, i: nat, a: Text, name: Text, b: Text, value: Text, m: CMember)
    requires AreSpaces(a) && IsStringLiteral(name, m.name) && AreSpaces(b) && Has(t, i, a + name + b + [COLON] + value)
    ensures var start := SkipSpace(t, i);
            && start == i + |a| && At(t, start) == QUOTE && StringRest(t, start + 1, []) == Ok(Read(m.name, start + |name|))
            && SkipSpace(t, start + |name|) == start + |name| + |b| && At(t, start + |name| + |b|) == COLON
            && Has(t, start + |name| + |b| + 1, value)
  {
    hide SkipSpace, StartsWith, AreSpaces, IsStringLiteral, StringRest;
    MemberParts(t, i, a, name, b, value);
    LiteralRead(t, i + |a|, name, m.name);
    HasAt(t, i + |a|, name, 0);
    SpacesSkipped(t, i, a);
    SpacesSkipped(t, i + |a| + |name|, b);
  }

  /** One member is read between its spaces, where its name is new. */
  lemma MemberStands(t: Text, i: nat, part: Text, m: CMember, sofar: seq<CMember>)
    requires IsMemberText(part, m) && Has(t, i, part) && Ends(At(t, i + |part|)) && !IsSpace(At(t, i + |part|)) && !Names(sofar, m.name)
    ensures MemberAt(t, SkipSpace(t, i), sofar).Ok?
    ensures var r := MemberAt(t, SkipSpace(t, i), sofar).value; r.value == m && SkipSpace(t, r.next) == i + |part|
    ensures At(t, SkipSpace(t, i)) == QUOTE
    decreases Size(m.value), 2
  {
    hide IsPadded, ValueAt, SkipSpace, StartsWith, AreSpaces, IsStringLiteral, StringRest, Names, At, IsSpace, Ends, IsMemberText;
    var a, name, b, value := MemberText(part, m);
    MemberPieces(t, i, a, name, b, value, m);
    var k := i + |a| + |name| + |b| + 1;
    assert i + |part| == k + |value|;
    PaddedRead(t, k, value, m.value);
  }

  lemma MemberText(part: Text, m: CMember) returns (a: Text, name: Text, b: Text, value: Text)
    requires IsMemberText(part, m)
    ensures AreSpaces(a) && IsStringLiteral(name, m.name) && AreSpaces(b) && IsPadded(value, m.value) && part == a + name + b + [COLON] + value
  {
    hide IsPadded, AreSpaces, IsStringLiteral;
    a, name, b, value :| AreSpaces(a) && IsStringLiteral(name, m.name) && AreSpaces(b) && IsPadded(value, m.value) && part == a + name + b + [58] + value;
  }

  lemma MemberParts(t: Text, i: nat, a: Text, name: Text, b: Text, value: Text)
    requires Has(t, i, a + name + b + [COLON] + value)
    ensures Has(t, i, a) && Has(t, i + |a|, name) && Has(t, i + |a| + |name|, b) && Has(t, i + |a| + |name| + |b| + 1, value)
    ensures At(t, i + |a| + |name| + |b|) == COLON
  {
    assert a + name + b + [COLON] + value == a + (name + (b + ([COLON] + value)));
    HasParts(t, i, a, name + (b + ([COLON] + value)));
    HasParts(t, i + |a|, name, b + ([COLON] + value));
    HasParts(t, i + |a| + |name|, b, [COLON] + value);
    HasParts(t, i + |a| + |name| + |b|, [COLON], value);
    HasAt(t, i + |a| + |name| + |b|, [COLON], 0);
  }

  lemma {:induction false} MembersStand(t: Text, i: nat, parts: seq<Text>, ms: seq<CMember>, sofar: seq<CMember>)
    requires |parts| == |ms| > 0 && (forall k :: 0 <= k < |ms| ==> IsMemberText(parts[k], ms[k]))
    requires Has(t, i, Listed(parts) + [CLOSE_OBJECT]) && DistinctNames(sofar + ms)
    ensures MembersAt(t, i, sofar) == Ok(Read(CObj(sofar + ms), i + |Listed(parts)| + 1))
    ensures At(t, SkipSpace(t, i)) != CLOSE_OBJECT
    decreases SizeMembers(ms), 3
  {
    hide IsMemberText, MemberAt, SkipSpace, Listed, StartsWith, Names;
    PartStands(t, i, parts, CLOSE_OBJECT);
    NewName(sofar, ms);
    MemberStands(t, i, parts[0], ms[0], sofar);
    if |ms| == 1 {
      assert ms == [ms[0]];
    } else {
      assert sofar + [ms[0]] + ms[1..] == sofar + ms;
      MembersStand(t, i + |parts[0]| + 1, parts[1..], ms[1..], sofar + [ms[0]]);
    }
  }

  lemma NewName(sofar: seq<CMember>, ms: seq<CMember>)
    requires ms != [] && DistinctNames(sofar + ms)
    ensures !Names(sofar, ms[0].name)
  {
    forall m | m in sofar ensures m.name != ms[0].name {
      var k :| 0 <= k < |sofar| && sofar[k] == m;
      assert (sofar + ms)[k] == m && (sofar + ms)[|sofar|] == ms[0];
    }
  }

  lemma ObjectOpens(t: Text, i: nat, parts: seq<Text>, ms: seq<CMember>)
    requires Has(t, i, [OPEN_OBJECT]) && MembersAt(t, i + 1, []) == Ok(Read(CObj(ms), i + |Listed(parts)| + 2)) && At(t, SkipSpace(t, i + 1)) != CLOSE_OBJECT
    ensures ValueAt(t, i) == Ok(Read(CObj(ms), i + |Listed(parts)| + 2))
  {
    HasAt(t, i, [OPEN_OBJECT], 0);
    MembersSkip(t, i + 1);
    hide ItemsAt, MembersAt, StringRest, NumberAt, SkipSpace, Listed;
  }

  lemma MembersSkip(t: Text, i: nat)
    ensures MembersAt(t, SkipSpace(t, i), []) == MembersAt(t, i, [])
  {
    SkipTwice(t, i);
    hide MemberAt, SkipSpace;
  }

  // ---- the grammar spells what the parser finds ---------------------------

  lemma WordFound(t: Text, i: nat)
    requires i < |t| && ValueAt(t, i).Ok? && t[i] != OPEN_OBJECT && t[i] != OPEN_LIST && t[i] != QUOTE
    ensures var r := ValueAt(t, i).value; (r.value.CNull? || r.value.CBool?) ==> IsText(t[i..r.next], r.value)
    ensures var r := ValueAt(t, i).value; !(r.value.CNull? || r.value.CBool?) ==> NumberAt(t, i) == Ok(r)
  {
    hide StringRest, MembersAt, ItemsAt, NumberAt;
    assert Units("null") == NULL_TEXT && Units("true") == TRUE_TEXT && Units("false") == FALSE_TEXT;
    NumbersAreNoWords(t, i);
  }

  lemma NumbersAreNoWords(t: Text, i: nat)
    ensures NumberAt(t, i).Ok? ==> NumberAt(t, i).value.value.CInt? || NumberAt(t, i).value.value.CFloat?
  {
    hide IntegerEnd, FractionEnd, ExponentEnd, DigitsOf;
  }

  lemma LeafFound(t: Text, i: nat)
    requires i < |t| && ValueAt(t, i).Ok? && t[i] != OPEN_OBJECT && t[i] != OPEN_LIST
    ensures var r := ValueAt(t, i).value; IsText(t[i..r.next], r.value)
  {
    hide StringRest, MembersAt, ItemsAt, NumberAt, IsStringLiteral, IsFloat, IsInteger, StartsWith;
    if t[i] == QUOTE {
      LiteralFound(t, i);
    } else {
      WordFound(t, i);
      var r := ValueAt(t, i).value;
      if !(r.value.CNull? || r.value.CBool?) { NumberFound(t, i); }
    }
  }

  lemma PaddedFound(t: Text, i: nat, start: nat, next: nat, j: nat, v: CValue)
    requires i <= start <= next <= j <= |t| && AreSpaces(t[i..start]) && IsText(t[start..next], v) && AreSpaces(t[next..j])
    ensures IsPadded(t[i..j], v)
  {
    hide AreSpaces, IsText;
    assert t[i..j] == t[i..start] + t[start..next] + t[next..j];
  }

  /** What is read as a value is its text. */
  lemma {:induction false} TextFound(t: Text, i: nat)
    requires ValueAt(t, i).Ok?
    ensures var r := ValueAt(t, i).value; IsText(t[i..r.next], r.value)
    decreases |t| - i, 1
  {
    hide StringRest, NumberAt, IsPadded, IsMemberText, Listed, StartsWith, SkipSpace, AreSpaces, IsText;
    var end := ValueAt(t, i).value.next;
    if t[i] == OPEN_LIST {
      SpacesFound(t, i + 1);
      var j := SkipSpace(t, i + 1);
      if At(t, j) == CLOSE_LIST {
        EmptyFound(t, i, j);
      } else {
        ItemsSkip(t, i + 1);
        var parts, items := ItemsFound(t, i + 1, []);
        assert [] + items == items;
        assert t[i..end] == [t[i]] + t[i + 1..end];
        ListIsText(t[i..end], parts, items);
      }
    } else if t[i] == OPEN_OBJECT {
      SpacesFound(t, i + 1);
      var j := SkipSpace(t, i + 1);
      if At(t, j) == CLOSE_OBJECT {
        EmptyFound(t, i, j);
      } else {
        MembersSkip(t, i + 1);
        var parts, ms := MembersFound(t, i + 1, []);
        assert [] + ms == ms;
        assert t[i..end] == [t[i]] + t[i + 1..end];
        ObjectIsText(t[i..end], parts, ms);
      }
    } else {
      LeafFound(t, i);
    }
  }

  lemma EmptyFound(t: Text, i: nat, j: nat)
    requires i < j < |t| && AreSpaces(t[i + 1..j])
    ensures t[i] == OPEN_LIST && t[j] == CLOSE_LIST ==> IsText(t[i..j + 1], CArr([]))
    ensures t[i] == OPEN_OBJECT && t[j] == CLOSE_OBJECT ==> IsText(t[i..j + 1], CObj([]))
  {
    hide AreSpaces;
    assert t[i..j + 1] == [t[i]] + t[i + 1..j] + [t[j]];
  }

  lemma ListIsText(c: Text, parts: seq<Text>, items: seq<CValue>)
    requires items != [] && |parts| == |items| && (forall k :: 0 <= k < |items| ==> IsPadded(parts[k], items[k])) && c == [OPEN_LIST] + (Listed(parts) + [CLOSE_LIST])
    ensures IsText(c, CArr(items))
  {
    hide IsPadded, Listed;
    assert c == [91] + Listed(parts) + [93];
  }

  lemma ObjectIsText(c: Text, parts: seq<Text>, ms: seq<CMember>)
    requires ms != [] && DistinctNames(ms) && |parts| == |ms| && (forall k :: 0 <= k < |ms| ==> IsMemberText(parts[k], ms[k]))
    requires c == [OPEN_OBJECT] + (Listed(parts) + [CLOSE_OBJECT])
    ensures IsText(c, CObj(ms))
  {
    hide IsMemberText, Listed;
    assert c == [123] + Listed(parts) + [125];
  }

  /** One part more at the front. */
  lemma OnePartMore(first: Text, parts: seq<Text>, close: Unit)
    ensures parts == [] ==> Listed([first]) + [close] == first + [close]
    ensures parts != [] ==> Listed([first] + parts) + [close] == first + [COMMA] + (Listed(parts) + [close])
  {
    if parts != [] {
      assert ([first] + parts)[1..] == parts;
      assert first + [44] + Listed(parts) + [close] == first + [COMMA] + (Listed(parts) + [close]);
    }
  }

  lemma {:induction false} ItemsFound(t: Text, i: nat, sofar: seq<CValue>) returns (parts: seq<Text>, items: seq<CValue>)
    requires i <= |t| && ItemsAt(t, i, sofar).Ok?
    ensures var r := ItemsAt(t, i, sofar).value;
            && r.value == CArr(sofar + items) && |parts| == |items| > 0 && (forall k :: 0 <= k < |items| ==> IsPadded(parts[k], items[k]))
            && t[i..r.next] == Listed(parts) + [CLOSE_LIST]
    decreases |t| - i, 2
  {
    hide ValueAt, SkipSpace, IsPadded, Listed, AreSpaces, IsText;
    var end := ItemsAt(t, i, sofar).value.next;
    SpacesFound(t, i);
    var start := SkipSpace(t, i);
    TextFound(t, start);
    var v := ValueAt(t, start).value;
    SpacesFound(t, v.next);
    var j := SkipSpace(t, v.next);
    PaddedFound(t, i, start, v.next, j, v.value);
    if At(t, j) == COMMA {
      var more, rest := ItemsFound(t, j + 1, sofar + [v.value]);
      parts, items := [t[i..j]] + more, [v.value] + rest;
      OnePartMore(t[i..j], more, CLOSE_LIST);
      assert sofar + [v.value] + rest == sofar + items;
      assert t[i..end] == t[i..j] + [t[j]] + t[j + 1..end];
    } else {
      parts, items := [t[i..j]], [v.value];
      OnePartMore(t[i..j], [], CLOSE_LIST);
      assert t[i..end] == t[i..j] + [t[j]];
    }
  }

  /** The pieces a member is read from. */
  lemma MemberFound(t: Text, i: nat, sofar: seq<CMember>) returns (j: nat)
    requires i <= |t| && MemberAt(t, SkipSpace(t, i), sofar).Ok?
    ensures var m := MemberAt(t, SkipSpace(t, i), sofar).value;
            j == SkipSpace(t, m.next) && i <= j <= |t| && IsMemberText(t[i..j], m.value) && !Names(sofar, m.value.name)
    decreases |t| - i, 1
  {
    hide ValueAt, SkipSpace, IsPadded, AreSpaces, IsText, IsStringLiteral, StringRest, Names, IsMemberText;
    SpacesFound(t, i);
    var start := SkipSpace(t, i);
    LiteralFound(t, start);
    var key := StringRest(t, start + 1, []).value;
    SpacesFound(t, key.next);
    var colon := SkipSpace(t, key.next);
    SpacesFound(t, colon + 1);
    var first := SkipSpace(t, colon + 1);
    TextFound(t, first);
    var v := ValueAt(t, first).value;
    SpacesFound(t, v.next);
    j := SkipSpace(t, v.next);
    PaddedFound(t, colon + 1, first, v.next, j, v.value);
    MemberIsText(t, i, start, key.next, colon, j, CMember(key.value, v.value));
  }

  lemma MemberIsText(t: Text, i: nat, start: nat, named: nat, colon: nat, j: nat, m: CMember)
    requires i <= start <= named <= colon < j <= |t| && t[colon] == COLON
    requires AreSpaces(t[i..start]) && IsStringLiteral(t[start..named], m.name) && AreSpaces(t[named..colon]) && IsPadded(t[colon + 1..j], m.value)
    ensures IsMemberText(t[i..j], m)
  {
    hide AreSpaces, IsStringLiteral, IsPadded;
    assert t[i..j] == t[i..colon] + ([t[colon]] + t[colon + 1..j]);
    assert t[i..colon] == t[i..start] + t[start..named] + t[named..colon];
    assert t[i..j] == t[i..start] + t[start..named] + t[named..colon] + [58] + t[colon + 1..j];
  }

  lemma {:induction false} MembersFound(t: Text, i: nat, sofar: seq<CMember>) returns (parts: seq<Text>, ms: seq<CMember>)
    requires i <= |t| && MembersAt(t, i, sofar).Ok? && DistinctNames(sofar)
    ensures var r := MembersAt(t, i, sofar).value;
            && r.value == CObj(sofar + ms) && DistinctNames(sofar + ms) && |parts| == |ms| > 0
            && (forall k :: 0 <= k < |ms| ==> IsMemberText(parts[k], ms[k])) && t[i..r.next] == Listed(parts) + [CLOSE_OBJECT]
    decreases |t| - i, 2
  {
    hide MemberAt, SkipSpace, Listed, Names, IsMemberText;
    var end := MembersAt(t, i, sofar).value.next;
    var m := MemberAt(t, SkipSpace(t, i), sofar).value;
    var j := MemberFound(t, i, sofar);
    StillDistinct(sofar, m.value);
    if At(t, j) == COMMA {
      var more, rest := MembersFound(t, j + 1, sofar + [m.value]);
      parts, ms := [t[i..j]] + more, [m.value] + rest;
      OnePartMore(t[i..j], more, CLOSE_OBJECT);
      assert sofar + [m.value] + rest == sofar + ms;
      assert t[i..end] == t[i..j] + [t[j]] + t[j + 1..end];
    } else {
      parts, ms := [t[i..j]], [m.value];
      OnePartMore(t[i..j], [], CLOSE_OBJECT);
      assert t[i..end] == t[i..j] + [t[j]];
    }
  }

  lemma StillDistinct(sofar: seq<CMember>, m: CMember)
    requires DistinctNames(sofar) && !Names(sofar, m.name)
    ensures DistinctNames(sofar + [m])
  {
  }

  // ---- the main result ----------------------------------------------------

  /** The parser accepts exactly the texts of the grammar, and reads each as the value it spells. */
  lemma ParsesIff(t: Text, v: CValue)
    ensures ParseJson(t) == Ok(v) <==> IsPadded(t, v)
  {
    hide ValueAt, SkipSpace, IsPadded, AreSpaces, IsText;
    if ParseJson(t) == Ok(v) {
      SpacesFound(t, 0);
      var start := SkipSpace(t, 0);
      TextFound(t, start);
      var next := ValueAt(t, start).value.next;
      SpacesFound(t, next);
      PaddedFound(t, 0, start, next, |t|, v);
      assert t[0..|t|] == t;
    }
    if IsPadded(t, v) {
      assert Has(t, 0, t) by { assert t[0..|t|] == t; }
      PaddedRead(t, 0, t, v);
    }
  }
}
