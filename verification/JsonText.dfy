/** Plain JSON values, over Unicode strings, as values of the printer over UTF-16 code units: the two views agree. */
module JsonText {
  import opened Results
  import opened PlainJson
  import opened Canonical
  import opened CanonicalParser
  import opened CanonicalLaws
  import opened Ceilings

  // ---- strings ------------------------------------------------------------

  function CodeUnits(c: char): (r: Text)
    ensures |r| > 0
  {
    var n := c as int;
    if n < 0x10000 then [n] else [0xD800 + (n - 0x10000) / 0x400, 0xDC00 + (n - 0x10000) % 0x400]
  }

  /** One unit for a character of the basic plane, and else the surrogate pair that stands for it. */
  lemma CodeUnitsAre(c: char)
    ensures var r, n := CodeUnits(c), c as int;
            if n < 0x10000 then r == [n]
            else |r| == 2 && IsHigh(r[0]) && IsLow(r[1]) && n == 0x10000 + (r[0] - 0xD800) as int * 0x400 + (r[1] - 0xDC00) as int
  {
  }

  function Utf16(s: string): Text {
    if s == [] then [] else CodeUnits(s[0]) + Utf16(s[1..])
  }

  lemma {:induction false} Utf16IsValid(s: string)
    ensures ValidUnicode(Utf16(s))
  {
    if s != [] {
      var u, rest := CodeUnits(s[0]), Utf16(s[1..]);
      Utf16IsValid(s[1..]);
      assert (u + rest)[|u|..] == rest;
    }
  }

  lemma {:induction false} Utf16IsInjective(s: string, t: string)
    requires Utf16(s) == Utf16(t)
    ensures s == t
  {
    if s != [] && t != [] {
      var a, b := CodeUnits(s[0]), CodeUnits(t[0]);
      assert Utf16(s)[0] == a[0] && Utf16(t)[0] == b[0];
      if |a| > 1 { assert Utf16(s)[1] == a[1]; }
      if |b| > 1 { assert Utf16(t)[1] == b[1]; }
      assert a == b && s[0] == t[0];
      assert Utf16(s[1..]) == Utf16(s)[|a|..] && Utf16(t[1..]) == Utf16(t)[|b|..];
      Utf16IsInjective(s[1..], t[1..]);
      assert s == [s[0]] + s[1..] && t == [t[0]] + t[1..];
    }
  }

  // ---- values -------------------------------------------------------------

  function Embed(v: Json): CValue {
    match v
    case JNull => CNull
    case JBool(b) => CBool(b)
    case JNum(n) => CInt(n)
    case JStr(s) => CStr(Utf16(s))
    case JArr(items) => CArr(seq(|items|, i requires 0 <= i < |items| => Embed(items[i])))
    case JObj(members) =>
      CObj(seq(|members|, i requires 0 <= i < |members| => CMember(Utf16(members[i].name), Embed(members[i].value))))
  }

  lemma {:induction false} ItemsWritable(items: seq<CValue>)
    ensures SerializeItems(items).Ok? <==> forall i :: 0 <= i < |items| ==> Serialize(items[i]).Ok?
  {
    hide Serialize;
    if items != [] { ItemsWritable(items[1..]); }
  }

  lemma {:induction false} MembersWritable(ms: seq<CMember>)
    ensures SerializeMembers(ms).Ok? <==> forall m :: m in ms ==> Serialize(m.value).Ok?
  {
    hide Serialize;
    if ms != [] {
      MembersWritable(ms[1..]);
      assert forall m :: m in ms <==> m == ms[0] || m in ms[1..];
    }
  }

  lemma ArrayWritable(items: seq<CValue>)
    ensures Serialize(CArr(items)).Ok? <==> forall i :: 0 <= i < |items| ==> Serialize(items[i]).Ok?
  {
    ItemsWritable(items);
    hide SerializeItems;
  }

  lemma ObjectWritable(ms: seq<CMember>)
    requires forall m :: m in ms ==> ValidUnicode(m.name)
    ensures Serialize(CObj(ms)).Ok? <==> forall i :: 0 <= i < |ms| ==> Serialize(ms[i].value).Ok?
  {
    hide ValidUnicode, SerializeMembers, Sort;
    MembersWritable(Sort(ms));
    assert forall i :: 0 <= i < |ms| ==> ms[i] in ms;
    assert forall m :: m in Sort(ms) <==> m in ms;
  }

  lemma EmbeddedNamesAreValid(members: seq<Member>)
    ensures forall m :: m in Embed(JObj(members)).members ==> ValidUnicode(m.name)
  {
    hide ValidUnicode;
    var ms := Embed(JObj(members)).members;
    forall m | m in ms ensures ValidUnicode(m.name) {
      var i :| 0 <= i < |ms| && ms[i] == m;
      Utf16IsValid(members[i].name);
    }
  }

  /** The printer writes a value exactly when its integers are in the safe range. */
  lemma {:induction false} WritableIff(v: Json)
    ensures CanonicalJson(Embed(v)).Ok? <==> Canonicalizable(v)
  {
    match v
    case JStr(s) => Utf16IsValid(s);
    case JArr(items) =>
      hide Serialize;
      var es := Embed(v).items;
      forall i | 0 <= i < |es| ensures Serialize(es[i]).Ok? <==> Canonicalizable(items[i]) { WritableIff(items[i]); }
      ArrayWritable(es);
    case JObj(members) =>
      hide Serialize;
      var ms := Embed(v).members;
      forall i | 0 <= i < |ms| ensures Serialize(ms[i].value).Ok? <==> Canonicalizable(members[i].value) { WritableIff(members[i].value); }
      EmbeddedNamesAreValid(members);
      ObjectWritable(ms);
    case _ =>
  }

  lemma {:induction false} EmbedIsValue(v: Json)
    requires IsJson(v)
    ensures IsValue(Embed(v))
  {
    match v
    case JArr(items) => forall i | 0 <= i < |items| ensures IsValue(Embed(items[i])) { EmbedIsValue(items[i]); }
    case JObj(members) =>
      forall i | 0 <= i < |members| ensures IsValue(Embed(members[i].value)) { EmbedIsValue(members[i].value); }
      forall i, j | 0 <= i < j < |members| ensures Utf16(members[i].name) != Utf16(members[j].name) {
        if Utf16(members[i].name) == Utf16(members[j].name) { Utf16IsInjective(members[i].name, members[j].name); }
      }
    case _ =>
  }

  // ---- sameness -----------------------------------------------------------

  function NameSet(members: seq<Member>): set<string> {
    set m | m in members :: m.name
  }

  lemma {:induction false} NameSetSize(members: seq<Member>)
    requires NamesDiffer(members)
    ensures |NameSet(members)| == |members|
  {
    if members != [] {
      var rest := members[1..];
      NameSetSize(rest);
      assert members == [members[0]] + rest;
      assert NameSet(members) == NameSet(rest) + {members[0].name};
      assert members[0].name !in NameSet(rest);
    }
  }

  /** Objects of one size, one naming all the other's members, name the same. */
  lemma NamesComeBack(x: seq<Member>, y: seq<Member>, m: Member)
    requires NamesDiffer(x) && NamesDiffer(y) && |x| == |y| && NameSet(x) <= NameSet(y) && m in y
    ensures m.name in NameSet(x)
  {
    NameSetSize(x);
    NameSetSize(y);
    if m.name !in NameSet(x) {
      assert NameSet(x) < NameSet(y);
      SmallerSubset(NameSet(x), NameSet(y));
    }
  }

  lemma SmallerSubset(a: set<string>, b: set<string>)
    requires a < b
    ensures |a| < |b|
  {
    var x :| x in b && x !in a;
    assert a <= b - {x};
    SubsetSize(a, b - {x});
  }

  lemma {:induction false} SubsetSize(a: set<string>, b: set<string>)
    requires a <= b
    ensures |a| <= |b|
    decreases |a|
  {
    if a != {} {
      var x :| x in a;
      SubsetSize(a - {x}, b - {x});
    }
  }

  predicate NamesWithin(x: seq<Member>, y: seq<Member>) {
    forall i :: 0 <= i < |x| ==> x[i].name in NameSet(y)
  }

  lemma SameNamesIff(x: seq<Member>, y: seq<Member>)
    ensures SameNames(Embed(JObj(x)).members, Embed(JObj(y)).members) <==> NamesWithin(x, y) && NamesWithin(y, x)
  {
    EmbeddedNames(x, y);
    EmbeddedNames(y, x);
  }

  lemma EmbeddedNames(x: seq<Member>, y: seq<Member>)
    ensures (forall m :: m in Embed(JObj(x)).members ==> Names(Embed(JObj(y)).members, m.name)) <==> NamesWithin(x, y)
  {
    var u, v := Embed(JObj(x)).members, Embed(JObj(y)).members;
    forall i | 0 <= i < |x| ensures Names(v, u[i].name) <==> x[i].name in NameSet(y) {
      if Names(v, u[i].name) {
        var j :| 0 <= j < |v| && v[j].name == u[i].name;
        Utf16IsInjective(x[i].name, y[j].name);
        assert y[j] in y;
      }
      if x[i].name in NameSet(y) {
        var j :| 0 <= j < |y| && y[j].name == x[i].name;
        assert v[j].name == u[i].name;
      }
    }
    assert forall i :: 0 <= i < |u| ==> u[i] in u;
  }

  predicate ValuesAgree(x: seq<Member>, y: seq<Member>) {
    forall i, j :: 0 <= i < |x| && 0 <= j < |y| && x[i].name == y[j].name ==> SameJson(x[i].value, y[j].value)
  }

  /** Two objects are the same when they name the same members and those agree. */
  lemma SameObjectIff(x: seq<Member>, y: seq<Member>)
    requires NamesDiffer(x) && NamesDiffer(y)
    ensures SameJson(JObj(x), JObj(y)) <==> NamesWithin(x, y) && NamesWithin(y, x) && ValuesAgree(x, y)
  {
    if SameJson(JObj(x), JObj(y)) {
      forall i | 0 <= i < |x| ensures x[i].name in NameSet(y) {
        assert HasMember(y, x[i]);
        var j :| 0 <= j < |y| && y[j].name == x[i].name && SameJson(x[i].value, y[j].value);
        assert y[j] in y;
      }
      forall j | 0 <= j < |y| ensures y[j].name in NameSet(x) { NamesComeBack(x, y, y[j]); }
      forall i, j | 0 <= i < |x| && 0 <= j < |y| && x[i].name == y[j].name ensures SameJson(x[i].value, y[j].value) {
        assert HasMember(y, x[i]);
      }
    }
    if NamesWithin(x, y) && NamesWithin(y, x) && ValuesAgree(x, y) {
      NameSetSize(x);
      NameSetSize(y);
      assert NameSet(x) == NameSet(y);
      forall i | 0 <= i < |x| ensures HasMember(y, x[i]) {
        assert x[i].name in NameSet(y);
        var j :| 0 <= j < |y| && y[j].name == x[i].name;
        assert SameJson(x[i].value, y[j].value);
      }
    }
  }

  /** Same to the plain view, same to the printer. */
  lemma {:induction false} SameIff(a: Json, b: Json)
    requires IsJson(a) && IsJson(b)
    ensures SameValue(Embed(a), Embed(b)) <==> SameJson(a, b)
  {
    match (a, b)
    case (JStr(s), JStr(t)) => if Utf16(s) == Utf16(t) { Utf16IsInjective(s, t); }
    case (JArr(x), JArr(y)) =>
      var u, v := Embed(a).items, Embed(b).items;
      if |x| == |y| {
        forall i | 0 <= i < |u| ensures SameValue(u[i], v[i]) <==> SameJson(x[i], y[i]) { SameIff(x[i], y[i]); }
      }
    case (JObj(x), JObj(y)) =>
      forall i, j | 0 <= i < |x| && 0 <= j < |y| ensures SameValue(Embed(x[i].value), Embed(y[j].value)) <==> SameJson(x[i].value, y[j].value) {
        SameIff(x[i].value, y[j].value);
      }
      SameObjectIff(x, y);
      SameNamesIff(x, y);
      SameEmbeddedValues(x, y);
    case _ =>
  }

  lemma SameEmbeddedValues(x: seq<Member>, y: seq<Member>)
    requires forall i, j :: 0 <= i < |x| && 0 <= j < |y| ==>
               (SameValue(Embed(x[i].value), Embed(y[j].value)) <==> SameJson(x[i].value, y[j].value))
    ensures SameValue(Embed(JObj(x)), Embed(JObj(y)))
            <==> SameNames(Embed(JObj(x)).members, Embed(JObj(y)).members) && ValuesAgree(x, y)
  {
    var u, v := Embed(JObj(x)).members, Embed(JObj(y)).members;
    forall i, j | 0 <= i < |x| && 0 <= j < |y| ensures u[i].name == v[j].name <==> x[i].name == y[j].name {
      if u[i].name == v[j].name { Utf16IsInjective(x[i].name, y[j].name); }
    }
    assert forall i, j :: 0 <= i < |u| && 0 <= j < |v| ==>
      (SameValue(u[i].value, v[j].value) <==> SameJson(x[i].value, y[j].value));
  }

  /** Printed alike exactly when the same. */
  lemma PrintedAlikeIff(a: Json, b: Json)
    requires IsJson(a) && IsJson(b) && Canonicalizable(a)
    ensures CanonicalJson(Embed(a)) == CanonicalJson(Embed(b)) <==> SameJson(a, b)
  {
    WritableIff(a);
    EmbedIsValue(a);
    EmbedIsValue(b);
    SameIff(a, b);
    PrintsAlikeIffSame(Embed(a), Embed(b));
  }

  /** Two unknown ceilings are identical exactly when the printer writes both, and alike. */
  lemma IdenticalUnknownIff(a: seq<Member>, b: seq<Member>)
    requires IsJson(JObj(a)) && IsJson(JObj(b))
    ensures IdenticalUnknown(a, b)
            <==> CanonicalJson(Embed(JObj(a))).Ok? && CanonicalJson(Embed(JObj(a))) == CanonicalJson(Embed(JObj(b)))
  {
    hide IsJson, SameJson, Canonicalizable, Embed;
    WritableIff(JObj(a));
    WritableIff(JObj(b));
    if Canonicalizable(JObj(a)) { PrintedAlikeIff(JObj(a), JObj(b)); }
  }
}
