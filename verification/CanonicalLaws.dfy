/** The laws of canonical JSON (src/canonical.ts), and of the byte comparison of `parseToken` in src/wire.ts. */
module CanonicalLaws {
  import opened Results
  import opened Canonical
  import opened CanonicalParser
  import opened PrintedValues

  // ---- strings ------------------------------------------------------------

  /** One escaped unit is read back as that unit. */
  lemma UnitRead(t: Text, i: nat, u: Unit, sofar: Text)
    requires Has(t, i, EscapeUnit(u)) && i + |EscapeUnit(u)| <= |t|
    ensures StringRest(t, i, sofar) == StringRest(t, i + |EscapeUnit(u)|, sofar + [u])
  {
    var e := EscapeUnit(u);
    HasAt(t, i, e, 0);
    if |e| > 1 { HasAt(t, i, e, 1); }
    if |e| == 6 {
      HasAt(t, i, e, 2);
      HasAt(t, i, e, 3);
      HasAt(t, i, e, 4);
      HasAt(t, i, e, 5);
      HexDigitRead(u / 16);
      HexDigitRead(u % 16);
      assert HexOf(ZERO) == Some(0);
      assert HexUnit(t, i + 2) == Some(u);
    }
  }

  lemma CanonicalReadsBack()
    ensures ReadsBack(EscapeUnit)
  {
    forall t: Text, i: nat, u: Unit, sofar: Text ensures ReadBackAt(EscapeUnit, t, i, u, sofar) {
      if Has(t, i, EscapeUnit(u)) { UnitRead(t, i, u, sofar); }
    }
  }

  lemma {:induction false} SpelledIsEscaped(s: Text)
    ensures SpellAll(EscapeUnit, s) == Escape(s)
  {
    if s != [] { SpelledIsEscaped(s[1..]); }
  }

  // ---- member order -------------------------------------------------------

  predicate InOrder(ms: seq<CMember>) {
    forall i, j :: 0 <= i < j < |ms| ==> Precedes(ms[i].name, ms[j].name)
  }

  lemma {:induction false} InsertInOrder(m: CMember, ms: seq<CMember>)
    requires InOrder(ms) && forall x :: x in ms ==> x.name != m.name
    ensures InOrder(Insert(m, ms))
  {
    hide SizeMembers, Size, Precedes;
    if ms != [] {
      OneOrder(m.name, ms[0].name);
      if Precedes(m.name, ms[0].name) {
        forall j | 1 <= j < |ms| ensures Precedes(m.name, ms[j].name) { PrecedesTransitive(m.name, ms[0].name, ms[j].name); }
      } else {
        InsertInOrder(m, ms[1..]);
        var rest := Insert(m, ms[1..]);
        forall j | 0 <= j < |rest| ensures Precedes(ms[0].name, rest[j].name) { assert rest[j] in rest; }
      }
    }
  }

  lemma {:induction false} SortInOrder(ms: seq<CMember>)
    requires DistinctNames(ms)
    ensures InOrder(Sort(ms)) && DistinctNames(Sort(ms))
  {
    hide Size, SizeMembers, Precedes;
    if ms != [] {
      SortInOrder(ms[1..]);
      InsertInOrder(ms[0], Sort(ms[1..]));
    }
    var sorted := Sort(ms);
    forall i, j | 0 <= i < j < |sorted| ensures sorted[i].name != sorted[j].name { OneOrder(sorted[i].name, sorted[j].name); }
  }

  // ---- the printer prints the ordered value -------------------------------

  /** `serialize` prints the value with every object's members in order, and that value is readable. */
  lemma {:induction false} SerializeIsPrint(v: CValue)
    requires IsValue(v) && Serialize(v).Ok?
    ensures Serialize(v).value == Print(EscapeUnit, Normal(v)) && IsReadable(Normal(v))
    decreases Size(v), 0
  {
    hide ValidUnicode, Precedes, Sort, InOrder, EscapeUnit, IntText, SerializeItems, SerializeMembers, NormalItems, NormalMembers, PrintItems, PrintMembers;
    match v
    case CStr(s) => SpelledIsEscaped(s);
    case CArr(items) => SerializeItemsIsPrint(items);
    case CObj(ms) =>
      SortInOrder(ms);
      assert forall m :: m in Sort(ms) ==> m in ms;
      SerializeMembersIsPrint(Sort(ms));
    case _ =>
  }

  lemma {:induction false} SerializeItemsIsPrint(items: seq<CValue>)
    requires (forall k :: 0 <= k < |items| ==> IsValue(items[k])) && SerializeItems(items).Ok?
    ensures SerializeItems(items).value == PrintItems(EscapeUnit, NormalItems(items))
    ensures forall k :: 0 <= k < |items| ==> IsReadable(NormalItems(items)[k])
    decreases SizeItems(items), 1
  {
    hide Serialize, Normal, IsValue, IsReadable, Print;
    if items != [] {
      SerializeIsPrint(items[0]);
      SerializeItemsIsPrint(items[1..]);
      assert NormalItems(items)[1..] == NormalItems(items[1..]);
    }
  }

  lemma {:induction false} SerializeMembersIsPrint(ms: seq<CMember>)
    requires (forall m :: m in ms ==> IsValue(m.value) && ValidUnicode(m.name)) && SerializeMembers(ms).Ok?
    ensures SerializeMembers(ms).value == PrintMembers(EscapeUnit, NormalMembers(ms)) && MembersReadable(NormalMembers(ms))
    decreases SizeMembers(ms), 1
  {
    hide Serialize, Normal, IsValue, IsReadable, Print, ValidUnicode, SpellAll, Escape;
    if ms != [] {
      SerializeIsPrint(ms[0].value);
      SpelledIsEscaped(ms[0].name);
      SerializeMembersIsPrint(ms[1..]);
      assert NormalMembers(ms)[1..] == NormalMembers(ms[1..]);
    }
  }

  // ---- equal up to member order -------------------------------------------

  predicate SameNames(x: seq<CMember>, y: seq<CMember>) {
    (forall m :: m in x ==> Names(y, m.name)) && forall m :: m in y ==> Names(x, m.name)
  }

  /** The same value, whatever order its objects' members are in. */
  predicate SameValue(u: CValue, v: CValue) {
    match (u, v)
    case (CArr(x), CArr(y)) => |x| == |y| && forall i :: 0 <= i < |x| ==> SameValue(x[i], y[i])
    case (CObj(x), CObj(y)) =>
      SameNames(x, y) && forall i, j :: 0 <= i < |x| && 0 <= j < |y| && x[i].name == y[j].name ==> SameValue(x[i].value, y[j].value)
    case _ => u == v
  }

  lemma {:induction false} SameOrderedNames(a: seq<CMember>, b: seq<CMember>)
    requires InOrder(a) && InOrder(b) && SameNames(a, b)
    ensures |a| == |b| && forall i :: 0 <= i < |a| ==> a[i].name == b[i].name
  {
    hide Precedes, InOrder;
    if a != [] || b != [] {
      if a != [] { assert a[0] in a && Names(b, a[0].name); }
      if b != [] { assert b[0] in b && Names(a, b[0].name); }
      FirstNames(a, b);
      RestNames(a, b);
      RestNames(b, a);
      RestInOrder(a);
      RestInOrder(b);
      SameOrderedNames(a[1..], b[1..]);
    }
  }

  lemma RestInOrder(a: seq<CMember>)
    requires InOrder(a) && a != []
    ensures InOrder(a[1..])
  {
    hide Precedes;
  }

  lemma FirstNames(a: seq<CMember>, b: seq<CMember>)
    requires InOrder(a) && InOrder(b) && SameNames(a, b) && a != [] && b != []
    ensures a[0].name == b[0].name
  {
    hide Precedes;
    assert a[0] in a && b[0] in b;
    var m :| m in b && m.name == a[0].name;
    var j :| 0 <= j < |b| && b[j] == m;
    var n :| n in a && n.name == b[0].name;
    var k :| 0 <= k < |a| && a[k] == n;
    OneOrder(a[0].name, b[0].name);
  }

  lemma RestNames(a: seq<CMember>, b: seq<CMember>)
    requires InOrder(a) && a != [] && b != [] && a[0].name == b[0].name && forall m :: m in a ==> Names(b, m.name)
    ensures forall m :: m in a[1..] ==> Names(b[1..], m.name)
  {
    hide Precedes;
    forall m | m in a[1..] ensures Names(b[1..], m.name) {
      var i :| 1 <= i < |a| && a[i] == m;
      OneOrder(a[0].name, m.name);
      var n :| n in b && n.name == m.name;
      assert n in b[1..];
    }
  }

  lemma {:induction false} NormalMembersAt(ms: seq<CMember>, i: nat)
    requires i < |ms|
    ensures NormalMembers(ms)[i] == CMember(ms[i].name, Normal(ms[i].value))
  {
    hide Normal;
    if i > 0 { NormalMembersAt(ms[1..], i - 1); }
  }

  lemma {:induction false} NormalItemsAt(items: seq<CValue>, i: nat)
    requires i < |items|
    ensures NormalItems(items)[i] == Normal(items[i])
  {
    hide Normal;
    if i > 0 { NormalItemsAt(items[1..], i - 1); }
  }

  /** Equal up to member order is equal once the members are in order. */
  lemma {:induction false} SameIffNormal(u: CValue, v: CValue)
    requires IsValue(u) && IsValue(v)
    ensures SameValue(u, v) <==> Normal(u) == Normal(v)
    decreases u
  {
    match (u, v)
    case (CArr(x), CArr(y)) =>
      forall i | 0 <= i < |x| && i < |y| ensures SameValue(x[i], y[i]) <==> NormalItems(x)[i] == NormalItems(y)[i] {
        SameIffNormal(x[i], y[i]);
        NormalItemsAt(x, i);
        NormalItemsAt(y, i);
      }
    case (CObj(x), CObj(y)) =>
      forall i, j | 0 <= i < |x| && 0 <= j < |y| ensures SameValue(x[i].value, y[j].value) <==> Normal(x[i].value) == Normal(y[j].value) {
        SameIffNormal(x[i].value, y[j].value);
      }
      SortInOrder(x);
      SortInOrder(y);
      SameObjects(x, y);
    case _ =>
  }

  /** The values under one name, compared. */
  predicate ValuesCompare(x: seq<CMember>, y: seq<CMember>) {
    forall i, j :: 0 <= i < |x| && 0 <= j < |y| ==> (SameValue(x[i].value, y[j].value) <==> Normal(x[i].value) == Normal(y[j].value))
  }

  lemma SameObjects(x: seq<CMember>, y: seq<CMember>)
    requires InOrder(Sort(x)) && InOrder(Sort(y)) && DistinctNames(x) && DistinctNames(y) && ValuesCompare(x, y)
    ensures SameValue(CObj(x), CObj(y)) <==> Normal(CObj(x)) == Normal(CObj(y))
  {
    NormalObject(x);
    NormalObject(y);
    hide Precedes, InOrder, Sort, Normal, SameValue, ValuesCompare;
    if SameValue(CObj(x), CObj(y)) { SameIsNormal(x, y); }
    if NormalMembers(Sort(x)) == NormalMembers(Sort(y)) { NormalsMatch(x, y); }
  }

  lemma SameIsNormal(x: seq<CMember>, y: seq<CMember>)
    requires InOrder(Sort(x)) && InOrder(Sort(y)) && ValuesCompare(x, y) && SameValue(CObj(x), CObj(y))
    ensures NormalMembers(Sort(x)) == NormalMembers(Sort(y))
  {
    SameParts(x, y);
    hide Precedes, InOrder, Normal, NormalMembers, SameValue, Sort;
    var a, b := Sort(x), Sort(y);
    NamesSort(x, y);
    SameOrderedNames(a, b);
    forall k | 0 <= k < |a| ensures NormalMembers(a)[k] == NormalMembers(b)[k] {
      NormalMembersAt(a, k);
      NormalMembersAt(b, k);
      assert a[k] in x && b[k] in y;
      var i :| 0 <= i < |x| && x[i] == a[k];
      var j :| 0 <= j < |y| && y[j] == b[k];
    }
    assert |NormalMembers(a)| == |NormalMembers(b)|;
  }

  lemma SameParts(x: seq<CMember>, y: seq<CMember>)
    requires SameValue(CObj(x), CObj(y))
    ensures SameNames(x, y)
    ensures forall i, j :: 0 <= i < |x| && 0 <= j < |y| && x[i].name == y[j].name ==> SameValue(x[i].value, y[j].value)
  {
  }

  lemma NamesSort(x: seq<CMember>, y: seq<CMember>)
    requires SameNames(x, y)
    ensures SameNames(Sort(x), Sort(y))
  {
  }

  lemma NormalObject(x: seq<CMember>)
    ensures Normal(CObj(x)) == CObj(NormalMembers(Sort(x)))
  {
  }

  /** Two members of one name stand at one place once both objects are in order. */
  lemma SortedPair(x: seq<CMember>, y: seq<CMember>, i: nat, j: nat) returns (k: nat)
    requires DistinctNames(x) && DistinctNames(y) && |Sort(x)| == |Sort(y)|
    requires forall k :: 0 <= k < |Sort(x)| ==> Sort(x)[k].name == Sort(y)[k].name
    requires i < |x| && j < |y| && x[i].name == y[j].name
    ensures k < |Sort(x)| && Sort(x)[k] == x[i] && Sort(y)[k] == y[j]
  {
    hide Sort;
    assert x[i] in Sort(x);
    k :| 0 <= k < |Sort(x)| && Sort(x)[k] == x[i];
    assert Sort(y)[k] in y;
    var l :| 0 <= l < |y| && y[l] == Sort(y)[k];
  }

  lemma NormalsMatch(x: seq<CMember>, y: seq<CMember>)
    requires DistinctNames(x) && DistinctNames(y) && ValuesCompare(x, y) && NormalMembers(Sort(x)) == NormalMembers(Sort(y))
    ensures SameValue(CObj(x), CObj(y))
  {
    hide Sort, Normal, NormalMembers;
    assert |NormalMembers(Sort(x))| == |Sort(x)| && |NormalMembers(Sort(y))| == |Sort(y)|;
    assert forall k :: 0 <= k < |Sort(x)| ==> NormalMembers(Sort(x))[k].name == NormalMembers(Sort(y))[k].name;
    NamesCarryOver(x, y);
    forall i, j | 0 <= i < |x| && 0 <= j < |y| && x[i].name == y[j].name ensures SameValue(x[i].value, y[j].value) {
      var k := SortedPair(x, y, i, j);
      NormalMembersAt(Sort(x), k);
      NormalMembersAt(Sort(y), k);
    }
  }

  lemma NamesCarryOver(x: seq<CMember>, y: seq<CMember>)
    requires |Sort(x)| == |Sort(y)| && forall k :: 0 <= k < |Sort(x)| ==> Sort(x)[k].name == Sort(y)[k].name
    ensures SameNames(x, y)
  {
    hide Sort;
    forall m | m in x ensures Names(y, m.name) {
      assert m in Sort(x);
      var k :| 0 <= k < |Sort(x)| && Sort(x)[k] == m;
      assert Sort(y)[k] in y;
    }
    forall m | m in y ensures Names(x, m.name) {
      assert m in Sort(y);
      var k :| 0 <= k < |Sort(y)| && Sort(y)[k] == m;
      assert Sort(x)[k] in x;
    }
  }

  // ---- printing does not see the order ------------------------------------

  lemma {:induction false} SortedStays(ms: seq<CMember>)
    requires InOrder(ms)
    ensures Sort(ms) == ms
  {
    hide Precedes, Size, SizeMembers;
    if |ms| > 1 {
      SortedStays(ms[1..]);
      assert Precedes(ms[0].name, ms[1].name);
      assert ms == [ms[0]] + ms[1..];
    } else if |ms| == 1 {
      assert Sort(ms[1..]) == [];
    }
  }

  /** Printing the ordered value prints the value. */
  lemma {:induction false} NormalPrintsAlike(v: CValue)
    requires IsValue(v)
    ensures Serialize(Normal(v)) == Serialize(v)
    decreases Size(v), 0
  {
    match v
    case CArr(items) => ItemsPrintAlike(items);
    case CObj(ms) =>
      var sorted := Sort(ms);
      SortInOrder(ms);
      MembersPrintAlike(sorted);
      SortedStays(NormalMembers(sorted));
      SameUnicodeNames(ms);
      hide SerializeMembers, NormalMembers, Sort, Precedes, InOrder, ValidUnicode;
    case _ =>
  }

  lemma SameUnicodeNames(ms: seq<CMember>)
    ensures (exists m :: m in ms && !ValidUnicode(m.name)) <==> (exists m :: m in NormalMembers(Sort(ms)) && !ValidUnicode(m.name))
  {
    hide ValidUnicode, Sort, Normal;
    var sorted, normal := Sort(ms), NormalMembers(Sort(ms));
    forall m | m in ms ensures Names(normal, m.name) {
      assert m in sorted;
      var k :| 0 <= k < |sorted| && sorted[k] == m;
      assert normal[k] in normal;
    }
    forall m | m in normal ensures Names(ms, m.name) {
      var k :| 0 <= k < |normal| && normal[k] == m;
      assert sorted[k] in ms;
    }
  }

  lemma {:induction false} ItemsPrintAlike(items: seq<CValue>)
    requires forall i :: 0 <= i < |items| ==> IsValue(items[i])
    ensures SerializeItems(NormalItems(items)) == SerializeItems(items)
    decreases SizeItems(items), 1
  {
    hide Serialize, Normal, IsValue;
    if items != [] {
      NormalPrintsAlike(items[0]);
      ItemsPrintAlike(items[1..]);
      assert NormalItems(items)[1..] == NormalItems(items[1..]);
    }
  }

  lemma {:induction false} MembersPrintAlike(ms: seq<CMember>)
    requires forall m :: m in ms ==> IsValue(m.value)
    ensures SerializeMembers(NormalMembers(ms)) == SerializeMembers(ms)
    decreases SizeMembers(ms), 1
  {
    hide Serialize, Normal, IsValue, Quoted;
    if ms != [] {
      NormalPrintsAlike(ms[0].value);
      MembersPrintAlike(ms[1..]);
      assert NormalMembers(ms)[1..] == NormalMembers(ms[1..]);
    }
  }

  lemma {:induction false} NormalIsValue(v: CValue)
    requires IsValue(v)
    ensures IsValue(Normal(v))
    decreases Size(v), 0
  {
    hide Precedes, InOrder, Sort;
    match v
    case CArr(items) =>
      forall i | 0 <= i < |items| ensures IsValue(NormalItems(items)[i]) {
        NormalItemsAt(items, i);
        ItemIsSmaller(items, i);
        NormalIsValue(items[i]);
      }
    case CObj(ms) =>
      var sorted := Sort(ms);
      SortInOrder(ms);
      forall i | 0 <= i < |sorted| ensures IsValue(NormalMembers(sorted)[i].value) {
        NormalMembersAt(sorted, i);
        MemberIsSmaller(sorted, i);
        assert sorted[i] in ms;
        NormalIsValue(sorted[i].value);
      }
    case _ =>
  }

  lemma {:induction false} ItemIsSmaller(items: seq<CValue>, i: nat)
    requires i < |items|
    ensures Size(items[i]) < 1 + SizeItems(items)
  {
    if i > 0 { ItemIsSmaller(items[1..], i - 1); }
  }

  lemma {:induction false} MemberIsSmaller(ms: seq<CMember>, i: nat)
    requires i < |ms|
    ensures Size(ms[i].value) < 1 + SizeMembers(ms)
  {
    if i > 0 { MemberIsSmaller(ms[1..], i - 1); }
  }

  /** Ordering an ordered value changes nothing. */
  lemma {:induction false} NormalTwice(v: CValue)
    requires IsValue(v)
    ensures Normal(Normal(v)) == Normal(v)
    decreases Size(v), 0
  {
    hide Precedes, Sort;
    match v
    case CArr(items) =>
      var once := NormalItems(items);
      forall i | 0 <= i < |items| ensures NormalItems(once)[i] == once[i] {
        NormalItemsAt(items, i);
        NormalItemsAt(once, i);
        ItemIsSmaller(items, i);
        NormalTwice(items[i]);
      }
    case CObj(ms) =>
      var sorted := Sort(ms);
      var once := NormalMembers(sorted);
      SortInOrder(ms);
      SortedStays(once);
      forall i | 0 <= i < |sorted| ensures NormalMembers(once)[i] == once[i] {
        NormalMembersAt(sorted, i);
        NormalMembersAt(once, i);
        MemberIsSmaller(sorted, i);
        assert sorted[i] in ms;
        NormalTwice(sorted[i].value);
      }
    case _ =>
  }

  // ---- what the parser reads is a value -----------------------------------

  lemma {:induction false} ReadIsValue(t: Text, i: nat)
    requires ValueAt(t, i).Ok?
    ensures IsValue(ValueAt(t, i).value.value)
    decreases |t| - i, 1
  {
    hide StringRest, NumberAt, StartsWith;
    if t[i] == OPEN_OBJECT {
      var j := SkipSpace(t, i + 1);
      if At(t, j) != CLOSE_OBJECT { MembersAreValues(t, j, []); }
    } else if t[i] == OPEN_LIST {
      var j := SkipSpace(t, i + 1);
      if At(t, j) != CLOSE_LIST { ItemsAreValues(t, j, []); }
    } else {
      NumbersAreValues(t, i);
    }
  }

  lemma NumbersAreValues(t: Text, i: nat)
    ensures NumberAt(t, i).Ok? ==> IsValue(NumberAt(t, i).value.value)
  {
    hide IntegerEnd, FractionEnd, ExponentEnd, DigitsOf;
  }

  lemma {:induction false} ItemsAreValues(t: Text, i: nat, sofar: seq<CValue>)
    requires ItemsAt(t, i, sofar).Ok? && forall k :: 0 <= k < |sofar| ==> IsValue(sofar[k])
    ensures IsValue(ItemsAt(t, i, sofar).value.value)
    decreases |t| - i, 2
  {
    hide ValueAt;
    var start := SkipSpace(t, i);
    ReadIsValue(t, start);
    var v := ValueAt(t, start).value;
    var j := SkipSpace(t, v.next);
    if At(t, j) == COMMA { ItemsAreValues(t, j + 1, sofar + [v.value]); }
  }

  lemma {:induction false} MembersAreValues(t: Text, i: nat, sofar: seq<CMember>)
    requires MembersAt(t, i, sofar).Ok? && IsValue(CObj(sofar))
    ensures IsValue(MembersAt(t, i, sofar).value.value)
    decreases |t| - i, 2
  {
    hide ValueAt, StringRest;
    var start := SkipSpace(t, i);
    var m := MemberAt(t, start, sofar).value;
    var key := StringRest(t, start + 1, []).value;
    ReadIsValue(t, SkipSpace(t, SkipSpace(t, key.next) + 1));
    assert forall k :: 0 <= k < |sofar| ==> sofar[k] in sofar;
    var j := SkipSpace(t, m.next);
    if At(t, j) == COMMA { MembersAreValues(t, j + 1, sofar + [m.value]); }
  }

  lemma ParsedIsValue(t: Text)
    requires ParseJson(t).Ok?
    ensures IsValue(ParseJson(t).value)
  {
    hide ValueAt;
    ReadIsValue(t, SkipSpace(t, 0));
  }

  // ---- the main results ---------------------------------------------------

  /** Round trip: the parser gives back the printed value, its objects' members in order. */
  lemma RoundTrip(v: CValue)
    requires IsValue(v) && CanonicalJson(v).Ok?
    ensures ParseJson(CanonicalJson(v).value) == Ok(Normal(v))
  {
    hide Serialize, Normal, IsValue, IsReadable, Print, ReadsBack, ParseJson;
    SerializeIsPrint(v);
    CanonicalReadsBack();
    ParsePrinted(EscapeUnit, Normal(v));
  }

  /** The output ignores member order and nothing else: two values print alike exactly when they are the same. */
  lemma PrintsAlikeIffSame(u: CValue, v: CValue)
    requires IsValue(u) && IsValue(v) && CanonicalJson(u).Ok?
    ensures CanonicalJson(u) == CanonicalJson(v) <==> SameValue(u, v)
  {
    hide Serialize, Normal, IsValue, SameValue, ParseJson;
    SameIffNormal(u, v);
    NormalPrintsAlike(u);
    NormalPrintsAlike(v);
    if CanonicalJson(u) == CanonicalJson(v) {
      RoundTrip(u);
      RoundTrip(v);
    }
  }

  /** What the byte comparison of a token's header and payload asks of a text. */
  predicate IsAccepted(t: Text) {
    match ParseJson(t)
    case Ok(v) => CanonicalJson(v) == Ok(t)
    case Err(_) => false
  }

  /** Each printable value has exactly one accepted text: its canonical one. */
  lemma OneAcceptedText(v: CValue, t: Text)
    requires IsValue(v) && CanonicalJson(v).Ok?
    ensures IsAccepted(t) && SameValue(ParseJson(t).value, v) <==> t == CanonicalJson(v).value
  {
    hide Serialize, Normal, IsValue, SameValue, ParseJson;
    RoundTrip(v);
    NormalPrintsAlike(v);
    NormalIsValue(v);
    SameIffNormal(Normal(v), v);
    NormalTwice(v);
    if IsAccepted(t) {
      ParsedIsValue(t);
      PrintsAlikeIffSame(ParseJson(t).value, v);
    }
  }
}
