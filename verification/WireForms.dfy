/**
 * Which wire objects the offline verifier reads as which ceiling and authority, read off their members: the key and the
 * class they are routed by, the bounds they state, and that they hold no member the ceiling would not write back
 * (src/authority.ts, src/ceilings.ts).
 */
module WireForms {
  import opened Results
  import opened PlainJson
  import opened Scopes
  import opened Ceilings
  import opened Authorities
  import opened AuthorityWire
  import opened Bounds

  // ---- ceilings -----------------------------------------------------------

  predicate HasOnly(d: seq<Member>, names: set<string>) {
    forall i :: 0 <= i < |d| ==> d[i].name in names
  }

  /** The constraint is of this key and class: by its type where it states one, else by its key. */
  ghost predicate Routes(d: seq<Member>, key: string, class_: string) {
    Says(d, "key", JStr(key)) && (Says(d, "type", JStr(class_)) || (key == class_ && forall x :: !Says(d, "type", x)))
  }

  predicate SaysSafe(d: seq<Member>, n: int) {
    Says(d, "max", JNum(n)) && -9007199254740991 <= n <= 9007199254740991
  }

  /** The members of a list, each list and object in it a new one of this place. */
  predicate Lists(es: seq<Element>, values: seq<Json>, entry: nat, constraint: nat) {
    |es| == |values| && forall i :: 0 <= i < |es| ==>
      es[i] == if values[i].JArr? || values[i].JObj? then Ref(values[i], ReadAt(entry, constraint, i)) else Plain(values[i])
  }

  /** A field that is a text, or absent or null where there is none. */
  ghost predicate SaysField(d: seq<Member>, field: Option<string>) {
    match field
    case Some(name) => Says(d, "field", JStr(name))
    case None => forall x :: Says(d, "field", x) ==> x == JNull
  }

  ghost predicate SaysList(d: seq<Member>, name: string, es: seq<Element>, entry: nat, constraint: nat) {
    exists values :: Says(d, name, JArr(values)) && Lists(es, values, entry, constraint)
  }

  /** The object is a whole constraint of this ceiling: its class, its bound, and no member besides. */
  ghost predicate ReadsAs(d: seq<Member>, entry: nat, constraint: nat, c: Ceiling) {
    match c
    case RowLimit(n) => Routes(d, "max_rows", "max_rows") && SaysSafe(d, n) && HasOnly(d, {"key", "max"})
    case SpendCap(n) => Routes(d, "max_spend", "max_spend") && SaysSafe(d, n) && HasOnly(d, {"key", "max"})
    case CallLimit(n, None) => Routes(d, "max_calls", "max_calls") && SaysSafe(d, n) && HasOnly(d, {"key", "max"})
    case CallLimit(n, Some(pattern)) =>
      && Says(d, "key", JStr("max_calls[" + pattern + "]")) && Says(d, "type", JStr("max_calls")) && SaysSafe(d, n)
      && Says(d, "applies_to", JStr(pattern)) && (IsLiteral(pattern) || IsWildcard(pattern)) && HasOnly(d, {"key", "type", "max", "applies_to"})
    case EgressRank(level) =>
      Routes(d, "egress", "egress") && Says(d, "rank", JStr(level)) && level in {"none", "internal", "any"} && HasOnly(d, {"key", "rank"})
    case Allow(key, oneOf, field) =>
      Routes(d, key, "allow") && SaysList(d, "one_of", oneOf, entry, constraint) && SaysField(d, field) && HasOnly(d, {"key", "type", "one_of", "field"})
    case Deny(key, notOneOf, field) =>
      Routes(d, key, "deny") && SaysList(d, "not_one_of", notOneOf, entry, constraint) && SaysField(d, field)
      && HasOnly(d, {"key", "type", "not_one_of", "field"})
    case Prefix(key, prefix, field) =>
      Routes(d, key, "prefix") && Says(d, "prefix", JStr(prefix)) && SaysField(d, field) && HasOnly(d, {"key", "type", "prefix", "field"})
    case Unknown(key, raw) =>
      raw == d && exists class_ :: Routes(d, key, class_) && class_ !in {"max_rows", "max_spend", "max_calls", "egress", "allow", "deny", "prefix"}
    case _ => false
  }

  lemma OwnSays(d: seq<Member>, name: string)
    ensures forall v {:trigger Says(d, name, v)} :: Own(d, name) == Some(v) <==> Says(d, name, v)
    ensures Own(d, name).Some? ==> Says(d, name, Own(d, name).value)
  {
    hide Own, Says;
    forall v ensures Own(d, name) == Some(v) <==> Says(d, name, v) { OwnIff(d, name, v); }
  }

  lemma RoutesIff(d: seq<Member>, key: string, class_: string)
    ensures Routes(d, key, class_) <==>
              Own(d, "key") == Some(JStr(key)) && match Own(d, "type") case None => key == class_ case Some(t) => t == JStr(class_)
  {
    hide Own, Says;
    OwnSays(d, "key");
    OwnSays(d, "type");
  }

  lemma FieldIff(d: seq<Member>, field: Option<string>)
    ensures SaysField(d, field) <==> OptionalString(d, "field") == Some(field)
  {
    hide Own, Says;
    OwnSays(d, "field");
  }

  lemma ListsIff(d: seq<Member>, name: string, es: seq<Element>, entry: nat, constraint: nat)
    ensures SaysList(d, name, es, entry, constraint) <==>
              match Own(d, name) case Some(JArr(values)) => es == Elements(values, entry, constraint) case _ => false
  {
    hide Own, Says;
    OwnSays(d, name);
    forall values ensures Lists(es, values, entry, constraint) <==> es == Elements(values, entry, constraint) {}
  }

  /** What a class rebuilds from the members it reads. */
  ghost predicate Rebuilds(class_: string, key: string, d: seq<Member>, entry: nat, constraint: nat, c: Ceiling) {
    match c
    case RowLimit(n) => class_ == "max_rows" && SaysSafe(d, n)
    case SpendCap(n) => class_ == "max_spend" && SaysSafe(d, n)
    case CallLimit(n, pattern) =>
      class_ == "max_calls" && SaysSafe(d, n) && OptionalString(d, "applies_to") == Some(pattern) && (pattern.Some? ==> IsScope(P01, pattern.value))
    case EgressRank(level) => class_ == "egress" && Says(d, "rank", JStr(level)) && level in EGRESS_ORDER
    case Allow(dimension, oneOf, field) =>
      class_ == "allow" && dimension == key && SaysList(d, "one_of", oneOf, entry, constraint) && SaysField(d, field)
    case Deny(dimension, notOneOf, field) =>
      class_ == "deny" && dimension == key && SaysList(d, "not_one_of", notOneOf, entry, constraint) && SaysField(d, field)
    case Prefix(dimension, prefix, field) => class_ == "prefix" && dimension == key && Says(d, "prefix", JStr(prefix)) && SaysField(d, field)
    case Unknown(dimension, raw) =>
      dimension == key && raw == d && class_ !in {"max_rows", "max_spend", "max_calls", "egress", "allow", "deny", "prefix"}
    case _ => false
  }

  lemma SafeIff(d: seq<Member>, n: int)
    ensures SaysSafe(d, n) <==> SafeMax(d) == Some(n)
  {
    hide Own, Says;
    OwnSays(d, "max");
  }

  lemma CapRebuilds(class_: string, key: string, d: seq<Member>, entry: nat, constraint: nat, c: Ceiling)
    requires class_ in {"max_rows", "max_spend", "max_calls", "egress"}
    ensures Rebuild(class_, key, d, entry, constraint) == Some(c) <==> Rebuilds(class_, key, d, entry, constraint, c)
  {
    hide Own, Says, SafeMax, SaysSafe, OptionalString, IsScope, SaysList, SaysField;
    forall n ensures SaysSafe(d, n) <==> SafeMax(d) == Some(n) { SafeIff(d, n); }
    OwnSays(d, "rank");
    if SafeMax(d).Some? { assert SaysSafe(d, SafeMax(d).value); }
  }

  lemma MembershipRebuilds(class_: string, key: string, d: seq<Member>, entry: nat, constraint: nat, c: Ceiling)
    requires class_ in {"allow", "deny", "prefix"}
    ensures Rebuild(class_, key, d, entry, constraint) == Some(c) <==> Rebuilds(class_, key, d, entry, constraint, c)
  {
    hide Own, Says, OptionalString, SaysList, SaysField, Elements, SafeMax, SaysSafe;
    OwnSays(d, "prefix");
    forall field { FieldIff(d, field); }
    forall es { ListsIff(d, "one_of", es, entry, constraint); }
    forall es { ListsIff(d, "not_one_of", es, entry, constraint); }
  }

  lemma UnknownRebuilds(class_: string, key: string, d: seq<Member>, entry: nat, constraint: nat, c: Ceiling)
    requires class_ !in {"max_rows", "max_spend", "max_calls", "egress", "allow", "deny", "prefix"}
    ensures Rebuild(class_, key, d, entry, constraint) == Some(c) <==> Rebuilds(class_, key, d, entry, constraint, c)
  {
    hide Own, Says, OptionalString, SaysList, SaysField, SafeMax, SaysSafe;
  }

  lemma FromWireIff(d: seq<Member>, entry: nat, constraint: nat, c: Ceiling)
    ensures CeilingFromWire(JObj(d), entry, constraint) == Some(c) <==>
              exists key, class_ :: Routes(d, key, class_) && Rebuilds(class_, key, d, entry, constraint, c)
  {
    hide Own, Says, Rebuild, Rebuilds, Routes;
    forall key, class_
      ensures Rebuild(class_, key, d, entry, constraint) == Some(c) <==> Rebuilds(class_, key, d, entry, constraint, c)
      ensures Routes(d, key, class_) <==> Own(d, "key") == Some(JStr(key)) && match Own(d, "type") case None => key == class_ case Some(t) => t == JStr(class_)
    {
      RoutesIff(d, key, class_);
      if class_ in {"max_rows", "max_spend", "max_calls", "egress"} { CapRebuilds(class_, key, d, entry, constraint, c); }
      else if class_ in {"allow", "deny", "prefix"} { MembershipRebuilds(class_, key, d, entry, constraint, c); }
      else { UnknownRebuilds(class_, key, d, entry, constraint, c); }
    }
    match (Own(d, "key"), Own(d, "type"))
    case (Some(JStr(key)), None) => assert Routes(d, key, key);
    case (Some(JStr(key)), Some(JStr(t))) => assert Routes(d, key, t);
    case _ =>
  }

  /** The names a ceiling is written with. */
  function WrittenNames(c: Ceiling): set<string>
    requires !c.Unknown?
  {
    match c
    case RowLimit(_) => {"key", "max"}
    case SpendCap(_) => {"key", "max"}
    case CallLimit(_, None) => {"key", "max"}
    case CallLimit(_, Some(_)) => {"key", "type", "max", "applies_to"}
    case EgressRank(_) => {"key", "rank"}
    case Allow(key, _, field) => {"key", "type", "one_of"} + if field.Some? && field.value != key then {"field"} else {}
    case Deny(key, _, field) => {"key", "type", "not_one_of"} + if field.Some? && field.value != key then {"field"} else {}
    case Prefix(key, _, field) => {"key", "type", "prefix"} + if field.Some? && field.value != key then {"field"} else {}
    case Max(_, _) => {"key", "max"}
    case Min(_, _) => {"key", "min"}
    case MaxLifetime(_, _) => {"key", "max_lifetime"}
    case MaxSubtree(_, _) => {"key", "max_subtree"}
    case Rank(_, _, _) => {"key", "rank", "order"}
  }

  lemma NamedIff(d: seq<Member>, name: string)
    ensures Own(d, name).Some? <==> exists i :: 0 <= i < |d| && d[i].name == name
  {
  }

  lemma WrittenCap(c: Ceiling, name: string)
    requires c.RowLimit? || c.SpendCap? || c.CallLimit? || c.EgressRank?
    ensures Own(CeilingToWire(c), name).Some? <==> name in WrittenNames(c)
  {
    hide Own, KeyOf;
    NamedIff(CeilingToWire(c), name);
  }

  lemma WrittenBound(c: Ceiling, name: string)
    requires c.Max? || c.Min? || c.MaxLifetime? || c.MaxSubtree? || c.Rank?
    ensures Own(CeilingToWire(c), name).Some? <==> name in WrittenNames(c)
  {
    hide Own, KeyOf;
    NamedIff(CeilingToWire(c), name);
  }

  lemma {:induction false} NamedInEither(x: seq<Member>, y: seq<Member>, name: string)
    ensures Own(x + y, name).Some? <==> Own(x, name).Some? || Own(y, name).Some?
  {
    if x == [] {
      assert x + y == y;
    } else {
      NamedInEither(x[1..], y, name);
      assert (x + y)[1..] == x[1..] + y;
    }
  }

  /** The members of a membership ceiling before its field. */
  function Stated(c: Ceiling): seq<Member>
    requires IsMembership(c)
  {
    [Member("key", JStr(c.dimension)), Member("type", JStr(TypeName(c))), ValueMember(c)]
  }

  lemma WrittenMembership(c: Ceiling, name: string)
    requires IsMembership(c)
    ensures Own(CeilingToWire(c), name).Some? <==> name in WrittenNames(c)
  {
    hide Own, Values;
    assert CeilingToWire(c) == Stated(c) + FieldMember(c);
    NamedInEither(Stated(c), FieldMember(c), name);
    NamedIff(Stated(c), name);
    NamedIff(FieldMember(c), name);
    StatedNames(c, name);
    hide CeilingToWire, ValueMember, Stated;
  }

  lemma StatedNames(c: Ceiling, name: string)
    requires IsMembership(c)
    ensures (exists i :: 0 <= i < |Stated(c)| && Stated(c)[i].name == name) <==> name in {"key", "type", ValueMember(c).name}
    ensures ValueMember(c).name == if c.Allow? then "one_of" else if c.Deny? then "not_one_of" else "prefix"
  {
    hide Values;
    assert Stated(c)[0].name == "key" && Stated(c)[1].name == "type" && Stated(c)[2].name == ValueMember(c).name;
  }

  lemma KeyWritten(c: Ceiling)
    requires !c.Unknown?
    ensures Own(CeilingToWire(c), "key") == Some(JStr(KeyOf(c)))
  {
    hide Values;
    assert CeilingToWire(c)[0] == Member("key", JStr(KeyOf(c)));
  }

  lemma WrittenIff(c: Ceiling, name: string)
    requires !c.Unknown?
    ensures Own(CeilingToWire(c), name).Some? <==> name in WrittenNames(c)
    ensures Own(CeilingToWire(c), "key") == Some(JStr(KeyOf(c)))
  {
    hide Own, CeilingToWire, WrittenNames, KeyOf;
    KeyWritten(c);
    if IsMembership(c) { WrittenMembership(c, name); }
    else if c.RowLimit? || c.SpendCap? || c.CallLimit? || c.EgressRank? { WrittenCap(c, name); }
    else { WrittenBound(c, name); }
  }

  /** Read whole: the key is the ceiling's own, and every member is one it is written with or the field it holds. */
  ghost predicate IsWhole(d: seq<Member>, c: Ceiling) {
    c.Unknown? || (Says(d, "key", JStr(KeyOf(c))) &&
      forall i :: 0 <= i < |d| ==> d[i].name in WrittenNames(c) || (d[i].name == "field" && IsMembership(c)))
  }

  lemma FieldHeld(d: seq<Member>, c: Ceiling)
    requires IsMembership(c) && SaysField(d, c.field) && Own(d, "field").Some?
    ensures HoldsField(c, Own(d, "field"))
  {
    hide Own, Says;
    OwnSays(d, "field");
  }

  lemma MemberHasOwn(d: seq<Member>, m: Member)
    requires m in d
    ensures Own(d, m.name).Some?
  {
  }

  lemma KnownIsWhole(d: seq<Member>, c: Ceiling)
    requires !c.Unknown? && (IsMembership(c) ==> SaysField(d, c.field))
    ensures IsWhole(d, c) <==>
              Own(CeilingToWire(c), "key") == Own(d, "key")
              && forall m :: m in d ==> Own(CeilingToWire(c), m.name).Some? || (m.name == "field" && HoldsField(c, Own(d, "field")))
  {
    hide Own, Says, CeilingToWire, WrittenNames, SaysField, HoldsField, KeyOf;
    OwnSays(d, "key");
    WrittenIff(c, "key");
    forall name ensures Own(CeilingToWire(c), name).Some? <==> name in WrittenNames(c) { WrittenIff(c, name); }
    forall m | m in d ensures m.name == "field" ==> (HoldsField(c, Own(d, "field")) <==> IsMembership(c)) {
      if m.name == "field" {
        MemberHasOwn(d, m);
        if IsMembership(c) { FieldHeld(d, c); } else { NoFieldHeld(d, c); }
      }
    }
    if IsWhole(d, c) {
      forall m | m in d ensures Own(CeilingToWire(c), m.name).Some? || (m.name == "field" && HoldsField(c, Own(d, "field"))) {
        var i :| 0 <= i < |d| && d[i] == m;
      }
    }
    if forall m :: m in d ==> Own(CeilingToWire(c), m.name).Some? || (m.name == "field" && HoldsField(c, Own(d, "field"))) {
      forall i | 0 <= i < |d| ensures d[i].name in WrittenNames(c) || (d[i].name == "field" && IsMembership(c)) { assert d[i] in d; }
    }
  }

  lemma NoFieldHeld(d: seq<Member>, c: Ceiling)
    requires !IsMembership(c)
    ensures !HoldsField(c, Own(d, "field"))
  {
  }

  lemma UnknownIsWhole(d: seq<Member>, c: Ceiling)
    requires c.Unknown? && c.raw == d
    ensures Own(CeilingToWire(c), "key") == Own(d, "key") && forall m :: m in d ==> Own(CeilingToWire(c), m.name).Some?
  {
    forall m | m in d ensures Own(d, m.name).Some? { MemberHasOwn(d, m); }
  }

  lemma RebuiltField(class_: string, key: string, d: seq<Member>, entry: nat, constraint: nat, c: Ceiling)
    requires Rebuilds(class_, key, d, entry, constraint, c)
    ensures IsMembership(c) ==> SaysField(d, c.field)
    ensures c.Unknown? ==> c.raw == d
  {
  }

  lemma WholeIff(d: seq<Member>, entry: nat, constraint: nat, c: Ceiling)
    ensures CeilingFromWireWhole(JObj(d), entry, constraint) == Some(c) <==>
              IsWhole(d, c) && exists key, class_ :: Routes(d, key, class_) && Rebuilds(class_, key, d, entry, constraint, c)
  {
    hide Own, Says, IsWhole, CeilingFromWire, Rebuilds, Routes, CeilingToWire, HoldsField;
    FromWireIff(d, entry, constraint, c);
    if key, class_ :| Routes(d, key, class_) && Rebuilds(class_, key, d, entry, constraint, c) {
      RebuiltField(class_, key, d, entry, constraint, c);
      if c.Unknown? {
        UnknownIsWhole(d, c);
        assert IsWhole(d, c) by { UnknownWhole(d, c); }
      } else {
        KnownIsWhole(d, c);
      }
    }
  }

  lemma UnknownWhole(d: seq<Member>, c: Ceiling)
    requires c.Unknown?
    ensures IsWhole(d, c)
  {
  }

  lemma OneKey(d: seq<Member>, key: string, class_: string, other: string)
    requires Routes(d, key, class_) && Says(d, "key", JStr(other))
    ensures key == other
  {
    hide Own, Says;
    OwnSays(d, "key");
    assert Own(d, "key") == Some(JStr(key)) && Own(d, "key") == Some(JStr(other));
  }

  lemma SaysNoOther(d: seq<Member>, names: set<string>, name: string)
    requires HasOnly(d, names) && name !in names
    ensures forall x :: !Says(d, name, x)
  {
  }

  /** A class whose key is fixed. */
  lemma FixedForm(d: seq<Member>, entry: nat, constraint: nat, c: Ceiling, class_: string)
    requires (c.RowLimit? && class_ == "max_rows") || (c.SpendCap? && class_ == "max_spend") || (c.EgressRank? && class_ == "egress")
    ensures ReadsAs(d, entry, constraint, c) <==>
              IsWhole(d, c) && exists key, k :: Routes(d, key, k) && Rebuilds(k, key, d, entry, constraint, c)
  {
    hide Says, Routes, SaysSafe;
    if key, k :| Routes(d, key, k) && Rebuilds(k, key, d, entry, constraint, c) {
      if IsWhole(d, c) { OneKey(d, key, k, class_); }
    }
    if Routes(d, class_, class_) { RoutedKey(d, class_, class_); }
  }

  lemma RoutedKey(d: seq<Member>, key: string, class_: string)
    requires Routes(d, key, class_)
    ensures Says(d, "key", JStr(key))
  {
  }

  lemma AppliesIff(d: seq<Member>, pattern: Option<string>)
    ensures OptionalString(d, "applies_to") == Some(pattern) <==>
              match pattern case Some(p) => Says(d, "applies_to", JStr(p)) case None => forall x :: Says(d, "applies_to", x) ==> x == JNull
  {
    hide Own, Says;
    OwnSays(d, "applies_to");
  }

  lemma CountForm(d: seq<Member>, entry: nat, constraint: nat, c: Ceiling)
    requires c.CallLimit?
    ensures ReadsAs(d, entry, constraint, c) <==>
              IsWhole(d, c) && exists key, k :: Routes(d, key, k) && Rebuilds(k, key, d, entry, constraint, c)
  {
    hide Says, Routes, SaysSafe, OptionalString;
    AppliesIff(d, c.appliesTo);
    if key, k :| Routes(d, key, k) && Rebuilds(k, key, d, entry, constraint, c) {
      if IsWhole(d, c) {
        OneKey(d, key, k, KeyOf(c));
        CountRoutes(d, c.appliesTo);
      }
    }
    if ReadsAs(d, entry, constraint, c) {
      CountRoutes(d, c.appliesTo);
      if c.appliesTo.None? {
        RoutedKey(d, "max_calls", "max_calls");
        SaysNoOther(d, {"key", "max"}, "applies_to");
      }
      assert Rebuilds("max_calls", KeyOf(c), d, entry, constraint, c);
    }
  }

  lemma CountRoutes(d: seq<Member>, pattern: Option<string>)
    ensures match pattern
            case None => true
            case Some(p) =>
              Routes(d, "max_calls[" + p + "]", "max_calls") <==> Says(d, "key", JStr("max_calls[" + p + "]")) && Says(d, "type", JStr("max_calls"))
  {
    hide Says;
    if pattern.Some? { assert |"max_calls[" + pattern.value + "]"| > |"max_calls"|; }
  }

  lemma MembershipForm(d: seq<Member>, entry: nat, constraint: nat, c: Ceiling)
    requires IsMembership(c)
    ensures ReadsAs(d, entry, constraint, c) <==>
              IsWhole(d, c) && exists key, k :: Routes(d, key, k) && Rebuilds(k, key, d, entry, constraint, c)
  {
    hide Says, Routes, SaysList, SaysField;
    if key, k :| Routes(d, key, k) && Rebuilds(k, key, d, entry, constraint, c) {
      RoutedKey(d, key, k);
    }
    if ReadsAs(d, entry, constraint, c) {
      RoutedKey(d, c.dimension, TypeName(c));
      assert Rebuilds(TypeName(c), c.dimension, d, entry, constraint, c);
    }
  }

  lemma FormIff(d: seq<Member>, entry: nat, constraint: nat, c: Ceiling)
    ensures ReadsAs(d, entry, constraint, c) <==>
              IsWhole(d, c) && exists key, k :: Routes(d, key, k) && Rebuilds(k, key, d, entry, constraint, c)
  {
    hide Says, Routes, SaysList, SaysField, SaysSafe, OptionalString, KeyOf, WrittenNames, IsScope;
    match c
    case RowLimit(_) => FixedForm(d, entry, constraint, c, "max_rows");
    case SpendCap(_) => FixedForm(d, entry, constraint, c, "max_spend");
    case EgressRank(_) => FixedForm(d, entry, constraint, c, "egress");
    case CallLimit(_, _) => CountForm(d, entry, constraint, c);
    case Unknown(_, _) =>
    case Allow(_, _, _) => MembershipForm(d, entry, constraint, c);
    case Deny(_, _, _) => MembershipForm(d, entry, constraint, c);
    case Prefix(_, _, _) => MembershipForm(d, entry, constraint, c);
    case _ =>
  }

  /** A wire object is read whole as a ceiling exactly when it is a whole constraint of it. */
  lemma CeilingReadIff(d: seq<Member>, entry: nat, constraint: nat, c: Ceiling)
    ensures CeilingFromWireWhole(JObj(d), entry, constraint) == Some(c) <==> ReadsAs(d, entry, constraint, c)
  {
    hide CeilingFromWireWhole, SaysList, SaysField, Says;
    WholeIff(d, entry, constraint, c);
    FormIff(d, entry, constraint, c);
  }

  // ---- authorities --------------------------------------------------------

  /** A list of texts, or no member at all. */
  ghost predicate SaysTexts(d: seq<Member>, name: string, texts: seq<string>) {
    || (texts == [] && forall x :: !Says(d, name, x))
    || (exists items :: Says(d, name, JArr(items)) && AreTexts(items, texts))
  }

  predicate AreTexts(items: seq<Json>, texts: seq<string>) {
    |items| == |texts| && forall i :: 0 <= i < |items| ==> items[i] == JStr(texts[i])
  }

  ghost predicate SaysCeilings(d: seq<Member>, entry: nat, ceilings: seq<Ceiling>) {
    || (ceilings == [] && forall x :: !Says(d, "constraints", x))
    || (exists items :: Says(d, "constraints", JArr(items)) && AreCeilings(items, entry, ceilings))
  }

  ghost predicate AreCeilings(items: seq<Json>, entry: nat, ceilings: seq<Ceiling>) {
    |items| == |ceilings| && forall i :: 0 <= i < |items| ==> items[i].JObj? && ReadsAs(items[i].members, entry, i, ceilings[i])
  }

  ghost predicate SaysTtl(d: seq<Member>, ttl: Option<int>) {
    match ttl
    case Some(n) => Says(d, "ttl", JNum(n))
    case None => forall x :: Says(d, "ttl", x) ==> x == JNull
  }

  /** An object of scopes, constraints and a ttl, read whole: scopes of the grammar, each once, and one ceiling to a key. */
  ghost predicate StatesAuthority(d: seq<Member>, entry: nat, a: Authority) {
    && HasOnly(d, {"scopes", "constraints", "ttl"}) && a.profile == P01
    && (exists texts :: SaysTexts(d, "scopes", texts) && a.scopes == Dedup(texts)
                        && forall i :: 0 <= i < |texts| ==> IsLiteral(texts[i]) || IsWildcard(texts[i]))
    && SaysCeilings(d, entry, a.ceilings)
    && (forall i, j :: 0 <= i < j < |a.ceilings| ==> KeyOf(a.ceilings[i]) != KeyOf(a.ceilings[j]))
    && SaysTtl(d, a.ttl)
  }

  lemma TextsIff(d: seq<Member>, texts: seq<string>)
    ensures SaysTexts(d, "scopes", texts) <==> ReadScopes(Own(d, "scopes")) == Some(texts)
  {
    hide Own, Says;
    OwnSays(d, "scopes");
    match Own(d, "scopes")
    case Some(JArr(items)) =>
      if AreTexts(items, texts) { assert seq(|items|, i requires 0 <= i < |items| => if items[i].JStr? then items[i].text else "") == texts; }
    case _ =>
  }

  lemma CeilingsReadIff(items: seq<Json>, entry: nat, ceilings: seq<Ceiling>)
    ensures AreCeilings(items, entry, ceilings) <==> ReadConstraints(Some(JArr(items)), entry) == Some(ceilings)
  {
    hide ReadsAs, CeilingFromWireWhole;
    forall i: nat, c | i < |items|
      ensures CeilingFromWireWhole(items[i], entry, i) == Some(c) <==> items[i].JObj? && ReadsAs(items[i].members, entry, i, c)
    {
      if items[i].JObj? { CeilingReadIff(items[i].members, entry, i, c); } else { OnlyObjects(items[i], entry, i); }
    }
    if AreCeilings(items, entry, ceilings) {
      forall i | 0 <= i < |items| ensures CeilingFromWireWhole(items[i], entry, i) == Some(ceilings[i]) { assert ReadsAs(items[i].members, entry, i, ceilings[i]); }
      assert ReadConstraints(Some(JArr(items)), entry).value == ceilings;
    } else if ReadConstraints(Some(JArr(items)), entry) == Some(ceilings) {
      forall i | 0 <= i < |items| ensures items[i].JObj? && ReadsAs(items[i].members, entry, i, ceilings[i]) {
        assert CeilingFromWireWhole(items[i], entry, i) == Some(ceilings[i]);
      }
    }
  }

  lemma OnlyObjects(wire: Json, entry: nat, constraint: nat)
    requires !wire.JObj?
    ensures CeilingFromWireWhole(wire, entry, constraint).None?
  {
  }

  lemma CeilingsIff(d: seq<Member>, entry: nat, ceilings: seq<Ceiling>)
    ensures SaysCeilings(d, entry, ceilings) <==> ReadConstraints(Own(d, "constraints"), entry) == Some(ceilings)
  {
    OwnSays(d, "constraints");
    hide Own, Says, AreCeilings;
    match Own(d, "constraints")
    case Some(JArr(items)) => CeilingsReadIff(items, entry, ceilings);
    case _ =>
  }

  lemma TtlReadIff(d: seq<Member>, ttl: Option<int>)
    ensures SaysTtl(d, ttl) <==> ReadTtl(Own(d, "ttl")) == Some(ttl)
  {
    hide Own, Says;
    OwnSays(d, "ttl");
  }

  lemma OnlyIff(d: seq<Member>, names: set<string>)
    ensures HasOnly(d, names) <==> !exists m :: m in d && m.name !in names
  {
    if m :| m in d && m.name !in names { var i :| 0 <= i < |d| && d[i] == m; }
  }

  lemma ConstructIff(texts: seq<string>, ceilings: seq<Ceiling>, ttl: Option<int>, a: Authority)
    ensures Construct(texts, ceilings, ttl, P01) == Some(a) <==>
              && a == Authority(Dedup(texts), ceilings, ttl, P01)
              && (forall i :: 0 <= i < |texts| ==> IsLiteral(texts[i]) || IsWildcard(texts[i]))
              && forall i, j :: 0 <= i < j < |ceilings| ==> KeyOf(ceilings[i]) != KeyOf(ceilings[j])
  {
    hide IsLiteral, IsWildcard, KeyOf, WellFormed, Dedup;
    assert DistinctKeys(P01, ceilings) <==> forall i, j :: 0 <= i < j < |ceilings| ==> KeyOf(ceilings[i]) != KeyOf(ceilings[j]);
  }

  /** An entry's authority member is read exactly where it states an authority, and then as the one it states. */
  lemma AuthorityReadIff(wire: Option<Json>, entry: nat, a: Authority)
    ensures ReadAuthority(wire, entry) == Some(a) <==> wire.Some? && wire.value.JObj? && StatesAuthority(wire.value.members, entry, a)
  {
    hide Own, Says, SaysTexts, SaysCeilings, SaysTtl, ReadScopes, ReadConstraints, ReadTtl, Construct, HasOnly, KeyOf, IsLiteral, IsWildcard, Dedup, Valid;
    match wire
    case Some(JObj(d)) =>
      OnlyIff(d, {"scopes", "constraints", "ttl"});
      forall texts { TextsIff(d, texts); }
      CeilingsIff(d, entry, a.ceilings);
      TtlReadIff(d, a.ttl);
      var scopes, ceilings, ttl := ReadScopes(Own(d, "scopes")), ReadConstraints(Own(d, "constraints"), entry), ReadTtl(Own(d, "ttl"));
      if scopes.Some? && ceilings.Some? && ttl.Some? { ConstructIff(scopes.value, ceilings.value, ttl.value, a); }
    case _ =>
  }
}
