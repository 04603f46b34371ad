/**
 * The default profile's wire form of ceilings and authorities, written by `toWire` and read back whole by
 * `fromWire` (src/ceilings.ts, src/authority.ts, and `authorityWireError` of src/evidence.ts). A field that only
 * repeats its dimension is not written, and is read back as absent.
 */
module AuthorityWire {
  import opened Results
  import opened PlainJson
  import opened Scopes
  import opened Ceilings
  import opened Authorities

  // ---- ceilings -----------------------------------------------------------

  function FieldMember(c: Ceiling): seq<Member>
    requires IsMembership(c)
  {
    match c.field
    case Some(f) => if f == c.dimension then [] else [Member("field", JStr(f))]
    case None => []
  }

  function Values(es: seq<Element>): (r: seq<Json>)
    ensures |r| == |es| && forall i :: 0 <= i < |es| ==> r[i] == es[i].value
  {
    seq(|es|, i requires 0 <= i < |es| => es[i].value)
  }

  /** The members a list is read as: each list and object in it is a new one. */
  function Elements(values: seq<Json>, entry: nat, constraint: nat): (r: seq<Element>)
    ensures |r| == |values| && forall i :: 0 <= i < |r| ==> r[i].value == values[i] && (r[i].Ref? <==> IsComposite(values[i]))
    ensures forall i :: 0 <= i < |r| && r[i].Ref? ==> r[i].id == ReadAt(entry, constraint, i)
  {
    seq(|values|, i requires 0 <= i < |values| =>
          if IsComposite(values[i]) then Ref(values[i], ReadAt(entry, constraint, i)) else Plain(values[i]))
  }

  function CeilingToWire(c: Ceiling): seq<Member> {
    match c
    case RowLimit(n) => [Member("key", JStr("max_rows")), Member("max", JNum(n))]
    case SpendCap(n) => [Member("key", JStr("max_spend")), Member("max", JNum(n))]
    case CallLimit(n, None) => [Member("key", JStr("max_calls")), Member("max", JNum(n))]
    case CallLimit(n, Some(pattern)) =>
      [Member("key", JStr(KeyOf(c))), Member("type", JStr("max_calls")), Member("max", JNum(n)), Member("applies_to", JStr(pattern))]
    case EgressRank(level) => [Member("key", JStr("egress")), Member("rank", JStr(level))]
    case Allow(key, oneOf, _) => [Member("key", JStr(key)), Member("type", JStr("allow")), Member("one_of", JArr(Values(oneOf)))] + FieldMember(c)
    case Deny(key, notOneOf, _) => [Member("key", JStr(key)), Member("type", JStr("deny")), Member("not_one_of", JArr(Values(notOneOf)))] + FieldMember(c)
    case Prefix(key, prefix, _) => [Member("key", JStr(key)), Member("type", JStr("prefix")), Member("prefix", JStr(prefix))] + FieldMember(c)
    case Unknown(_, raw) => raw
    case Max(key, n) => [Member("key", JStr(key)), Member("max", JNum(n))]
    case Min(key, n) => [Member("key", JStr(key)), Member("min", JNum(n))]
    case MaxLifetime(key, n) => [Member("key", JStr(key)), Member("max_lifetime", JNum(n))]
    case MaxSubtree(key, n) => [Member("key", JStr(key)), Member("max_subtree", JNum(n))]
    case Rank(key, rank, order) =>
      [Member("key", JStr(key)), Member("rank", JStr(rank)), Member("order", JArr(seq(|order|, i requires 0 <= i < |order| => JStr(order[i]))))]
  }

  /** A member that is a string, or absent or null for unset; `None` is malformed. */
  function OptionalString(d: seq<Member>, name: string): Option<Option<string>> {
    match Declared(d, name)
    case None => Some(None)
    case Some(JStr(s)) => Some(Some(s))
    case Some(_) => None
  }

  function SafeMax(d: seq<Member>): Option<int> {
    match Own(d, "max")
    case Some(JNum(n)) => if IsSafe(n) then Some(n) else None
    case _ => None
  }

  const REGISTRY: set<string> := {"max_rows", "max_spend", "max_calls", "egress", "allow", "deny", "prefix"}

  /** The registered class for a discriminator rebuilds itself, from an entry's constraint; `None` is a TypeError. */
  function Rebuild(discriminator: string, key: string, d: seq<Member>, entry: nat, constraint: nat): (r: Option<Ceiling>)
    ensures r.Some? ==> WellFormed(r.value)
  {
    if discriminator == "max_rows" then
      (match SafeMax(d) case Some(n) => Some(RowLimit(n)) case None => None)
    else if discriminator == "max_spend" then
      (match SafeMax(d) case Some(n) => Some(SpendCap(n)) case None => None)
    else if discriminator == "max_calls" then
      (match (SafeMax(d), OptionalString(d, "applies_to"))
       case (Some(n), Some(pattern)) =>
         if pattern.Some? && !IsScope(P01, pattern.value) then None else Some(CallLimit(n, pattern))
       case _ => None)
    else if discriminator == "egress" then
      (match Own(d, "rank")
       case Some(JStr(level)) => if level in EGRESS_ORDER then Some(EgressRank(level)) else None
       case _ => None)
    else if discriminator == "allow" then
      (match (Own(d, "one_of"), OptionalString(d, "field"))
       case (Some(JArr(oneOf)), Some(field)) => Some(Allow(key, Elements(oneOf, entry, constraint), field))
       case _ => None)
    else if discriminator == "deny" then
      (match (Own(d, "not_one_of"), OptionalString(d, "field"))
       case (Some(JArr(notOneOf)), Some(field)) => Some(Deny(key, Elements(notOneOf, entry, constraint), field))
       case _ => None)
    else if discriminator == "prefix" then
      (match (Own(d, "prefix"), OptionalString(d, "field"))
       case (Some(JStr(prefix)), Some(field)) => Some(Prefix(key, prefix, field))
       case _ => None)
    else Some(Unknown(key, d))
  }

  /** `ceilingFromWire`: routed on `type` when present, else on `key`; unregistered fails closed. */
  function CeilingFromWire(wire: Json, entry: nat, constraint: nat): (r: Option<Ceiling>)
    ensures r.Some? ==> wire.JObj? && WellFormed(r.value)
  {
    match wire
    case JObj(d) =>
      (match (Own(d, "key"), Own(d, "type"))
       case (Some(JStr(key)), None) => Rebuild(key, key, d, entry, constraint)
       case (Some(JStr(key)), Some(JStr(t))) => Rebuild(t, key, d, entry, constraint)
       case _ => None)
    case _ => None
  }

  /** Was `field` read: the ceiling holds exactly the input's value for it. */
  predicate HoldsField(c: Ceiling, input: Option<Json>) {
    IsMembership(c) &&
    match (c.field, input)
    case (Some(f), Some(JStr(g))) => f == g
    case (None, Some(JNull)) => true
    case _ => false
  }

  /** `ceilingFromWireWhole`: refuse a constraint this build would only partly read. */
  function CeilingFromWireWhole(wire: Json, entry: nat, constraint: nat): (r: Option<Ceiling>)
    ensures r.Some? ==> wire.JObj? && WellFormed(r.value)
    ensures r.Some? ==> Own(wire.members, "key") == Own(CeilingToWire(r.value), "key")
    ensures r.Some? ==> forall m :: m in wire.members ==>
      Own(CeilingToWire(r.value), m.name).Some? || (m.name == "field" && HoldsField(r.value, Own(wire.members, "field")))
  {
    match CeilingFromWire(wire, entry, constraint)
    case None => None
    case Some(c) =>
      var emitted := CeilingToWire(c);
      if Own(emitted, "key") != Own(wire.members, "key") then None
      else if forall m :: m in wire.members ==>
        Own(emitted, m.name).Some? || (m.name == "field" && HoldsField(c, Own(wire.members, "field"))) then Some(c)
      else None
  }

  /** The seven built-in classes, and an unknown constraint as the wire carries one. */
  predicate IsBuiltin(c: Ceiling) {
    WellFormed(c) &&
    match c
    case RowLimit(_) => true
    case SpendCap(_) => true
    case CallLimit(_, _) => true
    case EgressRank(_) => true
    case Unknown(key, raw) => CeilingFromWire(JObj(raw), 0, 0) == Some(c)
    case _ => IsMembership(c)
  }

  /** What reading a ceiling back yields: a field that names the key is not re-emitted, and lists and objects are new. */
  function Reread(c: Ceiling, entry: nat, constraint: nat): Ceiling {
    if !IsMembership(c) then c
    else
      var field := if c.field == Some(c.dimension) then None else c.field;
      match c
      case Allow(key, oneOf, _) => Allow(key, Elements(Values(oneOf), entry, constraint), field)
      case Deny(key, notOneOf, _) => Deny(key, Elements(Values(notOneOf), entry, constraint), field)
      case Prefix(key, prefix, _) => Prefix(key, prefix, field)
  }

  // ---- reading back what was written --------------------------------------

  lemma {:induction false} OwnAt(members: seq<Member>, i: nat)
    requires i < |members| && forall j :: 0 <= j < i ==> members[j].name != members[i].name
    ensures Own(members, members[i].name) == Some(members[i].value)
  {
    if i > 0 { OwnAt(members[1..], i - 1); }
  }

  /** A constraint that reads as a ceiling with the same emission is read whole. */
  lemma ReadWhole(c: Ceiling, r: Ceiling, entry: nat, constraint: nat)
    requires CeilingFromWire(JObj(CeilingToWire(c)), entry, constraint) == Some(r) && CeilingToWire(r) == CeilingToWire(c)
    ensures CeilingFromWireWhole(JObj(CeilingToWire(c)), entry, constraint) == Some(r)
  {
  }

  lemma CapRoundTrip(c: Ceiling, entry: nat, constraint: nat)
    requires IsBuiltin(c) && (c.RowLimit? || c.SpendCap? || (c.CallLimit? && c.appliesTo.None?))
    ensures CeilingFromWire(JObj(CeilingToWire(c)), entry, constraint) == Some(c)
  {
    var d := CeilingToWire(c);
    OwnAt(d, 0);
    OwnAt(d, 1);
    assert Own(d, "type").None? && Own(d, "applies_to").None?;
  }

  lemma ScopedCallRebuilt(n: int, pattern: string, key: string, d: seq<Member>, entry: nat, constraint: nat)
    requires IsSafe(n) && IsScope(P01, pattern)
    requires Own(d, "max") == Some(JNum(n)) && Own(d, "applies_to") == Some(JStr(pattern))
    ensures Rebuild("max_calls", key, d, entry, constraint) == Some(CallLimit(n, Some(pattern)))
  {
    assert SafeMax(d) == Some(n);
    assert OptionalString(d, "applies_to") == Some(Some(pattern));
  }

  lemma ScopedCallMembers(n: int, pattern: string, key: string, d: seq<Member>)
    requires d == [Member("key", JStr(key)), Member("type", JStr("max_calls")), Member("max", JNum(n)), Member("applies_to", JStr(pattern))]
    ensures Own(d, "key") == Some(JStr(key)) && Own(d, "type") == Some(JStr("max_calls"))
    ensures Own(d, "max") == Some(JNum(n)) && Own(d, "applies_to") == Some(JStr(pattern))
  {
    hide Own;
    OwnAt(d, 0);
    OwnAt(d, 1);
    OwnAt(d, 2);
    OwnAt(d, 3);
  }

  lemma ScopedCallRoundTrip(c: Ceiling, entry: nat, constraint: nat)
    requires IsBuiltin(c) && c.CallLimit? && c.appliesTo.Some?
    ensures CeilingFromWire(JObj(CeilingToWire(c)), entry, constraint) == Some(c)
  {
    hide Own, Rebuild;
    var d := CeilingToWire(c);
    ScopedCallMembers(c.maxCalls, c.appliesTo.value, KeyOf(c), d);
    ScopedCallRebuilt(c.maxCalls, c.appliesTo.value, KeyOf(c), d, entry, constraint);
  }

  lemma EgressRoundTrip(c: Ceiling, entry: nat, constraint: nat)
    requires IsBuiltin(c) && c.EgressRank?
    ensures CeilingFromWire(JObj(CeilingToWire(c)), entry, constraint) == Some(c)
  {
    var d := CeilingToWire(c);
    OwnAt(d, 0);
    OwnAt(d, 1);
    assert Own(d, "type").None?;
  }

  function TypeName(c: Ceiling): string
    requires IsMembership(c)
  {
    if c.Allow? then "allow" else if c.Deny? then "deny" else "prefix"
  }

  function ValueMember(c: Ceiling): Member
    requires IsMembership(c)
  {
    match c
    case Allow(_, oneOf, _) => Member("one_of", JArr(Values(oneOf)))
    case Deny(_, notOneOf, _) => Member("not_one_of", JArr(Values(notOneOf)))
    case Prefix(_, prefix, _) => Member("prefix", JStr(prefix))
  }

  lemma MembershipRead(c: Ceiling, d: seq<Member>, entry: nat, constraint: nat)
    requires IsMembership(c) && OptionalString(d, "field") == Some(Reread(c, entry, constraint).field)
    requires Own(d, "key") == Some(JStr(c.dimension)) && Own(d, "type") == Some(JStr(TypeName(c)))
    requires Own(d, ValueMember(c).name) == Some(ValueMember(c).value)
    ensures CeilingFromWire(JObj(d), entry, constraint) == Some(Reread(c, entry, constraint))
  {
    hide Own, OptionalString, Elements, Values;
  }

  lemma MembershipRoundTrip(c: Ceiling, entry: nat, constraint: nat)
    requires IsMembership(c)
    ensures CeilingFromWire(JObj(CeilingToWire(c)), entry, constraint) == Some(Reread(c, entry, constraint))
  {
    var d := CeilingToWire(c);
    assert d == [Member("key", JStr(c.dimension)), Member("type", JStr(TypeName(c))), ValueMember(c)] + FieldMember(c);
    MembershipMembers(c, d, entry, constraint);
    MembershipRead(c, d, entry, constraint);
  }

  lemma MembershipMembers(c: Ceiling, d: seq<Member>, entry: nat, constraint: nat)
    requires IsMembership(c)
    requires d == [Member("key", JStr(c.dimension)), Member("type", JStr(TypeName(c))), ValueMember(c)] + FieldMember(c)
    ensures Own(d, "key") == Some(JStr(c.dimension)) && Own(d, "type") == Some(JStr(TypeName(c)))
    ensures Own(d, ValueMember(c).name) == Some(ValueMember(c).value)
    ensures OptionalString(d, "field") == Some(Reread(c, entry, constraint).field)
  {
    assert d[0].name == "key" && d[1].name == "type" && d[2] == ValueMember(c);
    ValueNameIsNew(c);
    OwnAt(d, 0);
    OwnAt(d, 1);
    OwnAt(d, 2);
    FieldRead(c, d, entry, constraint);
  }

  lemma ValueNameIsNew(c: Ceiling)
    requires IsMembership(c)
    ensures ValueMember(c).name !in ["key", "type", "field"]
  {
  }

  lemma FieldRead(c: Ceiling, d: seq<Member>, entry: nat, constraint: nat)
    requires IsMembership(c) && |d| == 3 + |FieldMember(c)| && d[3..] == FieldMember(c)
    requires d[0].name == "key" && d[1].name == "type" && d[2] == ValueMember(c)
    ensures OptionalString(d, "field") == Some(Reread(c, entry, constraint).field)
  {
    ValueNameIsNew(c);
    if FieldMember(c) == [] {
      assert Own(d, "field").None?;
    } else {
      assert d[3] == FieldMember(c)[0];
      OwnAt(d, 3);
    }
  }

  /** Read back or not, a list is written alike. */
  lemma ReadValues(es: seq<Element>, entry: nat, constraint: nat)
    ensures Values(Elements(Values(es), entry, constraint)) == Values(es)
  {
  }

  lemma RereadWritesAlike(c: Ceiling, entry: nat, constraint: nat)
    ensures CeilingToWire(Reread(c, entry, constraint)) == CeilingToWire(c)
  {
    match c
    case Allow(_, oneOf, _) => ReadValues(oneOf, entry, constraint);
    case Deny(_, notOneOf, _) => ReadValues(notOneOf, entry, constraint);
    case _ =>
  }

  /** Only lists are read as something new. */
  lemma ReadAnywhere(wire: Json, entry: nat, constraint: nat, c: Ceiling)
    requires CeilingFromWire(wire, 0, 0) == Some(c) && c.Unknown?
    ensures CeilingFromWire(wire, entry, constraint) == Some(c)
  {
  }

  /** A built-in ceiling's wire form reads back whole, as the same ceiling but for a redundant field and new lists and objects. */
  lemma CeilingRoundTrip(c: Ceiling, entry: nat, constraint: nat)
    requires IsBuiltin(c)
    ensures CeilingFromWireWhole(JObj(CeilingToWire(c)), entry, constraint) == Some(Reread(c, entry, constraint))
  {
    if IsMembership(c) { MembershipRoundTrip(c, entry, constraint); }
    else if c.EgressRank? { EgressRoundTrip(c, entry, constraint); }
    else if c.CallLimit? && c.appliesTo.Some? { ScopedCallRoundTrip(c, entry, constraint); }
    else if c.Unknown? { ReadAnywhere(JObj(c.raw), entry, constraint, c); }
    else { CapRoundTrip(c, entry, constraint); }
    RereadWritesAlike(c, entry, constraint);
    ReadWhole(c, Reread(c, entry, constraint), entry, constraint);
  }

  // ---- authorities --------------------------------------------------------

  function AuthorityToWire(a: Authority): Json {
    JObj([
      Member("scopes", JArr(Map(a.scopes, s => JStr(s)))),
      Member("constraints", JArr(Map(a.ceilings, c => JObj(CeilingToWire(c))))),
      Member("ttl", match a.ttl case Some(t) => JNum(t) case None => JNull)])
  }

  function ReadScopes(v: Option<Json>): Option<seq<string>> {
    match v
    case None => Some([])
    case Some(JArr(items)) =>
      if forall i :: 0 <= i < |items| ==> items[i].JStr?
      then Some(seq(|items|, i requires 0 <= i < |items| => if items[i].JStr? then items[i].text else ""))
      else None
    case Some(_) => None
  }

  function ReadConstraints(v: Option<Json>, entry: nat): (r: Option<seq<Ceiling>>)
    ensures r.Some? ==> forall c :: c in r.value ==> WellFormed(c)
  {
    match v
    case None => Some([])
    case Some(JArr(items)) =>
      if forall i :: 0 <= i < |items| ==> CeilingFromWireWhole(items[i], entry, i).Some?
      then
        var read := seq(|items|, i requires 0 <= i < |items| =>
                          match CeilingFromWireWhole(items[i], entry, i) case Some(c) => c case None => Unknown("", []));
        assert forall c :: c in read ==> exists i :: 0 <= i < |items| && CeilingFromWireWhole(items[i], entry, i) == Some(c);
        Some(read)
      else None
    case Some(_) => None
  }

  function ReadTtl(v: Option<Json>): Option<Option<int>> {
    match v
    case None => Some(None)
    case Some(JNull) => Some(None)
    case Some(JNum(n)) => Some(Some(n))
    case Some(_) => None
  }

  /** The authority object of a ledger entry, read whole; `None` is unreadable. */
  function ReadAuthority(wire: Option<Json>, entry: nat): (r: Option<Authority>)
    ensures r.Some? ==> Valid(r.value) && r.value.profile == P01
  {
    match wire
    case Some(JObj(d)) =>
      if exists m :: m in d && m.name !in {"scopes", "constraints", "ttl"} then None
      else
        (match (ReadScopes(Own(d, "scopes")), ReadConstraints(Own(d, "constraints"), entry), ReadTtl(Own(d, "ttl")))
         case (Some(scopes), Some(ceilings), Some(ttl)) => Construct(scopes, ceilings, ttl, P01)
         case _ => None)
    case _ => None
  }

  predicate IsBuiltinAuthority(a: Authority) {
    a.profile.P01? && forall c :: c in a.ceilings ==> IsBuiltin(c)
  }

  /** The ceilings as read back from an entry, the first of them its constraint `first`. */
  function RereadList(ceilings: seq<Ceiling>, entry: nat, first: nat): (r: seq<Ceiling>)
    ensures |r| == |ceilings| && forall i :: 0 <= i < |r| ==> r[i] == Reread(ceilings[i], entry, first + i)
  {
    seq(|ceilings|, i requires 0 <= i < |ceilings| => Reread(ceilings[i], entry, first + i))
  }

  function RereadAuthority(a: Authority, entry: nat): Authority {
    a.(ceilings := RereadList(a.ceilings, entry, 0))
  }

  lemma RereadKeepsKey(profile: Profile, c: Ceiling, entry: nat, constraint: nat)
    ensures PairKeyOf(profile, Reread(c, entry, constraint)) == PairKeyOf(profile, c)
  {
  }

  /** An authority of built-in ceilings survives the wire, redundant fields and the identity of lists and objects aside. */
  lemma AuthorityRoundTrip(a: Authority, entry: nat)
    requires Valid(a) && IsBuiltinAuthority(a)
    ensures ReadAuthority(Some(AuthorityToWire(a)), entry) == Some(RereadAuthority(a, entry))
  {
    hide Own, ReadScopes, ReadConstraints, CeilingToWire, Reread, RereadList, IsBuiltin, WellFormed, DistinctKeys, Construct;
    RereadConstructs(a, entry);
    var d := AuthorityToWire(a).members;
    OwnAt(d, 0);
    OwnAt(d, 1);
    OwnAt(d, 2);
    ScopesRoundTrip(a.scopes);
    ConstraintsRoundTrip(a.ceilings, entry);
  }

  lemma RereadConstructs(a: Authority, entry: nat)
    requires Valid(a) && a.profile.P01?
    ensures Construct(a.scopes, RereadList(a.ceilings, entry, 0), a.ttl, P01) == Some(RereadAuthority(a, entry))
  {
    hide Reread, PairKeyOf, WellFormed, IsScope;
    forall i: nat | i < |a.ceilings| { RereadKeepsKey(P01, a.ceilings[i], entry, i); }
  }

  lemma ScopesRoundTrip(scopes: seq<string>)
    ensures ReadScopes(Some(JArr(Map(scopes, s => JStr(s))))) == Some(scopes)
  {
    var items := Map(scopes, s => JStr(s));
    assert ReadScopes(Some(JArr(items))).value == scopes;
  }

  lemma ConstraintsRoundTrip(ceilings: seq<Ceiling>, entry: nat)
    requires forall c :: c in ceilings ==> IsBuiltin(c)
    ensures ReadConstraints(Some(JArr(Map(ceilings, c => JObj(CeilingToWire(c))))), entry) == Some(RereadList(ceilings, entry, 0))
  {
    hide CeilingFromWireWhole, CeilingToWire, Reread, IsBuiltin;
    var items := Map(ceilings, c => JObj(CeilingToWire(c)));
    forall i: nat | i < |items| ensures CeilingFromWireWhole(items[i], entry, i) == Some(Reread(ceilings[i], entry, i)) {
      CeilingRoundTrip(ceilings[i], entry, i);
    }
    assert ReadConstraints(Some(JArr(items)), entry).value == RereadList(ceilings, entry, 0);
  }

  /** The paired ceiling is read back where it stands. */
  lemma {:induction false} HeldReread(profile: Profile, ceilings: seq<Ceiling>, k: PairKey, entry: nat, first: nat) returns (at: nat)
    ensures Held(profile, RereadList(ceilings, entry, first), k)
            == (match Held(profile, ceilings, k) case Some(c) => Some(Reread(c, entry, at)) case None => None)
  {
    hide Reread, PairKeyOf;
    if ceilings == [] { return first; }
    at := HeldReread(profile, ceilings[1..], k, entry, first + 1);
    RereadKeepsKey(profile, ceilings[0], entry, first);
    assert RereadList(ceilings, entry, first)[1..] == RereadList(ceilings[1..], entry, first + 1);
    if PairKeyOf(profile, ceilings[0]) == k { at := first; }
  }

  /** What is read back grants the same requests. */
  lemma RereadGrantsAlike(a: Authority, entry: nat, scope: string, ctx: Context)
    requires forall c :: c in a.ceilings ==> WellFormed(c)
    ensures Grants(RereadAuthority(a, entry), scope, ctx, []) <==> Grants(a, scope, ctx, [])
  {
    hide Reread, Admits, WellFormed, CoversAny, IsCumulative;
    var b := RereadAuthority(a, entry);
    forall i: nat | i < |a.ceilings|
      ensures b.ceilings[i] in b.ceilings && a.ceilings[i] in a.ceilings
      ensures Admitted(a.profile, b.ceilings[i], scope, ctx, []) == Admitted(a.profile, a.ceilings[i], scope, ctx, [])
    {
      RereadAdmitsAlike(a.ceilings[i], entry, i, scope, ReadBy(a.profile, a.ceilings[i], scope, ctx, []));
    }
  }

  lemma RereadAdmitsAlike(c: Ceiling, entry: nat, constraint: nat, scope: string, ctx: Context)
    requires WellFormed(c)
    ensures Admits(Reread(c, entry, constraint), scope, ctx) == Admits(c, scope, ctx)
    ensures IsCumulative(Reread(c, entry, constraint)) == IsCumulative(c)
  {
    if c.Allow? || c.Deny? {
      var es := if c.Allow? then c.oneOf else c.notOneOf;
      forall v | !IsComposite(v) ensures Plain(v) in Elements(Values(es), entry, constraint) <==> Plain(v) in es {
        PlainIsRead(es, entry, constraint, v);
      }
    }
  }

  /** What is not a list or an object is read back as itself. */
  lemma PlainIsRead(es: seq<Element>, entry: nat, constraint: nat, v: Json)
    requires AreElements(es)
    ensures Plain(v) in Elements(Values(es), entry, constraint) <==> Plain(v) in es
  {
    var read := Elements(Values(es), entry, constraint);
    if Plain(v) in read {
      var i :| 0 <= i < |read| && read[i] == Plain(v);
      assert es[i] in es;
    }
    if Plain(v) in es {
      var i :| 0 <= i < |es| && es[i] == Plain(v);
      assert read[i] in read;
    }
  }

  // ---- narrowing what was read back ---------------------------------------

  /** Between two entries: `every` list or object is in no other list, so one is within another only without any. */
  lemma ReadWithin(small: seq<Element>, large: seq<Element>, i: nat, k: nat, j: nat, l: nat)
    requires AreElements(small) && AreElements(large) && i != j
    ensures (forall e :: e in Elements(Values(small), i, k) ==> e in Elements(Values(large), j, l))
            <==> ArePlain(small) && forall e :: e in small ==> e in large
  {
    var x, y := Elements(Values(small), i, k), Elements(Values(large), j, l);
    if forall e :: e in x ==> e in y {
      forall n | 0 <= n < |small| ensures small[n].Plain? && small[n] in large {
        assert x[n] in x && x[n] in y && small[n] in small;
        if small[n].Plain? { PlainIsRead(large, j, l, small[n].value); }
      }
    }
    if ArePlain(small) && forall e :: e in small ==> e in large {
      forall n | 0 <= n < |x| ensures x[n] in y {
        assert small[n] in small;
        PlainIsRead(large, j, l, small[n].value);
      }
    }
  }

  /** Does `c` still subsume `mine` when the two are read back from different entries: no list or object is in the way. */
  predicate ReadsBack(c: Ceiling, mine: Ceiling) {
    (c.Allow? && mine.Allow? ==> ArePlain(mine.oneOf)) && (c.Deny? ==> ArePlain(c.notOneOf))
  }

  lemma RereadSubsumes(c: Ceiling, mine: Ceiling, i: nat, k: nat, j: nat, l: nat)
    requires WellFormed(c) && WellFormed(mine) && i != j
    ensures Subsumes(Reread(c, j, l), Reread(mine, i, k)) <==> Subsumes(c, mine) && ReadsBack(c, mine)
  {
    if c.Allow? && mine.Allow? { ReadWithin(mine.oneOf, c.oneOf, i, k, j, l); }
    if c.Deny? && mine.Deny? { ReadWithin(c.notOneOf, mine.notOneOf, j, l, i, k); }
  }

  /** No list or object stands in the way of reading that `a` is within `b`. */
  predicate ReadsApart(a: Authority, b: Authority) {
    forall c :: c in b.ceilings ==> ApartAt(a, b, c)
  }

  predicate ApartAt(a: Authority, b: Authority, c: Ceiling) {
    match Held(a.profile, a.ceilings, PairKeyOf(b.profile, c))
    case Some(mine) => ReadsBack(c, mine)
    case None => true
  }

  lemma BoundWhenReread(a: Authority, i: nat, b: Authority, j: nat, n: nat)
    requires i != j && a.profile == b.profile && n < |b.ceilings|
    requires (forall c :: c in a.ceilings ==> WellFormed(c)) && WellFormed(b.ceilings[n])
    ensures BoundBy(a.profile, RereadList(a.ceilings, i, 0), Reread(b.ceilings[n], j, n))
            <==> BoundBy(a.profile, a.ceilings, b.ceilings[n]) && ApartAt(a, b, b.ceilings[n])
  {
    hide Reread, Subsumes, ReadsBack, WellFormed, PairKeyOf, RereadList;
    var c := b.ceilings[n];
    RereadKeepsKey(a.profile, c, j, n);
    var k := HeldReread(a.profile, a.ceilings, PairKeyOf(a.profile, c), i, 0);
    match Held(a.profile, a.ceilings, PairKeyOf(a.profile, c))
    case Some(mine) => RereadSubsumes(c, mine, i, k, j, n);
    case None =>
  }

  /** What is read back from two entries is in the narrowing relation exactly where it was, and no list or object stands in the way. */
  lemma RereadNarrowsIff(a: Authority, i: nat, b: Authority, j: nat)
    requires i != j && (forall c :: c in a.ceilings ==> WellFormed(c)) && forall c :: c in b.ceilings ==> WellFormed(c)
    ensures IsNarrower(RereadAuthority(a, i), RereadAuthority(b, j)) <==> IsNarrower(a, b) && ReadsApart(a, b)
  {
    hide Reread, BoundBy, WellFormed, CoversAny, ApartAt;
    if a.profile == b.profile {
      var x, y := RereadList(a.ceilings, i, 0), RereadList(b.ceilings, j, 0);
      forall n: nat | n < |b.ceilings|
        ensures b.ceilings[n] in b.ceilings && y[n] in y
        ensures BoundBy(a.profile, x, y[n]) <==> BoundBy(a.profile, a.ceilings, b.ceilings[n]) && ApartAt(a, b, b.ceilings[n])
      {
        BoundWhenReread(a, i, b, j, n);
      }
      assert (forall c :: c in y ==> BoundBy(a.profile, x, c)) <==> forall n: nat :: n < |y| ==> BoundBy(a.profile, x, y[n]);
    }
  }
}
