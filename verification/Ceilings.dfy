/** Typed bounds on an authority (src/ceilings.ts), and the generic constraints of profile "02" (src/draft02.ts). */
module Ceilings {
  import opened Results
  import opened PlainJson
  import opened Scopes

  /** Which list or object it is: one a program made, or the one made by reading an entry's constraint at a place. */
  datatype Identity = Made(n: nat) | ReadAt(entry: nat, constraint: nat, place: nat)

  /** A member of an allow or a deny list as a JavaScript `Set` tells it apart: a list or an object by its identity. */
  datatype Element = Plain(value: Json) | Ref(value: Json, id: Identity)

  datatype Ceiling =
    | RowLimit(maxRows: int)
    | SpendCap(maxSpend: int)
    | CallLimit(maxCalls: int, appliesTo: Option<string>)
    | EgressRank(level: string)
    | Allow(dimension: string, oneOf: seq<Element>, field: Option<string>)
    | Deny(dimension: string, notOneOf: seq<Element>, field: Option<string>)
    | Prefix(dimension: string, prefix: string, field: Option<string>)
    | Unknown(dimension: string, raw: seq<Member>)
    | Max(dimension: string, value: int)
    | Min(dimension: string, value: int)
    | MaxLifetime(dimension: string, value: int)
    | MaxSubtree(dimension: string, value: int)
    | Rank(dimension: string, rank: string, order: seq<string>)

  /** The -02 constraint type; an unknown constraint is typed by the members it carries. */
  datatype DraftType =
    | TypeMax | TypeMin | TypeMaxLifetime | TypeMaxSubtree | TypeOneOf | TypeNotOneOf | TypePrefix | TypeRank
    | TypeUnknown(shape: set<string>)

  /** What two ceilings are paired by: the key (-01), or the key and the type (-02). */
  datatype PairKey = ByKey(key: string) | ByKeyAndType(key: string, draftType: DraftType)

  // ---- identity -----------------------------------------------------------

  function KeyOf(c: Ceiling): string {
    match c
    case RowLimit(_) => "max_rows"
    case SpendCap(_) => "max_spend"
    case CallLimit(_, None) => "max_calls"
    case CallLimit(_, Some(pattern)) => "max_calls[" + pattern + "]"
    case EgressRank(_) => "egress"
    case _ => c.dimension
  }

  function DraftTypeOf(c: Ceiling): DraftType {
    match c
    case RowLimit(_) => TypeMax
    case SpendCap(_) => TypeMax
    case Max(_, _) => TypeMax
    case Min(_, _) => TypeMin
    case CallLimit(_, _) => TypeMaxLifetime
    case MaxLifetime(_, _) => TypeMaxLifetime
    case MaxSubtree(_, _) => TypeMaxSubtree
    case EgressRank(_) => TypeRank
    case Rank(_, _, _) => TypeRank
    case Allow(_, _, _) => TypeOneOf
    case Deny(_, _, _) => TypeNotOneOf
    case Prefix(_, _, _) => TypePrefix
    case Unknown(_, raw) => TypeUnknown(set m | m in raw && m.name != "key" :: m.name)
  }

  function PairKeyOf(profile: Profile, c: Ceiling): PairKey {
    match profile
    case P01 => ByKey(KeyOf(c))
    case P02 => ByKeyAndType(KeyOf(c), DraftTypeOf(c))
  }

  /** Two ceilings of one class. */
  predicate SameType(a: Ceiling, b: Ceiling) {
    match a
    case RowLimit(_) => b.RowLimit?
    case SpendCap(_) => b.SpendCap?
    case CallLimit(_, _) => b.CallLimit?
    case EgressRank(_) => b.EgressRank?
    case Allow(_, _, _) => b.Allow?
    case Deny(_, _, _) => b.Deny?
    case Prefix(_, _, _) => b.Prefix?
    case Unknown(_, _) => b.Unknown?
    case Max(_, _) => b.Max?
    case Min(_, _) => b.Min?
    case MaxLifetime(_, _) => b.MaxLifetime?
    case MaxSubtree(_, _) => b.MaxSubtree?
    case Rank(_, _, _) => b.Rank?
  }

  predicate IsCumulative(c: Ceiling) {
    DraftTypeOf(c) in {TypeMaxLifetime, TypeMaxSubtree}
  }

  // ---- context fields -----------------------------------------------------

  const EGRESS_ORDER: seq<string> := ["none", "internal", "any"]

  predicate IsCountKey(key: string) {
    key == "max_calls" || "max_calls[" <= key
  }

  function PerActionField(key: string): string {
    if key == "max_rows" then "rows"
    else if key == "max_spend" then "spend"
    else if key == "max_calls" then "calls"
    else if "max_calls[" <= key then "calls" + key[|"max_calls"|..]
    else key
  }

  function LifetimeField(key: string): string {
    var base := PerActionField(key);
    if base == "calls" || "calls[" <= base then base else base + "_total"
  }

  function SubtreeField(key: string): string {
    PerActionField(key) + "_subtree_total"
  }

  /** The context field a ceiling reads. */
  function CtxField(c: Ceiling): string {
    match c
    case RowLimit(_) => "rows"
    case SpendCap(_) => "spend"
    case CallLimit(_, None) => "calls"
    case CallLimit(_, Some(pattern)) => "calls[" + pattern + "]"
    case EgressRank(_) => "egress"
    case Max(key, _) => PerActionField(key)
    case Min(key, _) => PerActionField(key)
    case Rank(key, _, _) => PerActionField(key)
    case MaxLifetime(key, _) => LifetimeField(key)
    case MaxSubtree(key, _) => SubtreeField(key)
    case Unknown(key, _) => key
    case _ => MemberField(c)
  }

  /** The field a membership or prefix ceiling reads: the caller's, else its own key. */
  function MemberField(c: Ceiling): string
    requires IsMembership(c)
  {
    match c.field
    case Some(f) => f
    case None => c.dimension
  }

  /** `ctxFieldOf`: the field strict metering asks for; unlike evaluation, it takes an empty `field` for the key. */
  function NamedField(c: Ceiling): string {
    if IsMembership(c) && c.field == Some("") then c.dimension else CtxField(c)
  }

  /** The ceilings that read a field the caller names, which `Subsumes` does not compare. */
  predicate IsMembership(c: Ceiling) {
    c.Allow? || c.Deny? || c.Prefix?
  }

  predicate IsMetered(c: Ceiling) {
    c.Max? || c.MaxLifetime? || c.MaxSubtree? || "max_" <= KeyOf(c)
  }

  /** What a count bound counts: the scope pattern it applies to, or every call. */
  function MeterKey(c: Ceiling): string {
    match c
    case CallLimit(_, Some(pattern)) => pattern
    case MaxLifetime(key, _) => Bracketed(key)
    case MaxSubtree(key, _) => Bracketed(key)
    case _ => "*"
  }

  function Bracketed(key: string): string {
    if "max_calls[" <= key && key[|key| - 1] == ']' then key[|"max_calls["|..|key| - 1] else "*"
  }

  predicate AppliesToScope(c: Ceiling, scope: string) {
    match c
    case CallLimit(_, None) => true
    case CallLimit(_, Some(pattern)) => Covers01(pattern, scope)
    case _ => MeterKey(c) == "*" || Covers02(MeterKey(c), scope) || MeterKey(c) == scope
  }

  // ---- construction -------------------------------------------------------

  predicate IsComposite(v: Json) { v.JArr? || v.JObj? }

  predicate AreElements(es: seq<Element>) {
    forall e :: e in es ==> (e.Ref? <==> IsComposite(e.value))
  }

  /** No list and no object among them. */
  predicate ArePlain(es: seq<Element>) {
    forall e :: e in es ==> e.Plain?
  }

  /** What the constructors accept. */
  predicate WellFormed(c: Ceiling) {
    match c
    case RowLimit(n) => IsSafe(n)
    case SpendCap(n) => IsSafe(n)
    case CallLimit(n, pattern) => IsSafe(n) && (pattern.Some? ==> IsScope(P01, pattern.value))
    case EgressRank(level) => level in EGRESS_ORDER
    case Allow(_, oneOf, _) => AreElements(oneOf)
    case Deny(_, notOneOf, _) => AreElements(notOneOf)
    case Max(key, n) => IsSafe(n) && !IsCountKey(key)
    case Min(_, n) => IsSafe(n)
    case MaxLifetime(_, n) => IsSafe(n)
    case MaxSubtree(_, n) => IsSafe(n)
    case Rank(_, rank, order) =>
      |order| >= 2 && rank in order && forall i, j :: 0 <= i < j < |order| ==> order[i] != order[j]
    case _ => true
  }

  // ---- evaluation ---------------------------------------------------------

  predicate AtMost(ctx: Context, field: string, limit: int) {
    match Declared(ctx, field)
    case None => true
    case Some(JNum(n)) => n <= limit
    case Some(_) => false
  }

  predicate AtLeast(ctx: Context, field: string, limit: int) {
    match Declared(ctx, field)
    case None => true
    case Some(JNum(n)) => n >= limit
    case Some(_) => false
  }

  predicate IsScalar(v: Json) { v.JStr? || v.JNum? || v.JBool? }

  /** Position in an ordering; past the end for a value outside it. */
  function IndexIn(order: seq<string>, v: string): (i: nat)
    ensures i <= |order|
    ensures i < |order| <==> v in order
    ensures i < |order| ==> order[i] == v
  {
    if order == [] then 0 else if order[0] == v then 0 else 1 + IndexIn(order[1..], v)
  }

  /** A running total that must be held: absent, the bound refuses. */
  predicate HeldAtMost(ctx: Context, field: string, limit: int) {
    Declared(ctx, field).Some? && AtMost(ctx, field, limit)
  }

  /** Does the ceiling admit this request? `ctx` is what the evaluation gives it to read. */
  predicate Admits(c: Ceiling, scope: string, ctx: Context) {
    match c
    case RowLimit(n) => AtMost(ctx, CtxField(c), n)
    case SpendCap(n) => AtMost(ctx, CtxField(c), n)
    case CallLimit(n, _) => !AppliesToScope(c, scope) || AtMost(ctx, CtxField(c), n)
    case EgressRank(level) =>
      (match Declared(ctx, CtxField(c))
       case None => true
       case Some(JStr(v)) => IndexIn(EGRESS_ORDER, v) <= IndexIn(EGRESS_ORDER, level)
       case Some(_) => false)
    case Allow(_, oneOf, _) =>
      (match Declared(ctx, MemberField(c))
       case None => true
       case Some(v) => IsScalar(v) && Plain(v) in oneOf)
    case Deny(_, notOneOf, _) =>
      (match Declared(ctx, MemberField(c))
       case None => true
       case Some(v) => IsScalar(v) && Plain(v) !in notOneOf)
    case Prefix(_, prefix, _) =>
      (match Declared(ctx, MemberField(c))
       case None => true
       case Some(JStr(v)) => prefix <= v
       case Some(_) => false)
    case Unknown(_, _) => false
    case Max(_, n) => AtMost(ctx, CtxField(c), n)
    case Min(_, n) => AtLeast(ctx, CtxField(c), n)
    case MaxLifetime(key, n) => ("max_calls" <= key && !AppliesToScope(c, scope)) || HeldAtMost(ctx, CtxField(c), n)
    case MaxSubtree(key, n) => ("max_calls" <= key && !AppliesToScope(c, scope)) || HeldAtMost(ctx, CtxField(c), n)
    case Rank(_, rank, order) =>
      (match Declared(ctx, CtxField(c))
       case None => true
       case Some(JStr(v)) => v in order && IndexIn(order, v) <= IndexIn(order, rank)
       case Some(_) => false)
  }

  // ---- the narrowing laws -------------------------------------------------

  function Least(a: int, b: int): int { if a <= b then a else b }

  function Greatest(a: int, b: int): int { if a >= b then a else b }

  /** The more restrictive of two ceilings of one class; `None` where the source throws. */
  function Narrow(a: Ceiling, b: Ceiling): Option<Ceiling>
    requires SameType(a, b)
  {
    match a
    case RowLimit(n) => Some(RowLimit(Least(n, b.maxRows)))
    case SpendCap(n) => Some(SpendCap(Least(n, b.maxSpend)))
    case CallLimit(n, pattern) => Some(CallLimit(Least(n, b.maxCalls), pattern))
    case EgressRank(level) =>
      Some(EgressRank(if IndexIn(EGRESS_ORDER, level) <= IndexIn(EGRESS_ORDER, b.level) then level else b.level))
    case Allow(key, oneOf, field) => Some(Allow(key, Filter(oneOf, v => v in b.oneOf), field))
    case Deny(key, notOneOf, field) => Some(Deny(key, notOneOf + b.notOneOf, field))
    case Prefix(key, prefix, field) =>
      if b.prefix <= prefix then Some(a)
      else if prefix <= b.prefix then Some(b)
      else Some(Prefix(key, prefix + "\0" + b.prefix, field))
    case Unknown(_, _) => Some(a)
    case Max(key, n) => Some(Max(key, Least(n, b.value)))
    case Min(key, n) => Some(Min(key, Greatest(n, b.value)))
    case MaxLifetime(key, n) => Some(MaxLifetime(key, Least(n, b.value)))
    case MaxSubtree(key, n) => Some(MaxSubtree(key, Least(n, b.value)))
    case Rank(key, rank, order) =>
      if b.order != order then None
      else Some(Rank(key, if IndexIn(order, rank) <= IndexIn(order, b.rank) then rank else b.rank, order))
  }

  /** Identical as RFC 8785 bytes. */
  predicate IdenticalUnknown(a: seq<Member>, b: seq<Member>) {
    Canonicalizable(JObj(a)) && Canonicalizable(JObj(b)) && SameJson(JObj(a), JObj(b))
  }

  /** `a` admits a superset of what `b` admits, as the two are declared; fields are not compared. */
  predicate Subsumes(a: Ceiling, b: Ceiling) {
    SameType(a, b) &&
    match a
    case RowLimit(n) => n >= b.maxRows
    case SpendCap(n) => n >= b.maxSpend
    case CallLimit(n, _) => n >= b.maxCalls
    case EgressRank(level) => IndexIn(EGRESS_ORDER, level) >= IndexIn(EGRESS_ORDER, b.level)
    case Allow(_, oneOf, _) => forall v :: v in b.oneOf ==> v in oneOf
    case Deny(_, notOneOf, _) => forall v :: v in notOneOf ==> v in b.notOneOf
    case Prefix(_, prefix, _) => prefix <= b.prefix
    case Unknown(_, raw) => IdenticalUnknown(b.raw, raw)
    case Max(key, n) => key == b.dimension && n >= b.value
    case Min(key, n) => key == b.dimension && n <= b.value
    case MaxLifetime(key, n) => key == b.dimension && n >= b.value
    case MaxSubtree(key, n) => key == b.dimension && n >= b.value
    case Rank(key, rank, order) =>
      key == b.dimension && b.order == order && IndexIn(order, b.rank) <= IndexIn(order, rank)
  }

  /** A ceiling subsumes itself, an unknown one exactly when RFC 8785 can write it. */
  lemma SubsumesReflexive(c: Ceiling)
    ensures Subsumes(c, c) <==> (c.Unknown? ==> Canonicalizable(JObj(c.raw)))
  {
    if c.Unknown? { SameJsonReflexive(JObj(c.raw)); }
  }

  lemma SubsumesTransitive(a: Ceiling, b: Ceiling, c: Ceiling)
    requires Subsumes(a, b) && Subsumes(b, c)
    ensures Subsumes(a, c)
  {
    if a.Unknown? { SameJsonTransitive(JObj(c.raw), JObj(b.raw), JObj(a.raw)); }
  }

  /** Keys tell patterns apart, so ceilings of one class and key read one field and one meter. */
  lemma SameKeySamePattern(a: Ceiling, b: Ceiling)
    requires a.CallLimit? && b.CallLimit? && KeyOf(a) == KeyOf(b)
    ensures a.appliesTo == b.appliesTo
  {
    if a.appliesTo.Some? && b.appliesTo.Some? {
      assert KeyOf(a)[10..|KeyOf(a)| - 1] == a.appliesTo.value;
      assert KeyOf(b)[10..|KeyOf(b)| - 1] == b.appliesTo.value;
    } else {
      assert |"max_calls"| == 9 && |"max_calls["| == 10;
    }
  }

  /** The narrower of two paired ceilings keeps the pairing key and stays inside `a`. */
  lemma NarrowStaysBelow(profile: Profile, a: Ceiling, b: Ceiling)
    requires SameType(a, b) && PairKeyOf(profile, a) == PairKeyOf(profile, b) && Narrow(a, b).Some?
    requires WellFormed(a) && WellFormed(b)
    ensures var r := Narrow(a, b).value;
            && WellFormed(r) && SameType(a, r) && PairKeyOf(profile, r) == PairKeyOf(profile, a)
            && (Subsumes(a, r) <==> (a.Unknown? ==> Canonicalizable(JObj(a.raw))))
  {
    SubsumesReflexive(a);
    if a.CallLimit? { SameKeySamePattern(a, b); }
  }

  /** Two prefixes no string shares, and an unknown constraint under a different one: the two kinds of
      pair whose meet is not inside the second side. */
  predicate NarrowsOnlyFirst(a: Ceiling, b: Ceiling)
    requires SameType(a, b)
  {
    match a
    case Prefix(_, p, _) => !(p <= b.prefix) && !(b.prefix <= p)
    case Unknown(_, raw) => !IdenticalUnknown(raw, b.raw)
    case _ => false
  }

  lemma PrefixesOfOne(p: string, q: string, v: string)
    ensures p <= v && q <= v ==> p <= q || q <= p
    ensures p + "\0" + q <= v ==> p <= v
  {
    if p <= v && q <= v {
      if |p| <= |q| { assert p <= q; } else { assert q <= p; }
    }
    if p + "\0" + q <= v { assert (p + "\0" + q)[..|p|] == p; }
  }
  lemma NarrowBelowSecond(profile: Profile, a: Ceiling, b: Ceiling)
    requires SameType(a, b) && PairKeyOf(profile, a) == PairKeyOf(profile, b) && Narrow(a, b).Some?
    ensures Subsumes(b, Narrow(a, b).value) <==> !NarrowsOnlyFirst(a, b)
  {
    if a.Prefix? { PrefixesOfOne(a.prefix, b.prefix, a.prefix + "\0" + b.prefix); }
  }

  /** Whatever both sides subsume, the narrower ceiling subsumes; and then narrowing does not throw. */
  lemma NarrowIsGreatest(a: Ceiling, b: Ceiling, z: Ceiling)
    requires Subsumes(a, z) && Subsumes(b, z)
    ensures SameType(a, b) && Narrow(a, b).Some? && Subsumes(Narrow(a, b).value, z)
  {
    if a.Prefix? { PrefixesOfOne(a.prefix, b.prefix, z.prefix); }
  }

  // ---- narrowing and evaluation -------------------------------------------

  /** The fields two paired ceilings read agree: automatic but for the classes whose caller names it. */
  predicate FieldsAgree(a: Ceiling, b: Ceiling) {
    IsMembership(a) && IsMembership(b) ==> MemberField(a) == MemberField(b)
  }

  lemma SubsumedIsAdmitted(profile: Profile, a: Ceiling, b: Ceiling, scope: string, ctx: Context)
    requires PairKeyOf(profile, a) == PairKeyOf(profile, b) && Subsumes(a, b) && FieldsAgree(a, b)
    requires Admits(b, scope, ctx)
    ensures Admits(a, scope, ctx)
  {
    if a.CallLimit? { SameKeySamePattern(a, b); }
  }

  /** Subsumption is sound for evaluation exactly when the two ceilings read the same field. */
  lemma SoundIffFieldsAgree(profile: Profile, a: Ceiling, b: Ceiling)
    requires PairKeyOf(profile, a) == PairKeyOf(profile, b) && Subsumes(a, b)
    ensures (forall scope, ctx :: Admits(b, scope, ctx) ==> Admits(a, scope, ctx)) <==> FieldsAgree(a, b)
  {
    if FieldsAgree(a, b) {
      forall scope, ctx | Admits(b, scope, ctx) ensures Admits(a, scope, ctx) {
        SubsumedIsAdmitted(profile, a, b, scope, ctx);
      }
    } else {
      var ctx := [Member(MemberField(a), JArr([]))];
      assert Own(ctx, MemberField(a)) == Some(JArr([]));
      assert Own(ctx, MemberField(b)) == None by { assert Own(ctx[1..], MemberField(b)) == None; }
      assert Admits(b, "", ctx) && !Admits(a, "", ctx);
    }
  }

  /** The request carries a string that starts with the marked prefix two incomparable prefixes meet in. */
  predicate HitsMarker(a: Ceiling, b: Ceiling, ctx: Context)
    requires SameType(a, b)
  {
    a.Prefix? && NarrowsOnlyFirst(a, b) &&
    match Declared(ctx, MemberField(a))
    case Some(JStr(v)) => a.prefix + "\0" + b.prefix <= v
    case _ => false
  }

  /** The narrower ceiling admits exactly what both sides admit, but for the marked prefix strings. */
  lemma NarrowAdmitsBoth(profile: Profile, a: Ceiling, b: Ceiling, scope: string, ctx: Context)
    requires SameType(a, b) && PairKeyOf(profile, a) == PairKeyOf(profile, b) && FieldsAgree(a, b)
    requires Narrow(a, b).Some? && WellFormed(a) && WellFormed(b)
    ensures Admits(Narrow(a, b).value, scope, ctx)
            <==> (Admits(a, scope, ctx) && Admits(b, scope, ctx)) || HitsMarker(a, b, ctx)
  {
    match a
    case CallLimit(_, _) => SameKeySamePattern(a, b);
    case Prefix(_, _, _) => NarrowPrefixAdmits(a, b, scope, ctx);
    case Rank(_, _, _) => NarrowRankAdmits(a, b, scope, ctx);
    case EgressRank(_) => NarrowRankAdmits(a, b, scope, ctx);
    case _ =>
  }

  lemma NarrowRankAdmits(a: Ceiling, b: Ceiling, scope: string, ctx: Context)
    requires SameType(a, b) && (a.EgressRank? || (a.Rank? && a.dimension == b.dimension && a.order == b.order))
    ensures Admits(Narrow(a, b).value, scope, ctx) <==> Admits(a, scope, ctx) && Admits(b, scope, ctx)
  {
  }

  lemma NarrowPrefixAdmits(a: Ceiling, b: Ceiling, scope: string, ctx: Context)
    requires a.Prefix? && b.Prefix? && MemberField(a) == MemberField(b)
    ensures Admits(Narrow(a, b).value, scope, ctx)
            <==> (Admits(a, scope, ctx) && Admits(b, scope, ctx)) || HitsMarker(a, b, ctx)
  {
    match Declared(ctx, MemberField(a))
    case Some(JStr(v)) => PrefixesOfOne(a.prefix, b.prefix, v);
    case _ =>
  }
}
