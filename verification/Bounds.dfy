/** What each ceiling admits, read off the members of the request by name, and what subsumption and ttl mean. */
module Bounds {
  import opened Results
  import opened PlainJson
  import opened Scopes
  import opened Ceilings
  import opened Authorities
  import opened Meets
  import opened Reasons

  // ---- what a request says ------------------------------------------------

  /** The first member of that name holds `v`. */
  predicate Says(ctx: Context, name: string, v: Json) {
    exists i :: 0 <= i < |ctx| && ctx[i] == Member(name, v) && forall j :: 0 <= j < i ==> ctx[j].name != name
  }

  lemma {:induction false} OwnIff(ctx: Context, name: string, v: Json)
    ensures Own(ctx, name) == Some(v) <==> Says(ctx, name, v)
  {
    if ctx != [] {
      OwnIff(ctx[1..], name, v);
      if ctx[0].name == name {
        if ctx[0].value == v { assert ctx[0] == Member(name, v); }
      } else {
        if Says(ctx[1..], name, v) {
          var i :| 0 <= i < |ctx[1..]| && ctx[1..][i] == Member(name, v) && forall j :: 0 <= j < i ==> ctx[1..][j].name != name;
          assert ctx[i + 1] == Member(name, v);
          assert forall j :: 0 <= j < i + 1 ==> ctx[j].name != name by {
            forall j | 0 <= j < i + 1 ensures ctx[j].name != name { if j > 0 { assert ctx[1..][j - 1] == ctx[j]; } }
          }
        }
        if Says(ctx, name, v) {
          var i :| 0 <= i < |ctx| && ctx[i] == Member(name, v) && forall j :: 0 <= j < i ==> ctx[j].name != name;
          assert ctx[1..][i - 1] == ctx[i];
          assert forall j :: 0 <= j < i - 1 ==> ctx[1..][j].name != name;
        }
      }
    }
  }

  /** What an evaluation finds under a name: the scope itself, or a value the request states that is not null. */
  predicate Finds(scope: string, ctx: Context, name: string, v: Json) {
    if name == "_scope" then v == JStr(scope) else v != JNull && Says(ctx, name, v)
  }

  lemma FoundIff(scope: string, ctx: Context, name: string, v: Json)
    ensures Declared(With(ctx, "_scope", JStr(scope)), name) == Some(v) <==> Finds(scope, ctx, name, v)
  {
    hide Says, With, Own;
    OwnWith(ctx, "_scope", JStr(scope), name);
    OwnIff(ctx, name, v);
  }

  /** Whatever is found there is an integer no larger. */
  ghost predicate IsCapped(scope: string, ctx: Context, name: string, limit: int) {
    forall v {:trigger Finds(scope, ctx, name, v)} :: Finds(scope, ctx, name, v) ==> v.JNum? && v.number <= limit
  }

  ghost predicate IsFloored(scope: string, ctx: Context, name: string, limit: int) {
    forall v {:trigger Finds(scope, ctx, name, v)} :: Finds(scope, ctx, name, v) ==> v.JNum? && v.number >= limit
  }

  /** A total must be there, and be no larger. */
  ghost predicate IsHeldUnder(scope: string, ctx: Context, name: string, limit: int) {
    exists v {:trigger Finds(scope, ctx, name, v)} :: Finds(scope, ctx, name, v) && v.JNum? && v.number <= limit
  }

  ghost predicate IsListed(scope: string, ctx: Context, name: string, values: seq<Element>) {
    forall v {:trigger Finds(scope, ctx, name, v)} :: Finds(scope, ctx, name, v) ==>
      (v.JStr? || v.JNum? || v.JBool?) && exists i :: 0 <= i < |values| && values[i] == Plain(v)
  }

  ghost predicate IsUnlisted(scope: string, ctx: Context, name: string, values: seq<Element>) {
    forall v {:trigger Finds(scope, ctx, name, v)} :: Finds(scope, ctx, name, v) ==>
      (v.JStr? || v.JNum? || v.JBool?) && forall i :: 0 <= i < |values| ==> values[i] != Plain(v)
  }

  ghost predicate IsUnderPrefix(scope: string, ctx: Context, name: string, prefix: string) {
    forall v {:trigger Finds(scope, ctx, name, v)} :: Finds(scope, ctx, name, v) ==>
      v.JStr? && |prefix| <= |v.text| && v.text[..|prefix|] == prefix
  }

  /** A text that stands in the order no later than the rank. */
  ghost predicate IsRanked(scope: string, ctx: Context, name: string, order: seq<string>, rank: string) {
    forall v {:trigger Finds(scope, ctx, name, v)} :: Finds(scope, ctx, name, v) ==>
      v.JStr? && exists i, j :: 0 <= i <= j < |order| && order[i] == v.text && order[j] == rank
  }

  /** The name a membership ceiling reads: the one it was given, else its own key. */
  function ReadName(key: string, field: Option<string>): string {
    match field case Some(name) => name case None => key
  }

  /** The call the "02" count bound of this key is about: every call, or those its bracketed pattern covers or names. */
  ghost predicate CountsCall(key: string, scope: string) {
    forall p: string :: key == "max_calls[" + p + "]" ==> p == "*" || p == scope || Covers(P02, p, scope)
  }

  /** What the ceiling asks of a request, class by class. */
  ghost predicate Suits(c: Ceiling, scope: string, ctx: Context) {
    match c
    case RowLimit(n) => IsCapped(scope, ctx, "rows", n)
    case SpendCap(n) => IsCapped(scope, ctx, "spend", n)
    case CallLimit(n, None) => IsCapped(scope, ctx, "calls", n)
    case CallLimit(n, Some(pattern)) => Covers(P01, pattern, scope) ==> IsCapped(scope, ctx, "calls[" + pattern + "]", n)
    case EgressRank(level) => IsRanked(scope, ctx, "egress", ["none", "internal", "any"], level)
    case Allow(key, oneOf, field) => IsListed(scope, ctx, ReadName(key, field), oneOf)
    case Deny(key, notOneOf, field) => IsUnlisted(scope, ctx, ReadName(key, field), notOneOf)
    case Prefix(key, prefix, field) => IsUnderPrefix(scope, ctx, ReadName(key, field), prefix)
    case Unknown(_, _) => false
    case Max(key, n) => IsCapped(scope, ctx, PerActionField(key), n)
    case Min(key, n) => IsFloored(scope, ctx, PerActionField(key), n)
    case MaxLifetime(key, n) => CountsCall(key, scope) ==> IsHeldUnder(scope, ctx, LifetimeField(key), n)
    case MaxSubtree(key, n) => CountsCall(key, scope) ==> IsHeldUnder(scope, ctx, SubtreeField(key), n)
    case Rank(key, rank, order) => IsRanked(scope, ctx, PerActionField(key), order, rank)
  }

  lemma CapIff(scope: string, ctx: Context, name: string, limit: int)
    ensures var all := With(ctx, "_scope", JStr(scope));
            && (AtMost(all, name, limit) <==> IsCapped(scope, ctx, name, limit))
            && (AtLeast(all, name, limit) <==> IsFloored(scope, ctx, name, limit))
            && (HeldAtMost(all, name, limit) <==> IsHeldUnder(scope, ctx, name, limit))
  {
    hide Finds, Declared, With;
    var found := Declared(With(ctx, "_scope", JStr(scope)), name);
    forall v ensures found == Some(v) <==> Finds(scope, ctx, name, v) { FoundIff(scope, ctx, name, v); }
    if found.Some? { assert Finds(scope, ctx, name, found.value); }
  }

  lemma ListIff(scope: string, ctx: Context, name: string, values: seq<Element>, prefix: string)
    ensures var found := Declared(With(ctx, "_scope", JStr(scope)), name);
            && (IsListed(scope, ctx, name, values) <==> (found.Some? ==> IsScalar(found.value) && Plain(found.value) in values))
            && (IsUnlisted(scope, ctx, name, values) <==> (found.Some? ==> IsScalar(found.value) && Plain(found.value) !in values))
            && (IsUnderPrefix(scope, ctx, name, prefix) <==> (found.Some? ==> found.value.JStr? && prefix <= found.value.text))
  {
    hide Finds, Declared, With;
    var found := Declared(With(ctx, "_scope", JStr(scope)), name);
    forall v ensures found == Some(v) <==> Finds(scope, ctx, name, v) { FoundIff(scope, ctx, name, v); }
    if found.Some? { assert Finds(scope, ctx, name, found.value); }
  }

  lemma RankIff(scope: string, ctx: Context, name: string, order: seq<string>, rank: string)
    requires rank in order && forall i, j :: 0 <= i < j < |order| ==> order[i] != order[j]
    ensures var found := Declared(With(ctx, "_scope", JStr(scope)), name);
            IsRanked(scope, ctx, name, order, rank)
            <==> (found.Some? ==> found.value.JStr? && IndexIn(order, found.value.text) <= IndexIn(order, rank))
  {
    hide Finds, Declared, With;
    var found := Declared(With(ctx, "_scope", JStr(scope)), name);
    forall v ensures found == Some(v) <==> Finds(scope, ctx, name, v) { FoundIff(scope, ctx, name, v); }
    if found.Some? {
      assert Finds(scope, ctx, name, found.value);
      if found.value.JStr? {
        var i, j := IndexIn(order, found.value.text), IndexIn(order, rank);
        if i <= j { assert order[i] == found.value.text && order[j] == rank; }
      }
    }
  }

  lemma CountsIff(c: Ceiling, key: string, scope: string)
    requires (c.MaxLifetime? || c.MaxSubtree?) && c.dimension == key
    ensures CountsCall(key, scope) <==> ("max_calls" <= key ==> AppliesToScope(c, scope))
  {
    hide Covers02;
    var p := Bracketed(key);
    if "max_calls[" <= key && key[|key| - 1] == ']' {
      assert key == "max_calls[" + p + "]";
      forall q: string | key == "max_calls[" + q + "]" ensures q == p {
        assert key[|"max_calls["|..|key| - 1] == q;
      }
    } else {
      forall q: string ensures key != "max_calls[" + q + "]" {
        var named := "max_calls[" + q + "]";
        assert named[..|"max_calls["|] == "max_calls[" && named[|named| - 1] == ']';
      }
    }
  }

  /** A ceiling admits a request exactly when the request suits it. */
  lemma AdmitsIff(c: Ceiling, scope: string, ctx: Context)
    requires WellFormed(c)
    ensures Admits(c, scope, With(ctx, "_scope", JStr(scope))) <==> Suits(c, scope, ctx)
  {
    hide IsCapped, IsFloored, IsHeldUnder, IsListed, IsUnlisted, IsUnderPrefix, IsRanked, CountsCall;
    hide AtMost, AtLeast, HeldAtMost, Declared, With, Covers01, Covers02, PerActionField, LifetimeField, SubtreeField, IsScope, IndexIn;
    match c
    case Allow(key, oneOf, field) => ListIff(scope, ctx, ReadName(key, field), oneOf, "");
    case Deny(key, notOneOf, field) => ListIff(scope, ctx, ReadName(key, field), notOneOf, "");
    case Prefix(key, prefix, field) => ListIff(scope, ctx, ReadName(key, field), [], prefix);
    case Unknown(_, _) =>
    case EgressRank(level) => RankIff(scope, ctx, "egress", EGRESS_ORDER, level);
    case Rank(key, rank, order) => RankIff(scope, ctx, PerActionField(key), order, rank);
    case RowLimit(n) => CapIff(scope, ctx, "rows", n);
    case SpendCap(n) => CapIff(scope, ctx, "spend", n);
    case CallLimit(n, pattern) => CapIff(scope, ctx, CtxField(c), n);
    case Max(key, n) => CapIff(scope, ctx, PerActionField(key), n);
    case Min(key, n) => CapIff(scope, ctx, PerActionField(key), n);
    case MaxLifetime(key, n) =>
      CapIff(scope, ctx, LifetimeField(key), n);
      CountsIff(c, key, scope);
    case MaxSubtree(key, n) =>
      CapIff(scope, ctx, SubtreeField(key), n);
      CountsIff(c, key, scope);
  }

  /** The context field of a key, as an action's quantity, a lifetime total and a subtree total. */
  lemma FieldNames(key: string, pattern: string)
    ensures PerActionField("max_rows") == "rows" && PerActionField("max_spend") == "spend" && PerActionField("max_calls") == "calls"
    ensures PerActionField("max_calls[" + pattern + "]") == "calls[" + pattern + "]"
    ensures key !in {"max_rows", "max_spend", "max_calls"} && !("max_calls[" <= key) ==> PerActionField(key) == key
    ensures LifetimeField("max_calls") == "calls" && LifetimeField("max_calls[" + pattern + "]") == "calls[" + pattern + "]"
    ensures PerActionField(key) != "calls" && !("calls[" <= PerActionField(key)) ==> LifetimeField(key) == PerActionField(key) + "_total"
    ensures SubtreeField(key) == PerActionField(key) + "_subtree_total"
  {
    var bracketed := "max_calls[" + pattern + "]";
    assert bracketed[|"max_calls"|..] == "[" + pattern + "]";
    assert "max_calls[" <= bracketed && |bracketed| > 10;
    assert bracketed[0] == 'm' && bracketed[4] == 'c' && "max_rows"[4] == 'r' && "max_spend"[4] == 's';
    assert "calls" + ("[" + pattern + "]") == "calls[" + pattern + "]";
  }

  /** The key each ceiling is paired and written under. */
  lemma KeyNames(n: int, level: string, key: string, pattern: string)
    ensures KeyOf(RowLimit(n)) == "max_rows" && KeyOf(SpendCap(n)) == "max_spend" && KeyOf(EgressRank(level)) == "egress"
    ensures KeyOf(CallLimit(n, None)) == "max_calls" && KeyOf(CallLimit(n, Some(pattern))) == "max_calls[" + pattern + "]"
    ensures KeyOf(Max(key, n)) == key && KeyOf(Min(key, n)) == key && KeyOf(MaxLifetime(key, n)) == key && KeyOf(MaxSubtree(key, n)) == key
    ensures forall c :: IsMembership(c) || c.Unknown? || c.Rank? ==> KeyOf(c) == c.dimension
  {
  }

  /** What an evaluation under the "02" profile takes from the trusted totals: a count, a lifetime or a subtree bound. */
  function Source(a: Authority, c: Ceiling, ctx: Context, totals: Context): Context {
    if a.profile.P02? && (c.CallLimit? || c.MaxLifetime? || c.MaxSubtree?) then totals else ctx
  }

  lemma AdmittedIff(a: Authority, c: Ceiling, scope: string, ctx: Context, totals: Context)
    requires WellFormed(c)
    ensures Admitted(a.profile, c, scope, ctx, totals) <==> Suits(c, scope, Source(a, c, ctx, totals))
  {
    hide Admits, Suits, With, WellFormed;
    AdmitsIff(c, scope, Source(a, c, ctx, totals));
  }

  /** An authority grants a request that some held scope covers and that suits every ceiling. */
  lemma GrantsIff(a: Authority, scope: string, ctx: Context, totals: Context)
    requires Valid(a)
    ensures Grants(a, scope, ctx, totals) <==>
              && (exists k :: 0 <= k < |a.scopes| && Covers(a.profile, a.scopes[k], scope))
              && forall k :: 0 <= k < |a.ceilings| ==> Suits(a.ceilings[k], scope, Source(a, a.ceilings[k], ctx, totals))
  {
    hide Admitted, Suits, Covers, WellFormed, Source;
    forall c | c in a.ceilings ensures Admitted(a.profile, c, scope, ctx, totals) <==> Suits(c, scope, Source(a, c, ctx, totals)) {
      AdmittedIff(a, c, scope, ctx, totals);
    }
    if held :| held in a.scopes && Covers(a.profile, held, scope) {
      var k :| 0 <= k < |a.scopes| && a.scopes[k] == held;
    }
  }

  // ---- the reasons of a denial --------------------------------------------

  /** The reasons an evaluation gives. */
  function ReasonsOf(a: Authority, scope: string, ctx: Context, totals: Context): seq<Reason> {
    match Judge(a, scope, ctx, totals) case Some(d) => d.reasons case None => []
  }

  lemma NoCeilings(a: Authority, scope: string, ctx: Context)
    requires a.ceilings == []
    ensures ReasonsOf(a, scope, ctx, []) ==
              if exists k :: 0 <= k < |a.scopes| && Covers(a.profile, a.scopes[k], scope) then [] else [Reason(ScopeNotGranted, None)]
  {
    hide Covers;
    if held :| held in a.scopes && Covers(a.profile, held, scope) {
      var k :| 0 <= k < |a.scopes| && a.scopes[k] == held;
    }
  }

  function Refusing(ceilings: seq<Ceiling>, admits: Ceiling -> bool): seq<Ceiling> {
    Filter(ceilings, c => !admits(c))
  }

  lemma RefusingSnoc(ceilings: seq<Ceiling>, c: Ceiling, admits: Ceiling -> bool)
    ensures Refusing(ceilings + [c], admits) == Refusing(ceilings, admits) + if admits(c) then [] else [c]
  {
    var all := ceilings + [c];
    FilterSnoc(all, x => !admits(x), |ceilings|);
    assert all[..|ceilings| + 1] == all && all[..|ceilings|] == ceilings;
  }

  lemma RefusalsSnoc(ceilings: seq<Ceiling>, c: Ceiling, admits: Ceiling -> bool)
    ensures Refusals(ceilings + [c], admits) == Refusals(ceilings, admits) + if admits(c) then [] else [RefusalOf(c)]
  {
    hide RefusalOf, Filter;
    RefusingSnoc(ceilings, c, admits);
    assert Refusals(ceilings, admits) == Map(Refusing(ceilings, admits), x => RefusalOf(x));
    assert Refusals(ceilings + [c], admits) == Map(Refusing(ceilings + [c], admits), x => RefusalOf(x));
  }

  function AdmittedBy(a: Authority, scope: string, ctx: Context): Ceiling -> bool {
    (c: Ceiling) => Admitted(a.profile, c, scope, ctx, [])
  }

  lemma RefusalsAgree(ceilings: seq<Ceiling>, f: Ceiling -> bool, g: Ceiling -> bool)
    requires forall c :: f(c) == g(c)
    ensures Refusals(ceilings, f) == Refusals(ceilings, g)
  {
    hide RefusalOf;
    FilterAgrees(ceilings, c => !f(c), c => !g(c));
  }

  /** The reasons, read off the ceilings in order. */
  lemma ReasonsAre(a: Authority, scope: string, ctx: Context)
    ensures ReasonsOf(a, scope, ctx, []) ==
              (if CoversAny(a.profile, a.scopes, scope) then [] else [Reason(ScopeNotGranted, None)]) + Refusals(a.ceilings, AdmittedBy(a, scope, ctx))
  {
    hide Admitted, CoversAny, Refusals;
    RefusalsAgree(a.ceilings, c => Admitted(a.profile, c, scope, ctx, []), AdmittedBy(a, scope, ctx));
  }

  /** One ceiling more adds its own reason at the end, exactly when the request does not suit it. */
  lemma OneCeilingMore(a: Authority, c: Ceiling, scope: string, ctx: Context)
    requires WellFormed(c)
    ensures ReasonsOf(a.(ceilings := a.ceilings + [c]), scope, ctx, []) ==
              ReasonsOf(a, scope, ctx, [])
              + if Suits(c, scope, Source(a, c, ctx, [])) then []
                else [Reason(if c.Unknown? then UnknownConstraint else CeilingExceeded, Some(KeyOf(c)))]
  {
    hide Admitted, Suits, WellFormed, Source, CoversAny, KeyOf, Refusals, Judge, ReasonsOf;
    var b := a.(ceilings := a.ceilings + [c]);
    AdmittedIff(a, c, scope, ctx, []);
    ReasonsAre(a, scope, ctx);
    ReasonsAre(b, scope, ctx);
    RefusalsAgree(b.ceilings, AdmittedBy(b, scope, ctx), AdmittedBy(a, scope, ctx));
    RefusalsSnoc(a.ceilings, c, AdmittedBy(a, scope, ctx));
  }

  /** Totals are refused under the default profile, and where one names no total that a held cumulative ceiling reads. */
  lemma TotalsRefusedIff(a: Authority, scope: string, ctx: Context, totals: Context)
    ensures Judge(a, scope, ctx, totals).None? <==>
              totals != [] && (a.profile.P01? || exists k :: 0 <= k < |totals| && !ReadsTotal(a, totals[k].name))
  {
    hide CtxField;
    if totals != [] && a.profile.P02? {
      forall k | 0 <= k < |totals| ensures ReadsTotal(a, totals[k].name) <==> IsTotalField(a, totals[k].name) {}
      if m :| m in totals && !IsTotalField(a, m.name) { var k :| 0 <= k < |totals| && totals[k] == m; }
    }
  }

  predicate ReadsTotal(a: Authority, name: string) {
    exists c :: c in a.ceilings && (c.CallLimit? || c.MaxLifetime? || c.MaxSubtree?) && CtxField(c) == name
  }

  // ---- subsumption and lifetime, as what they permit ----------------------

  /** Only scalars are listed: nothing else can match a request. */
  predicate AreScalars(es: seq<Element>) {
    forall e :: e in es ==> e.Plain? && IsScalar(e.value)
  }

  /** Lists of scalars, one ranking, and no unknown constraint. */
  predicate IsComparable(a: Ceiling, b: Ceiling)
    requires SameType(a, b)
  {
    match a
    case Unknown(_, _) => false
    case Rank(_, _, order) => order == b.order
    case Allow(_, oneOf, _) => AreScalars(oneOf) && AreScalars(b.oneOf)
    case Deny(_, notOneOf, _) => AreScalars(notOneOf) && AreScalars(b.notOneOf)
    case _ => true
  }

  lemma SaidAlone(name: string, v: Json)
    requires v != JNull
    ensures Declared([Member(name, v)], name) == Some(v)
  {
  }

  /** A request the first ceiling admits and the other refuses, where the other does not subsume it. */
  lemma Separates(a: Ceiling, b: Ceiling) returns (scope: string, v: Json)
    requires SameType(a, b) && KeyOf(a) == KeyOf(b) && WellFormed(a) && WellFormed(b) && FieldsAgree(a, b) && IsComparable(a, b)
    requires !Subsumes(a, b)
    ensures Admits(b, scope, [Member(CtxField(b), v)]) && !Admits(a, scope, [Member(CtxField(b), v)])
  {
    hide PerActionField, LifetimeField, SubtreeField, Declared, Covers02, IsScope;
    scope := match b case CallLimit(_, Some(pattern)) => pattern case _ => MeterKey(b);
    if a.CallLimit? { SameKeySamePattern(a, b); }
    v := JNull;
    match b {
      case RowLimit(n) => v := JNum(n);
      case SpendCap(n) => v := JNum(n);
      case CallLimit(n, _) => v := JNum(n);
      case EgressRank(level) => v := JStr(level);
      case Allow(_, oneOf, _) =>
        var e :| e in oneOf && e !in a.oneOf;
        v := e.value;
      case Deny(_, notOneOf, _) =>
        var e :| e in a.notOneOf && e !in notOneOf;
        v := e.value;
      case Prefix(_, prefix, _) => v := JStr(prefix);
      case Max(_, n) => v := JNum(n);
      case Min(_, n) => v := JNum(n);
      case MaxLifetime(_, n) => v := JNum(n);
      case MaxSubtree(_, n) => v := JNum(n);
      case Rank(_, rank, _) => v := JStr(rank);
    }
    SaidAlone(CtxField(b), v);
  }

  /** One ceiling subsumes another of its class exactly when it admits every request the other admits. */
  lemma SubsumesIff(profile: Profile, a: Ceiling, b: Ceiling)
    requires SameType(a, b) && PairKeyOf(profile, a) == PairKeyOf(profile, b) && WellFormed(a) && WellFormed(b)
    requires FieldsAgree(a, b) && IsComparable(a, b)
    ensures Subsumes(a, b) <==> forall scope, ctx :: Admits(b, scope, ctx) ==> Admits(a, scope, ctx)
  {
    hide Admits, WellFormed, IsComparable, Subsumes;
    if Subsumes(a, b) {
      forall scope, ctx | Admits(b, scope, ctx) ensures Admits(a, scope, ctx) { SubsumedIsAdmitted(profile, a, b, scope, ctx); }
    } else {
      var scope, v := Separates(a, b);
    }
  }

  /** The time an authority allows has run out. */
  predicate RunsOut(ttl: Option<int>, issued: int, now: int) {
    match ttl case Some(seconds) => now - issued > seconds case None => false
  }

  ghost predicate NeverOutlives(a: Option<int>, b: Option<int>) {
    forall issued, now {:trigger RunsOut(b, issued, now)} :: RunsOut(b, issued, now) ==> RunsOut(a, issued, now)
  }

  lemma TtlIff(a: Option<int>, b: Option<int>)
    ensures TtlWithin(a, b) <==> NeverOutlives(a, b)
  {
    if NeverOutlives(a, b) && b.Some? { assert RunsOut(b, 0, b.value + 1); }
  }

  predicate ScopesWithin(a: Authority, b: Authority) {
    forall i :: 0 <= i < |a.scopes| ==> exists j :: 0 <= j < |b.scopes| && Covers(b.profile, b.scopes[j], a.scopes[i])
  }

  predicate CeilingsWithin(a: Authority, b: Authority) {
    forall i :: 0 <= i < |b.ceilings| ==> exists j :: 0 <= j < |a.ceilings| && Pairs(a.profile, b.ceilings[i], a.ceilings[j])
  }

  predicate Pairs(profile: Profile, wide: Ceiling, narrow: Ceiling) {
    PairKeyOf(profile, wide) == PairKeyOf(profile, narrow) && Subsumes(wide, narrow)
  }

  /** One authority is narrower than another of its profile exactly when its scopes and ceilings are within and it never outlives it. */
  lemma NarrowerIff(a: Authority, b: Authority)
    requires Valid(a)
    ensures IsNarrower(a, b) <==> a.profile == b.profile && ScopesWithin(a, b) && CeilingsWithin(a, b) && NeverOutlives(a.ttl, b.ttl)
  {
    TtlIff(a.ttl, b.ttl);
    hide TtlWithin, NeverOutlives, ScopesWithin, CeilingsWithin, CoversAny, BoundBy, ValidScopes, WellFormed, PairKeyOf;
    DistinctKeysPair(a.profile, a.ceilings);
    if a.profile == b.profile {
      ScopesIff(a, b);
      CeilingsIff(a, b);
    }
  }

  lemma ScopesIff(a: Authority, b: Authority)
    ensures ScopesWithin(a, b) <==> forall s :: s in a.scopes ==> CoversAny(b.profile, b.scopes, s)
  {
    hide Covers;
    if ScopesWithin(a, b) {
      forall s | s in a.scopes ensures CoversAny(b.profile, b.scopes, s) { var i :| 0 <= i < |a.scopes| && a.scopes[i] == s; }
    }
    if forall s :: s in a.scopes ==> CoversAny(b.profile, b.scopes, s) {
      forall i | 0 <= i < |a.scopes| ensures exists j :: 0 <= j < |b.scopes| && Covers(b.profile, b.scopes[j], a.scopes[i]) {
        assert CoversAny(b.profile, b.scopes, a.scopes[i]);
        var held :| held in b.scopes && Covers(b.profile, held, a.scopes[i]);
        var j :| 0 <= j < |b.scopes| && b.scopes[j] == held;
      }
    }
  }

  lemma CeilingsIff(a: Authority, b: Authority)
    requires Paired(a.profile, a.ceilings)
    ensures CeilingsWithin(a, b) <==> forall c :: c in b.ceilings ==> BoundBy(a.profile, a.ceilings, c)
  {
    hide BoundBy, Pairs, Paired;
    forall c ensures BoundBy(a.profile, a.ceilings, c) <==> exists j :: 0 <= j < |a.ceilings| && Pairs(a.profile, c, a.ceilings[j]) { BoundIff(a, c); }
    if CeilingsWithin(a, b) {
      forall c | c in b.ceilings ensures BoundBy(a.profile, a.ceilings, c) { var i :| 0 <= i < |b.ceilings| && b.ceilings[i] == c; }
    }
    if forall c :: c in b.ceilings ==> BoundBy(a.profile, a.ceilings, c) {
      forall i | 0 <= i < |b.ceilings| ensures exists j :: 0 <= j < |a.ceilings| && Pairs(a.profile, b.ceilings[i], a.ceilings[j]) {
        assert BoundBy(a.profile, a.ceilings, b.ceilings[i]);
      }
    }
  }

  lemma BoundIff(a: Authority, c: Ceiling)
    requires Paired(a.profile, a.ceilings)
    ensures BoundBy(a.profile, a.ceilings, c) <==> exists j :: 0 <= j < |a.ceilings| && Pairs(a.profile, c, a.ceilings[j])
  {
    hide Subsumes, PairKeyOf;
    var mine := Held(a.profile, a.ceilings, PairKeyOf(a.profile, c));
    if BoundBy(a.profile, a.ceilings, c) {
      var j :| 0 <= j < |a.ceilings| && a.ceilings[j] == mine.value;
      assert Pairs(a.profile, c, a.ceilings[j]);
    }
    if j :| 0 <= j < |a.ceilings| && Pairs(a.profile, c, a.ceilings[j]) {
      assert a.ceilings[j] in a.ceilings;
    }
  }

  /** A narrower authority's time runs out no later, whenever the two were given and whatever the clock says. */
  lemma NarrowerNeverOutlives(a: Authority, b: Authority, issued: int, now: int)
    requires IsNarrower(a, b) && b.ttl.Some? && now - issued > b.ttl.value
    ensures a.ttl.Some? && now - issued > a.ttl.value
  {
    TtlIff(a.ttl, b.ttl);
    assert RunsOut(b.ttl, issued, now);
  }

  lemma NarrowerBoundsTtl(a: Authority, b: Authority)
    requires IsNarrower(a, b) && b.ttl.Some?
    ensures a.ttl.Some? && a.ttl.value <= b.ttl.value
  {
    NarrowerNeverOutlives(a, b, 0, b.ttl.value + 1);
  }
}
