/** Authorities in both draft profiles: `isNarrowerThan` and `permits` (src/authority.ts). */
module Authorities {
  import opened Results
  import opened PlainJson
  import opened Scopes
  import opened Ceilings
  import opened Reasons

  datatype Authority = Authority(scopes: seq<string>, ceilings: seq<Ceiling>, ttl: Option<int>, profile: Profile)

  /** The ceiling paired under `k`. */
  function Held(profile: Profile, ceilings: seq<Ceiling>, k: PairKey): (r: Option<Ceiling>)
    ensures r.Some? ==> r.value in ceilings && PairKeyOf(profile, r.value) == k
    ensures r.None? <==> forall c :: c in ceilings ==> PairKeyOf(profile, c) != k
  {
    if ceilings == [] then None
    else if PairKeyOf(profile, ceilings[0]) == k then Some(ceilings[0])
    else Held(profile, ceilings[1..], k)
  }

  /** At most one ceiling per pairing key. */
  ghost predicate Paired(profile: Profile, ceilings: seq<Ceiling>) {
    forall c :: c in ceilings ==> Held(profile, ceilings, PairKeyOf(profile, c)) == Some(c)
  }

  predicate DistinctKeys(profile: Profile, ceilings: seq<Ceiling>) {
    forall i, j :: 0 <= i < j < |ceilings| ==> PairKeyOf(profile, ceilings[i]) != PairKeyOf(profile, ceilings[j])
  }

  /** What the constructor guarantees. */
  ghost predicate Valid(a: Authority) {
    && ValidScopes(a.profile, a.scopes) && Distinct(a.scopes)
    && DistinctKeys(a.profile, a.ceilings)
    && forall c :: c in a.ceilings ==> WellFormed(c)
  }

  lemma {:induction false} DistinctKeysPair(profile: Profile, ceilings: seq<Ceiling>)
    requires DistinctKeys(profile, ceilings)
    ensures Paired(profile, ceilings)
  {
    if ceilings != [] {
      DistinctKeysPair(profile, ceilings[1..]);
      assert forall c :: c in ceilings[1..] ==> PairKeyOf(profile, c) != PairKeyOf(profile, ceilings[0]);
    }
  }

  // ---- construction -------------------------------------------------------

  /** The constructor: scopes in the grammar, one ceiling per pairing key; `None` is a TypeError. */
  function Construct(scopes: seq<string>, ceilings: seq<Ceiling>, ttl: Option<int>, profile: Profile): (r: Option<Authority>)
    ensures r.Some? && (forall c :: c in ceilings ==> WellFormed(c)) ==> Valid(r.value)
    ensures r.None? ==> !ValidScopes(profile, scopes) || !DistinctKeys(profile, ceilings)
  {
    if (forall i :: 0 <= i < |scopes| ==> IsScope(profile, scopes[i])) && DistinctKeys(profile, ceilings)
    then Some(Authority(Dedup(scopes), ceilings, ttl, profile))
    else None
  }

  method NewAuthority(scopes: seq<string>, ceilings: seq<Ceiling>, ttl: Option<int>, profile: Profile) returns (r: Option<Authority>)
    ensures r == Construct(scopes, ceilings, ttl, profile)
  {
    hide IsScope, DistinctKeys, Valid, WellFormed, AddTo;
    var kept: seq<string> := [];
    for i := 0 to |scopes|
      invariant kept == Dedup(scopes[..i])
      invariant forall j :: 0 <= j < i ==> IsScope(profile, scopes[j])
    {
      if !IsScope(profile, scopes[i]) { return None; }
      assert scopes[..i + 1][..i] == scopes[..i];
      kept := AddTo(kept, scopes[i]);
    }
    assert scopes[..|scopes|] == scopes;
    var paired := HoldsOnePerKey(profile, ceilings);
    if !paired { return None; }
    return Some(Authority(kept, ceilings, ttl, profile));
  }

  method HoldsOnePerKey(profile: Profile, ceilings: seq<Ceiling>) returns (ok: bool)
    ensures ok == DistinctKeys(profile, ceilings)
  {
    var seen: set<PairKey> := {};
    for i := 0 to |ceilings|
      invariant forall j, k :: 0 <= j < k < i ==> PairKeyOf(profile, ceilings[j]) != PairKeyOf(profile, ceilings[k])
      invariant forall j :: 0 <= j < i ==> PairKeyOf(profile, ceilings[j]) in seen
      invariant forall k :: k in seen ==> exists j :: 0 <= j < i && PairKeyOf(profile, ceilings[j]) == k
    {
      var k := PairKeyOf(profile, ceilings[i]);
      if k in seen { return false; }
      seen := seen + {k};
    }
    return true;
  }

  // ---- isNarrowerThan -----------------------------------------------------

  predicate TtlWithin(a: Option<int>, b: Option<int>) {
    b.Some? ==> a.Some? && a.value <= b.value
  }

  /** The ceiling `c` of the wider side is matched on the narrower side. */
  predicate BoundBy(profile: Profile, ceilings: seq<Ceiling>, c: Ceiling) {
    var mine := Held(profile, ceilings, PairKeyOf(profile, c));
    mine.Some? && Subsumes(c, mine.value)
  }

  /** `a <= b`: `a` is provably no more powerful than `b` in every dimension. */
  predicate IsNarrower(a: Authority, b: Authority) {
    && a.profile == b.profile
    && (forall s :: s in a.scopes ==> CoversAny(b.profile, b.scopes, s))
    && (forall c :: c in b.ceilings ==> BoundBy(a.profile, a.ceilings, c))
    && TtlWithin(a.ttl, b.ttl)
  }

  lemma UnlikeIsNotSubsumed(x: Ceiling, y: Ceiling)
    requires !SameType(x, y)
    ensures !Subsumes(y, x)
  {
  }

  method IsNarrowerThan(a: Authority, b: Authority) returns (r: bool)
    ensures r == IsNarrower(a, b)
  {
    hide Subsumes, SameType, CoversAny, PairKeyOf, Held, Covers;
    if a.profile != b.profile { return false; }
    for i := 0 to |a.scopes|
      invariant forall j :: 0 <= j < i ==> CoversAny(b.profile, b.scopes, a.scopes[j])
    {
      var covered := CoversScope(b, a.scopes[i]);
      if !covered { return false; }
    }
    for i := 0 to |b.ceilings|
      invariant forall j :: 0 <= j < i ==> BoundBy(a.profile, a.ceilings, b.ceilings[j])
    {
      var mine := Held(a.profile, a.ceilings, PairKeyOf(b.profile, b.ceilings[i]));
      if mine.None? {
        assert !BoundBy(a.profile, a.ceilings, b.ceilings[i]);
        return false;
      }
      if !SameType(mine.value, b.ceilings[i]) { UnlikeIsNotSubsumed(mine.value, b.ceilings[i]); }
      if !SameType(mine.value, b.ceilings[i]) || !Subsumes(b.ceilings[i], mine.value) {
        assert !BoundBy(a.profile, a.ceilings, b.ceilings[i]);
        return false;
      }
    }
    if b.ttl.Some? {
      if a.ttl.None? || a.ttl.value > b.ttl.value { return false; }
    }
    return true;
  }

  method CoversScope(a: Authority, requested: string) returns (r: bool)
    ensures r == CoversAny(a.profile, a.scopes, requested)
  {
    for i := 0 to |a.scopes|
      invariant forall j :: 0 <= j < i ==> !Covers(a.profile, a.scopes[j], requested)
    {
      if Covers(a.profile, a.scopes[i], requested) { return true; }
    }
    return false;
  }

  /** Every unknown ceiling of `a` has an RFC 8785 form. */
  predicate UnknownsWritable(a: Authority) {
    forall c :: c in a.ceilings && c.Unknown? ==> Canonicalizable(JObj(c.raw))
  }

  /** The relation is reflexive exactly where RFC 8785 can write every unknown ceiling. */
  lemma NarrowerReflexive(a: Authority)
    requires Valid(a)
    ensures IsNarrower(a, a) <==> UnknownsWritable(a)
  {
    DistinctKeysPair(a.profile, a.ceilings);
    forall s | s in a.scopes ensures CoversAny(a.profile, a.scopes, s) { CoversReflexive(a.profile, s); }
    forall c | c in a.ceilings
      ensures BoundBy(a.profile, a.ceilings, c) <==> (c.Unknown? ==> Canonicalizable(JObj(c.raw)))
    {
      SubsumesReflexive(c);
    }
  }

  lemma NarrowerTransitive(a: Authority, b: Authority, c: Authority)
    requires IsNarrower(a, b) && IsNarrower(b, c)
    ensures IsNarrower(a, c)
  {
    forall s | s in a.scopes ensures CoversAny(c.profile, c.scopes, s) {
      CoveredThrough(b, c, s);
    }
    forall z | z in c.ceilings ensures BoundBy(a.profile, a.ceilings, z) {
      var k := PairKeyOf(c.profile, z);
      var y := Held(b.profile, b.ceilings, k).value;
      var x := Held(a.profile, a.ceilings, k).value;
      assert BoundBy(a.profile, a.ceilings, y);
      SubsumesTransitive(z, y, x);
    }
  }

  lemma CoveredThrough(a: Authority, b: Authority, s: string)
    requires a.profile == b.profile && CoversAny(a.profile, a.scopes, s)
    requires forall x :: x in a.scopes ==> CoversAny(b.profile, b.scopes, x)
    ensures CoversAny(b.profile, b.scopes, s)
  {
    var held :| held in a.scopes && Covers(a.profile, held, s);
    CoveredByMember(b.profile, b.scopes, held, s);
  }

  // ---- permits ------------------------------------------------------------

  /** The context a ceiling reads: trusted totals for a cumulative one under the -02, the request otherwise. */
  function ReadBy(profile: Profile, c: Ceiling, scope: string, ctx: Context, totals: Context): Context {
    With(if profile.P02? && IsCumulative(c) then totals else ctx, "_scope", JStr(scope))
  }

  predicate Admitted(profile: Profile, c: Ceiling, scope: string, ctx: Context, totals: Context) {
    Admits(c, scope, ReadBy(profile, c, scope, ctx, totals))
  }

  /** The scope is covered and every held ceiling admits the request. */
  predicate Grants(a: Authority, scope: string, ctx: Context, totals: Context) {
    && CoversAny(a.profile, a.scopes, scope)
    && forall c :: c in a.ceilings ==> Admitted(a.profile, c, scope, ctx, totals)
  }

  /** The total fields of the cumulative ceilings held. */
  predicate IsTotalField(a: Authority, field: string) {
    exists c :: c in a.ceilings && IsCumulative(c) && CtxField(c) == field
  }

  /** `effectiveTotals` throws otherwise. */
  predicate TotalsAccepted(a: Authority, totals: Context) {
    totals == [] || (a.profile.P02? && forall m :: m in totals ==> IsTotalField(a, m.name))
  }

  function RefusalOf(c: Ceiling): Reason {
    Reason(if c.Unknown? then UnknownConstraint else CeilingExceeded, Some(KeyOf(c)))
  }

  /** One reason per refusing ceiling, in wire order. */
  function Refusals(ceilings: seq<Ceiling>, admits: Ceiling -> bool): (r: seq<Reason>)
    ensures r == [] <==> forall c :: c in ceilings ==> admits(c)
  {
    var refusing := Filter(ceilings, c => !admits(c));
    assert refusing != [] ==> refusing[0] in refusing;
    Map(refusing, c => RefusalOf(c))
  }

  /** Every failing reason, not just the first; `None` is the TypeError for misused totals. */
  function Judge(a: Authority, scope: string, ctx: Context, totals: Context): (r: Option<Decision>)
    ensures r.Some? <==> TotalsAccepted(a, totals)
    ensures r.Some? ==> (r.value.allowed <==> Grants(a, scope, ctx, totals))
    ensures r.Some? ==> (r.value.allowed <==> r.value.reasons == []) && r.value.callId.None?
  {
    if !TotalsAccepted(a, totals) then None
    else
      var missing := if CoversAny(a.profile, a.scopes, scope) then [] else [Reason(ScopeNotGranted, None)];
      var reasons := missing + Refusals(a.ceilings, c => Admitted(a.profile, c, scope, ctx, totals));
      Some(Decision(reasons == [], reasons, None))
  }

  method Permits(a: Authority, scope: string, ctx: Context, totals: Context) returns (r: Option<Decision>)
    ensures r == Judge(a, scope, ctx, totals)
  {
    if !TotalsAccepted(a, totals) { return None; }
    var covered := CoversScope(a, scope);
    var missing := if covered then [] else [Reason(ScopeNotGranted, None)];
    var refused := CollectRefusals(a.ceilings, c => Admitted(a.profile, c, scope, ctx, totals));
    var reasons := missing + refused;
    return Some(Decision(reasons == [], reasons, None));
  }

  method CollectRefusals(ceilings: seq<Ceiling>, admits: Ceiling -> bool) returns (reasons: seq<Reason>)
    ensures reasons == Refusals(ceilings, admits)
  {
    reasons := [];
    for i := 0 to |ceilings|
      invariant reasons == Refusals(ceilings[..i], admits)
    {
      FilterSnoc(ceilings, c => !admits(c), i);
      if !admits(ceilings[i]) { reasons := reasons + [RefusalOf(ceilings[i])]; }
    }
    assert ceilings[..|ceilings|] == ceilings;
  }

  /** Ceilings paired under one key read the same context field. */
  predicate FieldsMatch(a: Authority, b: Authority) {
    forall c :: c in b.ceilings ==>
      match Held(a.profile, a.ceilings, PairKeyOf(b.profile, c))
      case Some(mine) => FieldsAgree(c, mine)
      case None => true
  }

  /** A narrower authority grants nothing the wider one refuses. */
  lemma NarrowerIsSound(a: Authority, b: Authority, scope: string, ctx: Context, totals: Context)
    requires IsNarrower(a, b) && FieldsMatch(a, b)
    requires Grants(a, scope, ctx, totals)
    ensures Grants(b, scope, ctx, totals)
  {
    CoveredThrough(a, b, scope);
    forall c | c in b.ceilings ensures Admitted(b.profile, c, scope, ctx, totals) {
      assert BoundBy(a.profile, a.ceilings, c);
      var mine := Held(a.profile, a.ceilings, PairKeyOf(b.profile, c)).value;
      if b.profile.P02? && !IsMembership(c) { assert IsCumulative(c) == IsCumulative(mine); }
      SubsumedIsAdmitted(b.profile, c, mine, scope, ReadBy(b.profile, mine, scope, ctx, totals));
    }
  }

  /** A ceiling reads one field of the context. */
  lemma AdmitsByField(c: Ceiling, scope: string, ctx: Context, other: Context)
    requires Declared(ctx, CtxField(c)) == Declared(other, CtxField(c))
    ensures Admits(c, scope, ctx) == Admits(c, scope, other)
  {
    hide AppliesToScope;
  }

  /** What a wider ceiling reads by name is read by no narrower ceiling but the one paired with it. */
  predicate ReadApart(a: Authority, b: Authority) {
    forall y, c :: y in b.ceilings && c in a.ceilings && IsMembership(y) ==>
      MemberField(y) != "_scope" && (CtxField(c) == MemberField(y) ==> PairKeyOf(a.profile, c) == PairKeyOf(b.profile, y))
  }

  /** The request with a value under `field` that no ceiling reading it by name admits. */
  function Spoiled(ctx: Context, field: string): Context {
    With(ctx, field, JArr([]))
  }

  lemma SpoiledIsRefused(b: Authority, y: Ceiling, scope: string, ctx: Context, totals: Context)
    requires y in b.ceilings && IsMembership(y) && MemberField(y) != "_scope"
    ensures !Grants(b, scope, Spoiled(ctx, MemberField(y)), totals)
  {
    var field := MemberField(y);
    OwnWith(Spoiled(ctx, field), "_scope", JStr(scope), field);
    OwnWith(ctx, field, JArr([]), field);
    assert !IsCumulative(y);
    assert !Admitted(b.profile, y, scope, Spoiled(ctx, field), totals);
  }

  lemma SpoiledIsUnread(a: Authority, field: string, scope: string, ctx: Context, totals: Context)
    requires Grants(a, scope, ctx, totals) && forall c :: c in a.ceilings ==> CtxField(c) != field
    ensures Grants(a, scope, Spoiled(ctx, field), totals)
  {
    hide CtxField, Admits, IsCumulative, CoversAny;
    forall c | c in a.ceilings ensures Admitted(a.profile, c, scope, Spoiled(ctx, field), totals) {
      assert Admitted(a.profile, c, scope, ctx, totals);
      OwnWith(ctx, "_scope", JStr(scope), CtxField(c));
      OwnWith(Spoiled(ctx, field), "_scope", JStr(scope), CtxField(c));
      OwnWith(ctx, field, JArr([]), CtxField(c));
      AdmitsByField(c, scope, ReadBy(a.profile, c, scope, ctx, totals), ReadBy(a.profile, c, scope, Spoiled(ctx, field), totals));
    }
  }

  /** Where the narrower side admits some request, and each field is read under one key, soundness is the match of fields. */
  lemma SoundIffFieldsMatch(a: Authority, b: Authority, scope: string, some: Context, totals: Context)
    requires Valid(a) && IsNarrower(a, b) && ReadApart(a, b) && Grants(a, scope, some, totals)
    ensures (forall ctx :: Grants(a, scope, ctx, totals) ==> Grants(b, scope, ctx, totals)) <==> FieldsMatch(a, b)
  {
    if FieldsMatch(a, b) {
      forall ctx | Grants(a, scope, ctx, totals) ensures Grants(b, scope, ctx, totals) { NarrowerIsSound(a, b, scope, ctx, totals); }
    } else {
      var y :| y in b.ceilings && Held(a.profile, a.ceilings, PairKeyOf(b.profile, y)).Some?
               && !FieldsAgree(y, Held(a.profile, a.ceilings, PairKeyOf(b.profile, y)).value);
      MismatchIsUnread(a, b, y);
      SpoiledIsUnread(a, MemberField(y), scope, some, totals);
      SpoiledIsRefused(b, y, scope, some, totals);
    }
  }

  lemma MismatchIsUnread(a: Authority, b: Authority, y: Ceiling)
    requires Valid(a) && ReadApart(a, b) && a.profile == b.profile && y in b.ceilings
    requires Held(a.profile, a.ceilings, PairKeyOf(b.profile, y)).Some?
    requires !FieldsAgree(y, Held(a.profile, a.ceilings, PairKeyOf(b.profile, y)).value)
    ensures IsMembership(y) && MemberField(y) != "_scope" && forall c :: c in a.ceilings ==> CtxField(c) != MemberField(y)
  {
    hide WellFormed, PairKeyOf, ValidScopes;
    DistinctKeysPair(a.profile, a.ceilings);
    var mine := Held(a.profile, a.ceilings, PairKeyOf(b.profile, y)).value;
    forall c | c in a.ceilings ensures CtxField(c) != MemberField(y) {
      if PairKeyOf(a.profile, c) == PairKeyOf(b.profile, y) { assert c == mine; }
    }
  }

  // ---- soundness, field by field ------------------------------------------

  /** Does the ceiling admit a value of the field it reads, null standing for none? */
  predicate AdmitsValue(c: Ceiling, scope: string, v: Json) {
    Admits(c, scope, [Member(CtxField(c), v)])
  }

  function ValueIn(ctx: Context, field: string): Json {
    match Own(ctx, field) case Some(v) => v case None => JNull
  }

  lemma AdmitsIffValue(c: Ceiling, scope: string, ctx: Context)
    ensures Admits(c, scope, ctx) <==> AdmitsValue(c, scope, ValueIn(ctx, CtxField(c)))
  {
    AdmitsByField(c, scope, ctx, [Member(CtxField(c), ValueIn(ctx, CtxField(c)))]);
  }

  predicate ReadsRequest(profile: Profile, c: Ceiling) { !(profile.P02? && IsCumulative(c)) }

  /** The narrower side's own ceilings on the field `y` reads admit no value that `y` refuses. */
  ghost predicate IsGuarded(a: Authority, y: Ceiling, scope: string)
    requires IsMembership(y)
  {
    forall v {:trigger AdmitsValue(y, scope, v)} ::
      (MemberField(y) == "_scope" ==> v == JStr(scope)) && AllAdmit(a, MemberField(y), scope, v) ==> AdmitsValue(y, scope, v)
  }

  predicate AllAdmit(a: Authority, field: string, scope: string, v: Json) {
    forall c :: c in a.ceilings && ReadsRequest(a.profile, c) && CtxField(c) == field ==> AdmitsValue(c, scope, v)
  }

  lemma GrantedValues(a: Authority, field: string, scope: string, ctx: Context, totals: Context)
    requires Grants(a, scope, ctx, totals)
    ensures AllAdmit(a, field, scope, ValueIn(With(ctx, "_scope", JStr(scope)), field))
  {
    hide Admits, CtxField, IsCumulative, CoversAny, AdmitsValue;
    forall c | c in a.ceilings && ReadsRequest(a.profile, c) && CtxField(c) == field
      ensures AdmitsValue(c, scope, ValueIn(With(ctx, "_scope", JStr(scope)), field))
    {
      assert Admitted(a.profile, c, scope, ctx, totals);
      AdmitsIffValue(c, scope, With(ctx, "_scope", JStr(scope)));
    }
  }

  /** A request granted, with the field given a value that every reader of it admits, is granted. */
  lemma GrantedWith(a: Authority, field: string, scope: string, ctx: Context, totals: Context, v: Json)
    requires Grants(a, scope, ctx, totals) && AllAdmit(a, field, scope, v) && (field == "_scope" ==> v == JStr(scope))
    ensures Grants(a, scope, With(ctx, field, v), totals)
  {
    hide Admits, CtxField, IsCumulative, CoversAny, AdmitsValue;
    var other := With(ctx, field, v);
    forall c | c in a.ceilings ensures Admitted(a.profile, c, scope, other, totals) {
      assert Admitted(a.profile, c, scope, ctx, totals);
      if ReadsRequest(a.profile, c) {
        OwnWith(ctx, "_scope", JStr(scope), CtxField(c));
        OwnWith(other, "_scope", JStr(scope), CtxField(c));
        OwnWith(ctx, field, v, CtxField(c));
        if CtxField(c) == field {
          AdmitsIffValue(c, scope, With(other, "_scope", JStr(scope)));
        } else {
          AdmitsByField(c, scope, With(ctx, "_scope", JStr(scope)), With(other, "_scope", JStr(scope)));
        }
      }
    }
  }

  lemma MembershipReadsRequest(profile: Profile, y: Ceiling)
    requires IsMembership(y)
    ensures ReadsRequest(profile, y) && CtxField(y) == MemberField(y)
  {
  }

  /** A narrower authority's ceilings that no caller names the field of carry over. */
  lemma UnnamedIsAdmitted(a: Authority, b: Authority, y: Ceiling, scope: string, ctx: Context, totals: Context)
    requires IsNarrower(a, b) && Grants(a, scope, ctx, totals) && y in b.ceilings && !IsMembership(y)
    ensures Admitted(b.profile, y, scope, ctx, totals)
  {
    hide Admits, CoversAny;
    assert BoundBy(a.profile, a.ceilings, y);
    var mine := Held(a.profile, a.ceilings, PairKeyOf(b.profile, y)).value;
    assert Admitted(a.profile, mine, scope, ctx, totals);
    if b.profile.P02? { assert IsCumulative(y) == IsCumulative(mine); }
    SubsumedIsAdmitted(b.profile, y, mine, scope, ReadBy(b.profile, mine, scope, ctx, totals));
  }

  /**
   * Where the narrower side grants something, it is sound for evaluation exactly when each named field the wider side
   * bounds is guarded: whatever the narrower side's own ceilings on the field admit, the wider side's admits.
   */
  lemma SoundIffGuarded(a: Authority, b: Authority, scope: string, some: Context, totals: Context)
    requires IsNarrower(a, b) && Grants(a, scope, some, totals)
    ensures (forall ctx :: Grants(a, scope, ctx, totals) ==> Grants(b, scope, ctx, totals))
            <==> forall y :: y in b.ceilings && IsMembership(y) ==> IsGuarded(a, y, scope)
  {
    hide Admits, AdmitsValue, CoversAny, Subsumes, PairKeyOf, CtxField, IsCumulative, AllAdmit;
    if forall y :: y in b.ceilings && IsMembership(y) ==> IsGuarded(a, y, scope) {
      forall ctx | Grants(a, scope, ctx, totals) ensures Grants(b, scope, ctx, totals) { GuardedIsSound(a, b, scope, ctx, totals); }
    }
    if forall ctx :: Grants(a, scope, ctx, totals) ==> Grants(b, scope, ctx, totals) {
      forall y | y in b.ceilings && IsMembership(y) ensures IsGuarded(a, y, scope) {
        forall v | (MemberField(y) == "_scope" ==> v == JStr(scope)) && AllAdmit(a, MemberField(y), scope, v) ensures AdmitsValue(y, scope, v) {
          GrantedWith(a, MemberField(y), scope, some, totals, v);
          GrantedMember(b, y, scope, With(some, MemberField(y), v), totals);
          OwnWith(With(some, MemberField(y), v), "_scope", JStr(scope), MemberField(y));
          OwnWith(some, MemberField(y), v, MemberField(y));
        }
      }
    }
  }

  lemma GrantedMember(b: Authority, y: Ceiling, scope: string, ctx: Context, totals: Context)
    requires Grants(b, scope, ctx, totals) && y in b.ceilings && IsMembership(y)
    ensures AdmitsValue(y, scope, ValueIn(With(ctx, "_scope", JStr(scope)), MemberField(y)))
  {
    hide Admits, AdmitsValue, CoversAny;
    MembershipReadsRequest(b.profile, y);
    assert Admitted(b.profile, y, scope, ctx, totals);
    AdmitsIffValue(y, scope, With(ctx, "_scope", JStr(scope)));
  }

  lemma GuardedIsSound(a: Authority, b: Authority, scope: string, ctx: Context, totals: Context)
    requires IsNarrower(a, b) && Grants(a, scope, ctx, totals)
    requires forall y :: y in b.ceilings && IsMembership(y) ==> IsGuarded(a, y, scope)
    ensures Grants(b, scope, ctx, totals)
  {
    CoveredThrough(a, b, scope);
    hide Admits, AdmitsValue, CoversAny, Subsumes, PairKeyOf, AllAdmit, BoundBy;
    forall y | y in b.ceilings ensures Admitted(b.profile, y, scope, ctx, totals) {
      if IsMembership(y) {
        MembershipReadsRequest(b.profile, y);
        GrantedValues(a, MemberField(y), scope, ctx, totals);
        OwnWith(ctx, "_scope", JStr(scope), MemberField(y));
        assert IsGuarded(a, y, scope);
        AdmitsIffValue(y, scope, With(ctx, "_scope", JStr(scope)));
      } else {
        UnnamedIsAdmitted(a, b, y, scope, ctx, totals);
      }
    }
  }

  /** Without the field hypothesis soundness fails: a child may name another field under the same key. */
  lemma FieldMismatchWidens()
    ensures var parent := Authority(["crm.read"], [Allow("region", [Plain(JStr("eu"))], None)], None, P01);
            var child := Authority(["crm.read"], [Allow("region", [Plain(JStr("eu"))], Some("zone"))], None, P01);
            var ctx := [Member("region", JStr("us"))];
            && IsNarrower(child, parent)
            && Grants(child, "crm.read", ctx, []) && !Grants(parent, "crm.read", ctx, [])
  {
    var parent := Authority(["crm.read"], [Allow("region", [Plain(JStr("eu"))], None)], None, P01);
    var child := Authority(["crm.read"], [Allow("region", [Plain(JStr("eu"))], Some("zone"))], None, P01);
    var ctx := [Member("region", JStr("us"))];
    assert Covers(P01, "crm.read", "crm.read");
    assert "crm.read" in parent.scopes && "crm.read" in child.scopes;
    assert BoundBy(P01, child.ceilings, parent.ceilings[0]);
    OwnWith(ctx, "_scope", JStr("crm.read"), "zone");
    OwnWith(ctx, "_scope", JStr("crm.read"), "region");
    assert "zone"[0] == 'z' && "_scope"[0] == '_' && "region"[0] == 'r';
    assert Own(ctx, "zone") == None by { assert ctx[0].name == "region"; assert Own(ctx[1..], "zone") == None; }
    assert Own(ctx, "region") == Some(JStr("us"));
    assert Plain(JStr("us")) != Plain(JStr("eu")) by { assert "us"[0] == 'u' && "eu"[0] == 'e'; }
    assert !Admitted(P01, parent.ceilings[0], "crm.read", ctx, []);
  }
}
