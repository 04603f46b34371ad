/** `meet` is the greatest lower bound of `isNarrowerThan` and grants what both sides grant. */
module Lattice {
  import opened Results
  import opened PlainJson
  import opened Scopes
  import opened Ceilings
  import opened Authorities
  import opened Meets

  // ---- the meet is an authority -------------------------------------------

  lemma MergedIsDistinct(profile: Profile, mine: seq<string>, theirs: seq<string>)
    requires Distinct(mine) && Distinct(theirs)
    ensures Distinct(Pruned(profile, Merged(profile, mine, theirs)))
  {
    var kept := Filter(theirs, s => CoversAny(profile, mine, s));
    var own := Filter(mine, s => CoversAny(profile, theirs, s) && s !in kept);
    FilterKeepsDistinct(theirs, s => CoversAny(profile, mine, s));
    FilterKeepsDistinct(mine, s => CoversAny(profile, theirs, s) && s !in kept);
    var merged := Merged(profile, mine, theirs);
    forall i, j | 0 <= i < j < |merged| ensures merged[i] != merged[j] {
      if i < |kept| <= j { assert merged[j] in own && merged[i] in kept; }
    }
    FilterKeepsDistinct(merged, s => !Redundant(profile, merged, s));
  }

  lemma FilteredKeysDistinct(profile: Profile, mine: seq<Ceiling>, theirs: seq<Ceiling>)
    requires DistinctKeys(profile, theirs)
    ensures DistinctKeys(profile, Filter(theirs, c => Unmatched(profile, mine, c)))
  {
    FilterKeepsPairs(theirs, c => Unmatched(profile, mine, c), (c, d) => PairKeyOf(profile, c) != PairKeyOf(profile, d));
  }

  lemma MeetIsValid(a: Authority, b: Authority)
    requires Valid(a) && Valid(b) && Meet(a, b).Some?
    ensures Valid(Meet(a, b).value)
  {
    var m := Meet(a, b).value;
    MergedIsDistinct(a.profile, a.scopes, b.scopes);
    if a.ceilings != [] { CombineAllKeys(a.profile, a.ceilings, b.ceilings, PairKeyOf(a.profile, a.ceilings[0])); }
    FilteredKeysDistinct(a.profile, a.ceilings, b.ceilings);
    var cs := CombineAll(a.profile, a.ceilings, b.ceilings).value;
    var rest := Filter(b.ceilings, c => Unmatched(a.profile, a.ceilings, c));
    forall i, j | 0 <= i < j < |m.ceilings|
      ensures PairKeyOf(a.profile, m.ceilings[i]) != PairKeyOf(a.profile, m.ceilings[j])
    {
      if i < |cs| <= j {
        assert m.ceilings[j] in rest;
        assert a.ceilings[i] in a.ceilings;
      }
    }
  }

  // ---- the greatest lower bound -------------------------------------------

  /** The meet is inside this side exactly where RFC 8785 can write this side's unknown ceilings. */
  lemma MeetIsNarrower(a: Authority, b: Authority)
    requires Valid(a) && Valid(b) && Meet(a, b).Some?
    ensures IsNarrower(Meet(a, b).value, a) <==> UnknownsWritable(a)
  {
    var m := Meet(a, b).value;
    DistinctKeysPair(a.profile, a.ceilings);
    forall s | s in m.scopes ensures CoversAny(a.profile, a.scopes, s) {
      IntersectionIsExact(a.profile, a.scopes, b.scopes, s);
      CoversReflexive(a.profile, s);
    }
    forall c | c in a.ceilings
      ensures BoundBy(m.profile, m.ceilings, c) <==> (c.Unknown? ==> Canonicalizable(JObj(c.raw)))
    {
      BoundInMeet(a, b, c);
    }
  }

  lemma BoundInMeet(a: Authority, b: Authority, c: Ceiling)
    requires Valid(a) && Valid(b) && Meet(a, b).Some? && c in a.ceilings
    ensures BoundBy(a.profile, Meet(a, b).value.ceilings, c) <==> (c.Unknown? ==> Canonicalizable(JObj(c.raw)))
  {
    var k := PairKeyOf(a.profile, c);
    DistinctKeysPair(a.profile, a.ceilings);
    HeldInMeet(a, b, k);
    SubsumesReflexive(c);
    match Held(a.profile, b.ceilings, k)
    case Some(d) => if SameType(c, d) { NarrowStaysBelow(a.profile, c, d); }
    case None =>
  }

  /** Any authority within both sides is within their meet, and then the meet is not refused. */
  lemma MeetIsGreatest(a: Authority, b: Authority, z: Authority)
    requires Valid(a) && Valid(b)
    requires IsNarrower(z, a) && IsNarrower(z, b)
    ensures Meet(a, b).Some? && IsNarrower(z, Meet(a, b).value)
  {
    forall c | c in a.ceilings ensures CombineHeld(Some(c), Held(a.profile, b.ceilings, PairKeyOf(a.profile, c))).Some? {
      CommonBoundCombines(a, b, z, c);
    }
    CombineSucceeds(a.profile, a.ceilings, b.ceilings);
    var m := Meet(a, b).value;
    forall s | s in z.scopes ensures CoversAny(m.profile, m.scopes, s) {
      IntersectionIsExact(a.profile, a.scopes, b.scopes, s);
    }
    MeetIsValid(a, b);
    forall c | c in m.ceilings ensures BoundBy(z.profile, z.ceilings, c) {
      BoundBelowBoth(a, b, z, c);
    }
  }

  lemma CommonBoundCombines(a: Authority, b: Authority, z: Authority, c: Ceiling)
    requires a.profile == b.profile && IsNarrower(z, a) && IsNarrower(z, b) && c in a.ceilings
    ensures CombineHeld(Some(c), Held(a.profile, b.ceilings, PairKeyOf(a.profile, c))).Some?
  {
    assert BoundBy(a.profile, z.ceilings, c);
    match Held(a.profile, b.ceilings, PairKeyOf(a.profile, c))
    case Some(d) =>
      assert BoundBy(a.profile, z.ceilings, d);
      NarrowIsGreatest(c, d, Held(a.profile, z.ceilings, PairKeyOf(a.profile, c)).value);
    case None =>
  }

  lemma {:induction false} CombineSucceeds(profile: Profile, mine: seq<Ceiling>, theirs: seq<Ceiling>)
    requires forall c :: c in mine ==> CombineHeld(Some(c), Held(profile, theirs, PairKeyOf(profile, c))).Some?
    ensures CombineAll(profile, mine, theirs).Some?
  {
    if mine != [] {
      CombineSucceeds(profile, mine[1..], theirs);
      assert mine[0] in mine;
    }
  }

  lemma BoundBelowBoth(a: Authority, b: Authority, z: Authority, c: Ceiling)
    requires Valid(a) && Valid(b) && Meet(a, b).Some? && Valid(Meet(a, b).value) && c in Meet(a, b).value.ceilings
    requires IsNarrower(z, a) && IsNarrower(z, b)
    ensures BoundBy(z.profile, z.ceilings, c)
  {
    var m := Meet(a, b).value;
    var k := PairKeyOf(a.profile, c);
    DistinctKeysPair(m.profile, m.ceilings);
    HeldInMeet(a, b, k);
    match (Held(a.profile, a.ceilings, k), Held(a.profile, b.ceilings, k))
    case (Some(x), Some(y)) =>
      assert BoundBy(z.profile, z.ceilings, x) && BoundBy(z.profile, z.ceilings, y);
      NarrowIsGreatest(x, y, Held(z.profile, z.ceilings, k).value);
    case (Some(x), None) => assert BoundBy(z.profile, z.ceilings, x);
    case (None, Some(y)) => assert BoundBy(z.profile, z.ceilings, y);
    case (None, None) =>
  }

  /** A key on which the meet is not inside the request: prefixes no string shares, or this side's
      unknown constraint where the request's is another or of another class. */
  predicate EscapesRequest(a: Authority, y: Ceiling) {
    match Held(a.profile, a.ceilings, PairKeyOf(a.profile, y))
    case Some(x) => if SameType(x, y) then NarrowsOnlyFirst(x, y) else true
    case None => y.Unknown? && !Canonicalizable(JObj(y.raw))
  }

  /** The documented commutativity, exactly: the meet is within the request but for the keys above. */
  lemma MeetWithinRequestIff(a: Authority, b: Authority)
    requires Valid(a) && Valid(b) && Meet(a, b).Some?
    ensures IsNarrower(Meet(a, b).value, b) <==> forall y :: y in b.ceilings ==> !EscapesRequest(a, y)
  {
    var m := Meet(a, b).value;
    DistinctKeysPair(b.profile, b.ceilings);
    forall s | s in m.scopes ensures CoversAny(b.profile, b.scopes, s) {
      IntersectionIsExact(a.profile, a.scopes, b.scopes, s);
      CoversReflexive(a.profile, s);
    }
    forall y | y in b.ceilings ensures BoundBy(m.profile, m.ceilings, y) <==> !EscapesRequest(a, y) {
      var k := PairKeyOf(a.profile, y);
      HeldInMeet(a, b, k);
      SubsumesReflexive(y);
      match Held(a.profile, a.ceilings, k) {
        case Some(x) => if SameType(x, y) { NarrowBelowSecond(a.profile, x, y); }
        case None =>
      }
    }
  }

  // ---- the meet as intersection -------------------------------------------

  /** No request string starts with the marked prefix two incomparable prefixes meet in. */
  predicate MarkerFree(a: Authority, b: Authority, scope: string, ctx: Context, totals: Context) {
    forall x :: x in a.ceilings ==>
      match Held(a.profile, b.ceilings, PairKeyOf(a.profile, x))
      case Some(y) => SameType(x, y) ==> !HitsMarker(x, y, ReadBy(a.profile, x, scope, ctx, totals))
      case None => true
  }

  predicate AdmittedUnder(a: Authority, k: PairKey, scope: string, ctx: Context, totals: Context) {
    var h := Held(a.profile, a.ceilings, k);
    h.Some? ==> Admitted(a.profile, h.value, scope, ctx, totals)
  }

  /** Under each key the meet admits what both sides admit. */
  lemma AdmittedInMeet(a: Authority, b: Authority, k: PairKey, scope: string, ctx: Context, totals: Context)
    requires Valid(a) && Valid(b) && Meet(a, b).Some? && FieldsMatch(b, a) && MarkerFree(a, b, scope, ctx, totals)
    ensures AdmittedUnder(Meet(a, b).value, k, scope, ctx, totals)
            <==> AdmittedUnder(a, k, scope, ctx, totals) && AdmittedUnder(b, k, scope, ctx, totals)
  {
    hide Admitted, PairKeyOf, Combine, DistinctKeys, ValidScopes, HitsMarker, FieldsAgree, SameType;
    HeldInMeet(a, b, k);
    match (Held(a.profile, a.ceilings, k), Held(a.profile, b.ceilings, k))
    case (Some(x), Some(y)) => CombinedAdmits(a.profile, x, y, scope, ctx, totals);
    case _ =>
  }

  /** Two ceilings of one key, combined, admit what both admit. */
  lemma CombinedAdmits(profile: Profile, x: Ceiling, y: Ceiling, scope: string, ctx: Context, totals: Context)
    requires PairKeyOf(profile, x) == PairKeyOf(profile, y) && WellFormed(x) && WellFormed(y) && Combine(x, y).Some? && FieldsAgree(x, y)
    requires SameType(x, y) ==> !HitsMarker(x, y, ReadBy(profile, x, scope, ctx, totals))
    ensures Admitted(profile, Combine(x, y).value, scope, ctx, totals) <==> Admitted(profile, x, scope, ctx, totals) && Admitted(profile, y, scope, ctx, totals)
  {
    if SameType(x, y) {
      hide Admits, PairKeyOf, DraftTypeOf, IsCumulative, HitsMarker, With, Narrow, WellFormed;
      NarrowStaysBelow(profile, x, y);
      CumulativeByClass(x, y);
      CumulativeByClass(x, Narrow(x, y).value);
      NarrowAdmitsBoth(profile, x, y, scope, ReadBy(profile, x, scope, ctx, totals));
    }
  }

  lemma CumulativeByClass(x: Ceiling, y: Ceiling)
    requires SameType(x, y)
    ensures IsCumulative(x) == IsCumulative(y)
  {
  }

  /** The meet grants a request exactly when both sides do. */
  lemma MeetGrantsBoth(a: Authority, b: Authority, scope: string, ctx: Context, totals: Context)
    requires Valid(a) && Valid(b) && Meet(a, b).Some?
    requires FieldsMatch(b, a) && MarkerFree(a, b, scope, ctx, totals)
    ensures Grants(Meet(a, b).value, scope, ctx, totals) <==> Grants(a, scope, ctx, totals) && Grants(b, scope, ctx, totals)
  {
    var m := Meet(a, b).value;
    MeetIsValid(a, b);
    IntersectionIsExact(a.profile, a.scopes, b.scopes, scope);
    forall k: PairKey { AdmittedInMeet(a, b, k, scope, ctx, totals); }
    GrantsByKey(a, scope, ctx, totals);
    GrantsByKey(b, scope, ctx, totals);
    GrantsByKey(m, scope, ctx, totals);
  }

  lemma GrantsByKey(a: Authority, scope: string, ctx: Context, totals: Context)
    requires Valid(a)
    ensures Grants(a, scope, ctx, totals)
            <==> CoversAny(a.profile, a.scopes, scope) && forall k :: AdmittedUnder(a, k, scope, ctx, totals)
  {
    DistinctKeysPair(a.profile, a.ceilings);
    if forall k :: AdmittedUnder(a, k, scope, ctx, totals) {
      forall c | c in a.ceilings ensures Admitted(a.profile, c, scope, ctx, totals) {
        assert AdmittedUnder(a, PairKeyOf(a.profile, c), scope, ctx, totals);
      }
    }
  }
}
