/** `Authority.meet` (src/authority.ts): the greatest authority within a parent's and a requested one. */
module Meets {
  import opened Results
  import opened PlainJson
  import opened Scopes
  import opened Ceilings
  import opened Authorities

  /** Both sides bound a key: narrow, except that a parent's unknown constraint is kept against any other. */
  function Combine(a: Ceiling, b: Ceiling): Option<Ceiling> {
    if SameType(a, b) then Narrow(a, b)
    else if a.Unknown? then Some(a)
    else None
  }

  /** What the meet holds under one pairing key; `Some(None)` is a key neither side bounds. */
  function CombineHeld(a: Option<Ceiling>, b: Option<Ceiling>): Option<Option<Ceiling>> {
    match (a, b)
    case (Some(x), Some(y)) => (match Combine(x, y) case Some(r) => Some(Some(r)) case None => None)
    case (Some(x), None) => Some(a)
    case (None, _) => Some(b)
  }

  /** This side's ceilings, each narrowed by the other side's where it bounds the key too. */
  function CombineAll(profile: Profile, mine: seq<Ceiling>, theirs: seq<Ceiling>): Option<seq<Ceiling>> {
    if mine == [] then Some([])
    else
      match (CombineHeld(Some(mine[0]), Held(profile, theirs, PairKeyOf(profile, mine[0]))), CombineAll(profile, mine[1..], theirs))
      case (Some(Some(c)), Some(rest)) => Some([c] + rest)
      case _ => None
  }

  predicate Unmatched(profile: Profile, ceilings: seq<Ceiling>, c: Ceiling) {
    Held(profile, ceilings, PairKeyOf(profile, c)).None?
  }

  function LeastTtl(a: Option<int>, b: Option<int>): Option<int> {
    match (a, b)
    case (Some(x), Some(y)) => Some(Least(x, y))
    case (Some(_), None) => a
    case (None, _) => b
  }

  /** The attenuation; `None` is the refusal `not_narrower`. */
  function Meet(a: Authority, b: Authority): Option<Authority> {
    if a.profile != b.profile then None
    else
      match CombineAll(a.profile, a.ceilings, b.ceilings)
      case None => None
      case Some(cs) =>
        Some(Authority(
          Pruned(a.profile, Merged(a.profile, a.scopes, b.scopes)),
          cs + Filter(b.ceilings, c => Unmatched(a.profile, a.ceilings, c)),
          LeastTtl(a.ttl, b.ttl),
          a.profile))
  }

  // ---- the imperative form ------------------------------------------------

  /** `Set.add` for each element that passes, on the set built so far. */
  method AddAll(start: seq<string>, more: seq<string>, keep: string -> bool) returns (merged: seq<string>)
    requires Distinct(more)
    ensures merged == start + Filter(more, s => keep(s) && s !in start)
  {
    merged := start;
    var novel := s => keep(s) && s !in start;
    for i := 0 to |more|
      invariant merged == start + Filter(more[..i], novel)
    {
      FilterSnoc(more, novel, i);
      assert more[i] !in more[..i];
      if keep(more[i]) && more[i] !in merged { merged := merged + [more[i]]; }
    }
    assert more[..|more|] == more;
  }

  method MeetOf(a: Authority, b: Authority) returns (r: Option<Authority>)
    requires Valid(a) && Valid(b)
    ensures r == Meet(a, b)
  {
    if a.profile != b.profile { return None; }
    var requested := AddAll([], b.scopes, s => CoversAny(a.profile, a.scopes, s));
    var merged := AddAll(requested, a.scopes, s => CoversAny(a.profile, b.scopes, s));
    MergedByAdding(a.profile, a.scopes, b.scopes, requested, merged);
    var pruned := Filter(merged, s => !Redundant(a.profile, merged, s));
    var ceilings: seq<Ceiling> := [];
    var i := |a.ceilings|;
    while i > 0
      invariant 0 <= i <= |a.ceilings|
      invariant CombineAll(a.profile, a.ceilings[i..], b.ceilings) == Some(ceilings)
    {
      i := i - 1;
      assert a.ceilings[i..][1..] == a.ceilings[i + 1..];
      var c := a.ceilings[i];
      var other := Held(a.profile, b.ceilings, PairKeyOf(a.profile, c));
      if other.None? {
        ceilings := [c] + ceilings;
      } else {
        var combined := Combine(c, other.value);
        if combined.None? {
          CombineFails(a.profile, a.ceilings, b.ceilings, i);
          return None;
        }
        ceilings := [combined.value] + ceilings;
      }
    }
    assert a.ceilings[0..] == a.ceilings;
    var rest := Filter(b.ceilings, c => Unmatched(a.profile, a.ceilings, c));
    return Some(Authority(pruned, ceilings + rest, LeastTtl(a.ttl, b.ttl), a.profile));
  }

  lemma {:induction false} FilterAgrees<T(!new)>(s: seq<T>, f: T -> bool, g: T -> bool)
    requires forall x :: x in s ==> f(x) == g(x)
    ensures Filter(s, f) == Filter(s, g)
  {
    if s != [] { FilterAgrees(s[1..], f, g); }
  }

  lemma MergedByAdding(profile: Profile, mine: seq<string>, theirs: seq<string>, requested: seq<string>, merged: seq<string>)
    requires var keep := s => CoversAny(profile, mine, s); requested == [] + Filter(theirs, s => keep(s) && s !in [])
    requires var keep := s => CoversAny(profile, theirs, s);
             merged == requested + Filter(mine, s => keep(s) && s !in requested)
    ensures merged == Merged(profile, mine, theirs)
  {
    var keep := s => CoversAny(profile, mine, s);
    FilterAgrees(theirs, s => keep(s) && s !in [], keep);
    assert requested == Filter(theirs, s => CoversAny(profile, mine, s));
    var keepMine := s => CoversAny(profile, theirs, s);
    FilterAgrees(mine, s => keepMine(s) && s !in requested, s => CoversAny(profile, theirs, s) && s !in requested);
  }

  lemma {:induction false} CombineFails(profile: Profile, mine: seq<Ceiling>, theirs: seq<Ceiling>, i: nat)
    requires i < |mine| && CombineHeld(Some(mine[i]), Held(profile, theirs, PairKeyOf(profile, mine[i]))).None?
    ensures CombineAll(profile, mine, theirs).None?
  {
    if i > 0 { CombineFails(profile, mine[1..], theirs, i - 1); }
  }

  // ---- what the meet holds ------------------------------------------------

  lemma {:induction false} HeldConcat(profile: Profile, x: seq<Ceiling>, y: seq<Ceiling>, k: PairKey)
    ensures Held(profile, x + y, k) == (if Held(profile, x, k).Some? then Held(profile, x, k) else Held(profile, y, k))
  {
    if x == [] {
      assert x + y == y;
    } else {
      HeldConcat(profile, x[1..], y, k);
      assert (x + y)[1..] == x[1..] + y;
    }
  }

  lemma {:induction false} HeldFiltered(profile: Profile, mine: seq<Ceiling>, theirs: seq<Ceiling>, k: PairKey)
    ensures Held(profile, Filter(theirs, c => Unmatched(profile, mine, c)), k)
            == (if Held(profile, mine, k).Some? then None else Held(profile, theirs, k))
  {
    if theirs != [] {
      HeldFiltered(profile, mine, theirs[1..], k);
      HeldConcat(profile, if Unmatched(profile, mine, theirs[0]) then [theirs[0]] else [],
                 Filter(theirs[1..], c => Unmatched(profile, mine, c)), k);
    }
  }

  lemma CombineKeepsKey(profile: Profile, a: Ceiling, b: Ceiling)
    requires PairKeyOf(profile, a) == PairKeyOf(profile, b) && Combine(a, b).Some?
    requires WellFormed(a) && WellFormed(b)
    ensures WellFormed(Combine(a, b).value) && PairKeyOf(profile, Combine(a, b).value) == PairKeyOf(profile, a)
  {
    if SameType(a, b) { NarrowStaysBelow(profile, a, b); }
  }

  ghost predicate AllWellFormed(ceilings: seq<Ceiling>) {
    forall c :: c in ceilings ==> WellFormed(c)
  }

  lemma {:induction false} CombineAllKeys(profile: Profile, mine: seq<Ceiling>, theirs: seq<Ceiling>, k: PairKey)
    requires AllWellFormed(mine) && AllWellFormed(theirs) && CombineAll(profile, mine, theirs).Some?
    ensures var cs := CombineAll(profile, mine, theirs).value;
            && AllWellFormed(cs) && |cs| == |mine|
            && (forall i :: 0 <= i < |cs| ==> PairKeyOf(profile, cs[i]) == PairKeyOf(profile, mine[i]))
            && (Held(profile, mine, k).None? ==> Held(profile, cs, k).None?)
            && (Held(profile, mine, k).Some? ==>
                  CombineHeld(Held(profile, mine, k), Held(profile, theirs, k)) == Some(Held(profile, cs, k)))
  {
    if mine != [] {
      var other := Held(profile, theirs, PairKeyOf(profile, mine[0]));
      if other.Some? { CombineKeepsKey(profile, mine[0], other.value); }
      CombineAllKeys(profile, mine[1..], theirs, k);
      var cs := CombineAll(profile, mine, theirs).value;
      assert cs[1..] == CombineAll(profile, mine[1..], theirs).value;
    }
  }

  /** Key by key, the meet holds the combination of what the two sides hold. */
  lemma HeldInMeet(a: Authority, b: Authority, k: PairKey)
    requires Valid(a) && Valid(b) && Meet(a, b).Some?
    ensures var m := Meet(a, b).value;
            CombineHeld(Held(a.profile, a.ceilings, k), Held(a.profile, b.ceilings, k)) == Some(Held(a.profile, m.ceilings, k))
  {
    CombineAllKeys(a.profile, a.ceilings, b.ceilings, k);
    HeldFiltered(a.profile, a.ceilings, b.ceilings, k);
    HeldConcat(a.profile, CombineAll(a.profile, a.ceilings, b.ceilings).value,
               Filter(b.ceilings, c => Unmatched(a.profile, a.ceilings, c)), k);
  }

  // ---- when there is no meet ----------------------------------------------

  /** The two bound one key in ways that have no common narrowing. */
  predicate Clash(a: Ceiling, b: Ceiling) {
    if a.Rank? && b.Rank? then a.order != b.order else !SameType(a, b) && !a.Unknown?
  }

  predicate ClashAt(profile: Profile, mine: seq<Ceiling>, theirs: seq<Ceiling>, i: nat) {
    i < |mine| && exists j :: 0 <= j < |theirs| && PairKeyOf(profile, mine[i]) == PairKeyOf(profile, theirs[j]) && Clash(mine[i], theirs[j])
  }

  lemma ClashIff(profile: Profile, c: Ceiling, theirs: seq<Ceiling>)
    requires DistinctKeys(profile, theirs)
    ensures CombineHeld(Some(c), Held(profile, theirs, PairKeyOf(profile, c))).None?
            <==> exists j :: 0 <= j < |theirs| && PairKeyOf(profile, c) == PairKeyOf(profile, theirs[j]) && Clash(c, theirs[j])
  {
    hide PairKeyOf;
    DistinctKeysPair(profile, theirs);
    var other := Held(profile, theirs, PairKeyOf(profile, c));
    if other.Some? { var j :| 0 <= j < |theirs| && theirs[j] == other.value; }
    if j :| 0 <= j < |theirs| && PairKeyOf(profile, c) == PairKeyOf(profile, theirs[j]) && Clash(c, theirs[j]) { assert theirs[j] in theirs; }
  }

  lemma {:induction false} CombineAllFailsIff(profile: Profile, mine: seq<Ceiling>, theirs: seq<Ceiling>)
    requires DistinctKeys(profile, theirs)
    ensures CombineAll(profile, mine, theirs).None? <==> exists i: nat :: ClashAt(profile, mine, theirs, i)
  {
    hide PairKeyOf, Clash, Combine;
    if mine != [] {
      CombineAllFailsIff(profile, mine[1..], theirs);
      ClashIff(profile, mine[0], theirs);
      if i: nat :| ClashAt(profile, mine[1..], theirs, i) { assert ClashAt(profile, mine, theirs, i + 1); }
      if i: nat :| ClashAt(profile, mine, theirs, i) {
        if i > 0 { assert ClashAt(profile, mine[1..], theirs, i - 1); }
      }
      assert ClashAt(profile, mine, theirs, 0) <==>
             exists j :: 0 <= j < |theirs| && PairKeyOf(profile, mine[0]) == PairKeyOf(profile, theirs[j]) && Clash(mine[0], theirs[j]);
      assert CombineHeld(Some(mine[0]), Held(profile, theirs, PairKeyOf(profile, mine[0]))) != Some(None);
    }
  }

  /** There is no meet exactly between two profiles, and where some key is bound in ways that have no common narrowing. */
  lemma MeetRefusedIff(a: Authority, b: Authority)
    requires Valid(b)
    ensures Meet(a, b).None? <==> a.profile != b.profile || exists i: nat :: ClashAt(a.profile, a.ceilings, b.ceilings, i)
  {
    hide CombineAll, ClashAt, WellFormed, ValidScopes;
    if a.profile == b.profile { CombineAllFailsIff(a.profile, a.ceilings, b.ceilings); }
  }
}
