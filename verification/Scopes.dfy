/**
 * Scope grammars and covering: `Authority.scopeCovers` of the default profile (src/authority.ts) and the
 * three-form grammar of profile "02" (src/draft02.ts), with the scope half of `Authority.meet`.
 */
module Scopes {
  import opened Results

  datatype Profile = P01 | P02

  datatype ScopeForm = Literal | Wildcard | Opaque

  predicate IsSegmentStart(c: char) { 'a' <= c <= 'z' }

  predicate IsSegmentTail(c: char) { 'a' <= c <= 'z' || '0' <= c <= '9' || c == '_' || c == '-' }

  /** The character starts a segment, goes on with it, or is a dot with more behind it. */
  predicate IsDottedAt(s: string, i: int)
    requires 0 <= i < |s|
  {
    if i == 0 || s[i - 1] == '.' then IsSegmentStart(s[i])
    else IsSegmentTail(s[i]) || (s[i] == '.' && i + 1 < |s|)
  }

  /** One or more segments joined by single dots. */
  predicate IsDotted(s: string) {
    s != "" && forall i :: 0 <= i < |s| ==> IsDottedAt(s, i)
  }

  predicate EndsWithDotStar(s: string) {
    |s| >= 2 && s[|s| - 2] == '.' && s[|s| - 1] == '*'
  }

  /** The scope minus its final character: a wildcard's prefix, the dot kept. */
  function Stem(s: string): string
    requires s != ""
  {
    s[..|s| - 1]
  }

  predicate IsLiteral(s: string) { IsDotted(s) && '.' in s }

  predicate IsWildcard(s: string) { EndsWithDotStar(s) && IsDotted(s[..|s| - 2]) }

  /** RFC 6749 scope-token characters minus `*`. */
  predicate IsOpaqueChar(c: char) {
    c == '!' || '#' <= c <= ')' || '+' <= c <= '[' || ']' <= c <= '~'
  }

  predicate IsOpaque(s: string) {
    s != "" && forall i :: 0 <= i < |s| ==> IsOpaqueChar(s[i])
  }

  /** The form of a scope under the -02 grammar, tried in the draft's order. */
  function ClassifyScope(s: string): Option<ScopeForm> {
    if IsLiteral(s) then Some(Literal)
    else if IsWildcard(s) then Some(Wildcard)
    else if IsOpaque(s) then Some(Opaque)
    else None
  }

  /** `validateScope`: the -01 grammar is the literal and wildcard forms, the -02 adds the opaque one. */
  predicate IsScope(profile: Profile, s: string) {
    match profile
    case P01 => IsLiteral(s) || IsWildcard(s)
    case P02 => ClassifyScope(s).Some?
  }

  predicate Covers01(held: string, requested: string) {
    held == requested || (EndsWithDotStar(held) && Stem(held) <= requested)
  }

  predicate Covers02(held: string, requested: string) {
    match (ClassifyScope(held), ClassifyScope(requested))
    case (Some(Wildcard), Some(form)) => form != Opaque && Stem(held) <= requested
    case (Some(_), Some(_)) => held == requested
    case _ => false
  }

  /** The covering relation of a profile. */
  predicate Covers(profile: Profile, held: string, requested: string) {
    match profile
    case P01 => Covers01(held, requested)
    case P02 => Covers02(held, requested)
  }

  predicate CoversAny(profile: Profile, scopes: seq<string>, requested: string) {
    exists held :: held in scopes && Covers(profile, held, requested)
  }

  ghost predicate ValidScopes(profile: Profile, scopes: seq<string>) {
    forall s :: s in scopes ==> IsScope(profile, s)
  }

  // ---- the covering relation ----------------------------------------------

  lemma CoversReflexive(profile: Profile, s: string)
    requires IsScope(profile, s)
    ensures Covers(profile, s, s)
  {
  }

  /** Covering composes, on all strings and in both grammars. */
  lemma CoversTransitive(profile: Profile, a: string, b: string, c: string)
    requires Covers(profile, a, b) && Covers(profile, b, c)
    ensures Covers(profile, a, c)
  {
    if profile.P01? && a != b && b != c {
      assert b[|Stem(a)| - 1] == Stem(a)[|Stem(a)| - 1] == '.';
      assert Stem(a) <= Stem(b);
    } else if profile.P02? && ClassifyScope(a) == ClassifyScope(b) == Some(Wildcard) {
      assert b[|Stem(a)| - 1] == Stem(a)[|Stem(a)| - 1] == '.';
      assert Stem(a) <= Stem(b);
    }
  }

  // ---- the scope half of `meet` -------------------------------------------

  /** The requested scopes this side covers, then this side's own scopes the request covers. */
  function Merged(profile: Profile, mine: seq<string>, theirs: seq<string>): (r: seq<string>) {
    var kept := Filter(theirs, s => CoversAny(profile, mine, s));
    kept + Filter(mine, s => CoversAny(profile, theirs, s) && s !in kept)
  }

  /** Is `s` redundant: covered by another wildcard of the same list? */
  predicate Redundant(profile: Profile, merged: seq<string>, s: string) {
    exists w :: w in merged && EndsWithDotStar(w) && w != s && Covers(profile, w, s)
  }

  function Pruned(profile: Profile, merged: seq<string>): (r: seq<string>) {
    Filter(merged, s => !Redundant(profile, merged, s))
  }

  /** A wildcard covers another wildcard only when it is strictly shorter. */
  lemma WiderIsShorter(profile: Profile, w: string, s: string)
    requires EndsWithDotStar(w) && EndsWithDotStar(s) && w != s && Covers(profile, w, s)
    ensures |w| < |s|
  {
    if profile.P01? || ClassifyScope(w) == Some(Wildcard) {
      assert s[|Stem(w)| - 1] == Stem(w)[|Stem(w)| - 1] == '.';
      assert w == Stem(w) + "*" && s == Stem(s) + "*";
    }
  }

  /** Every merged scope is covered by one that pruning keeps. */
  lemma {:induction false} KeptCover(profile: Profile, merged: seq<string>, s: string) returns (w: string)
    requires ValidScopes(profile, merged) && s in merged
    ensures w in Pruned(profile, merged) && Covers(profile, w, s)
    decreases if EndsWithDotStar(s) then 0 else 1, |s|
  {
    if Redundant(profile, merged, s) {
      var v :| v in merged && EndsWithDotStar(v) && v != s && Covers(profile, v, s);
      if EndsWithDotStar(s) { WiderIsShorter(profile, v, s); }
      w := KeptCover(profile, merged, v);
      CoversTransitive(profile, w, v, s);
    } else {
      CoversReflexive(profile, s);
      w := s;
    }
  }

  lemma PruningKeepsCoverage(profile: Profile, merged: seq<string>, s: string)
    requires ValidScopes(profile, merged)
    ensures CoversAny(profile, Pruned(profile, merged), s) <==> CoversAny(profile, merged, s)
  {
    if CoversAny(profile, merged, s) {
      var held :| held in merged && Covers(profile, held, s);
      var w := KeptCover(profile, merged, held);
      CoversTransitive(profile, w, held, s);
    }
  }

  /** Two scopes covering one string: one of them covers the other. */
  lemma CommonCoverIsComparable(profile: Profile, a: string, b: string, s: string)
    requires IsScope(profile, a) && IsScope(profile, b)
    requires Covers(profile, a, s) && Covers(profile, b, s)
    ensures Covers(profile, a, b) || Covers(profile, b, a)
  {
    if a != s && b != s {
      if |a| <= |b| { assert Stem(a) <= b; } else { assert Stem(b) <= a; }
    }
  }

  /** The intersection is exact: the pruned scopes cover a string iff both sides do. */
  lemma IntersectionIsExact(profile: Profile, mine: seq<string>, theirs: seq<string>, s: string)
    requires ValidScopes(profile, mine) && ValidScopes(profile, theirs)
    ensures var merged := Merged(profile, mine, theirs);
            && ValidScopes(profile, merged)
            && (CoversAny(profile, Pruned(profile, merged), s)
                <==> CoversAny(profile, mine, s) && CoversAny(profile, theirs, s))
  {
    var merged := Merged(profile, mine, theirs);
    PruningKeepsCoverage(profile, merged, s);
    if CoversAny(profile, merged, s) {
      var held :| held in merged && Covers(profile, held, s);
      CoversReflexive(profile, held);
      CoveredByMember(profile, mine, held, s);
      CoveredByMember(profile, theirs, held, s);
    }
    if CoversAny(profile, mine, s) && CoversAny(profile, theirs, s) {
      var a :| a in mine && Covers(profile, a, s);
      var b :| b in theirs && Covers(profile, b, s);
      CommonCoverIsComparable(profile, a, b, s);
      assert a in merged || b in merged;
    }
  }

  /** A scope of one side that the other side covers. */
  predicate IsShared(profile: Profile, mine: seq<string>, theirs: seq<string>, s: string) {
    (s in theirs && CoversAny(profile, mine, s)) || (s in mine && CoversAny(profile, theirs, s))
  }

  /** The meet keeps exactly the shared scopes that no other shared wildcard covers. */
  lemma KeptIff(profile: Profile, mine: seq<string>, theirs: seq<string>, s: string)
    ensures s in Pruned(profile, Merged(profile, mine, theirs)) <==>
              && IsShared(profile, mine, theirs, s)
              && forall w :: IsShared(profile, mine, theirs, w) && EndsWithDotStar(w) && w != s ==> !Covers(profile, w, s)
  {
    hide CoversAny, Covers, EndsWithDotStar;
    var merged := Merged(profile, mine, theirs);
    forall x ensures x in merged <==> IsShared(profile, mine, theirs, x) {}
    if s in Pruned(profile, merged) {
      forall w | IsShared(profile, mine, theirs, w) && EndsWithDotStar(w) && w != s ensures !Covers(profile, w, s) { assert w in merged; }
    }
  }

  lemma CoveredByMember(profile: Profile, scopes: seq<string>, held: string, s: string)
    requires Covers(profile, held, s)
    ensures CoversAny(profile, scopes, held) ==> CoversAny(profile, scopes, s)
  {
    if CoversAny(profile, scopes, held) {
      var w :| w in scopes && Covers(profile, w, held);
      CoversTransitive(profile, w, held, s);
    }
  }
}
