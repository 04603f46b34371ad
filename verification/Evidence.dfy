/**
 * The offline verifier (src/evidence.ts): ordered passes over an untrusted ledger, each looping over the
 * entries with its own tables, proved to report exactly what the rules of EvidenceRules say.
 */
module Evidence {
  import opened Results
  import opened PlainJson
  import opened Authorities
  import opened AuthorityWire
  import opened Audit
  import opened Ledger
  import opened EvidenceRules

  datatype Bundle = Bundle(v: Option<Json>, chainId: Json, entries: seq<Entry>)

  /** An independently retained `(seq, hash)` of the ledger's last entry. */
  datatype Head = Head(lastSeq: int, hash: string)

  // ---- the rules, one closure per pass ------------------------------------

  function Events(b: Bundle): nat -> seq<Finding> {
    (i: nat) => if i < |b.entries| then EventFindings(b.v, b.entries[i]) else []
  }

  function Nodes(b: Bundle): nat -> seq<Finding> {
    (i: nat) => if i < |b.entries| then NodeFindings(b.entries[i]) else []
  }

  function Definitions(b: Bundle): nat -> seq<Finding> { (i: nat) => DefinitionFindings(b.entries, i) }

  function Monotonicity(b: Bundle): nat -> seq<Finding> { (i: nat) => MonotonicityFindings(b.entries, i) }

  function Containment(b: Bundle): nat -> seq<Finding> { (i: nat) => ContainmentFindings(b.entries, i) }

  function Policies(b: Bundle): nat -> seq<Finding> {
    (i: nat) => if i < |b.entries| then PolicyFindings(b.v, b.entries[i]) else []
  }

  function Leaks(b: Bundle): nat -> seq<Finding> {
    (i: nat) => if i < |b.entries| then LeakFindings(b.entries[i]) else []
  }

  function Records(b: Bundle): nat -> seq<Finding> { (i: nat) => RecordFindings(b.entries, i) }

  function Bindings(b: Bundle): nat -> seq<Finding> { (i: nat) => BindingFindings(b.entries, i) }

  // ---- rules about the bundle ---------------------------------------------

  function Whole(condition: bool, f: Finding): seq<Failure> {
    if condition then [Failure(f, None)] else []
  }

  predicate IsRoot(e: Entry) { EventOf(e) == Some(EventRoot) }

  predicate IsSupported(v: Option<Json>) { v == Some(JNum(1)) || v == Some(JNum(2)) }

  function VersionOf(b: Bundle): Json { match b.v case Some(v) => v case None => JNull }

  predicate HasVersion(b: Bundle, e: Entry) { OrNull(e, FV) == VersionOf(b) }

  /** Strict equality: a chain id that is a list or an object equals none parsed apart from it. */
  predicate OnChain(b: Bundle, e: Entry) {
    OrNull(e, FChainId) == b.chainId && !b.chainId.JArr? && !b.chainId.JObj?
  }

  /** The first entry below `n` that fails `p`. */
  function FirstNot(entries: seq<Entry>, n: nat, p: Entry -> bool): (r: Option<nat>)
    requires n <= |entries|
    ensures r.None? <==> forall i :: 0 <= i < n ==> p(entries[i])
    ensures r.Some? ==> r.value < n && !p(entries[r.value])
  {
    if n == 0 then None
    else
      match FirstNot(entries, n - 1, p)
      case Some(i) => Some(i)
      case None => if p(entries[n - 1]) then None else Some(n - 1)
  }

  function RootsIn(entries: seq<Entry>, n: nat): (r: seq<nat>)
    requires n <= |entries|
    ensures forall i: nat :: i in r <==> i < n && IsRoot(entries[i])
  {
    Indices(n, (i: nat) => i < |entries| && IsRoot(entries[i]))
  }

  function AtFirst(found: Option<nat>, f: Finding): seq<Failure> {
    match found case Some(i) => [Failure(f, Some(i))] case None => []
  }

  /** The single root, when it is of another version than the bundle. */
  function MisversionedRoot(b: Bundle): Option<nat> {
    var roots := RootsIn(b.entries, |b.entries|);
    if |roots| == 1 then
      assert roots[0] in roots;
      if HasVersion(b, b.entries[roots[0]]) then None else Some(roots[0])
    else None
  }

  function VersionFailures(b: Bundle): seq<Failure> {
    Whole(!IsSupported(b.v), UnsupportedVersion)
    + Whole(|RootsIn(b.entries, |b.entries|)| != 1, MissingRoot)
    + AtFirst(MisversionedRoot(b), RootVersionMismatch)
    + AtFirst(FirstNot(b.entries, |b.entries|, e => HasVersion(b, e)), MixedEntryVersions)
  }

  /** `checks.version`. */
  predicate VersionOk(b: Bundle) {
    IsSupported(b.v) && forall i :: 0 <= i < |b.entries| ==> HasVersion(b, b.entries[i])
  }

  function ActualHead(entries: seq<Entry>): Json {
    if entries == [] then JStr(GENESIS) else OrNull(entries[|entries| - 1], FHash)
  }

  predicate HeadMatches(entries: seq<Entry>, expected: Option<Head>) {
    expected.Some? ==> expected.value.lastSeq == |entries| - 1 && ActualHead(entries) == JStr(expected.value.hash)
  }

  function FirstBreak(hash: Hasher, entries: seq<Entry>, n: nat): (r: Option<nat>)
    requires n <= |entries|
    ensures r.None? <==> Reproduces(hash, entries, n)
    ensures r.Some? ==> StopsAt(hash, entries, r.value)
  {
    if n == 0 then None
    else
      match FirstBreak(hash, entries, n - 1)
      case Some(i) => Some(i)
      case None => if BreakAt(hash, entries, n - 1).None? then None else Some(n - 1)
  }

  function ChainFailures(hash: Hasher, b: Bundle, expected: Option<Head>): seq<Failure> {
    Whole(!HeadMatches(b.entries, expected), ExpectedHeadMismatch)
    + AtFirst(FirstNot(b.entries, |b.entries|, e => OnChain(b, e)), ChainIdMismatch)
    + AtFirst(FirstBreak(hash, b.entries, |b.entries|), BrokenChain)
  }

  function BindingFailures(b: Bundle): seq<Failure> {
    if !VersionOk(b) then []
    else if b.v == Some(JNum(1)) then Collect(|b.entries|, Leaks(b))
    else Collect(|b.entries|, Records(b)) + Collect(|b.entries|, Bindings(b))
  }

  /** Everything the verifier reports, in the order it reports it. */
  function BundleFailures(hash: Hasher, b: Bundle, expected: Option<Head>): seq<Failure> {
    var n := |b.entries|;
    VersionFailures(b) + Collect(n, Events(b)) + Collect(n, Nodes(b)) + ChainFailures(hash, b, expected)
    + Collect(n, Definitions(b)) + Collect(n, Monotonicity(b)) + Collect(n, Containment(b))
    + BindingFailures(b) + Collect(n, Policies(b))
  }

  /** `verifyBundle` reports no failure. */
  predicate Accepts(hash: Hasher, b: Bundle, expected: Option<Head>) {
    BundleFailures(hash, b, expected) == []
  }

  ghost predicate RulesClean(b: Bundle, i: nat) {
    && Events(b)(i) == [] && Nodes(b)(i) == [] && Definitions(b)(i) == []
    && Monotonicity(b)(i) == [] && Containment(b)(i) == [] && Policies(b)(i) == []
  }

  ghost predicate BindingClean(b: Bundle, i: nat) {
    if b.v == Some(JNum(1)) then Leaks(b)(i) == [] else Records(b)(i) == [] && Bindings(b)(i) == []
  }

  /** What an accepted bundle is, entry by entry. */
  ghost predicate AllClean(hash: Hasher, b: Bundle, expected: Option<Head>) {
    && VersionOk(b) && |RootsIn(b.entries, |b.entries|)| == 1
    && HeadMatches(b.entries, expected) && Verifies(hash, b.entries)
    && (forall i :: 0 <= i < |b.entries| ==> OnChain(b, b.entries[i]))
    && (forall i: nat :: i < |b.entries| ==> RulesClean(b, i))
    && (forall i: nat :: i < |b.entries| ==> BindingClean(b, i))
  }

  lemma VersionFailuresNone(b: Bundle)
    ensures VersionFailures(b) == [] <==> VersionOk(b) && |RootsIn(b.entries, |b.entries|)| == 1
  {
    var roots := RootsIn(b.entries, |b.entries|);
    if |roots| == 1 { assert roots[0] in roots; }
  }

  lemma CollectedBoth(n: nat, p: nat -> seq<Finding>, q: nat -> seq<Finding>)
    ensures Collect(n, p) == [] && Collect(n, q) == [] <==> forall i: nat :: i < n ==> p(i) == [] && q(i) == []
  {
    CollectedNothing(n, p);
    CollectedNothing(n, q);
  }

  lemma BindingFailuresNone(b: Bundle)
    requires VersionOk(b)
    ensures BindingFailures(b) == [] <==> forall i: nat :: i < |b.entries| ==> BindingClean(b, i)
  {
    CollectedNothing(|b.entries|, Leaks(b));
    CollectedBoth(|b.entries|, Records(b), Bindings(b));
    if forall i: nat :: i < |b.entries| ==> BindingClean(b, i) {
      forall i: nat | i < |b.entries|
        ensures b.v == Some(JNum(1)) ==> Leaks(b)(i) == []
        ensures b.v != Some(JNum(1)) ==> Records(b)(i) == [] && Bindings(b)(i) == []
      {
        assert BindingClean(b, i);
      }
    }
  }

  lemma RuleFailuresNone(b: Bundle)
    ensures var n := |b.entries|;
            && Collect(n, Events(b)) == [] && Collect(n, Nodes(b)) == [] && Collect(n, Definitions(b)) == []
            && Collect(n, Monotonicity(b)) == [] && Collect(n, Containment(b)) == [] && Collect(n, Policies(b)) == []
            <==> forall i: nat :: i < n ==> RulesClean(b, i)
  {
    hide Events, Nodes, Definitions, Monotonicity, Containment, Policies;
    var n := |b.entries|;
    CollectedBoth(n, Events(b), Nodes(b));
    CollectedBoth(n, Definitions(b), Monotonicity(b));
    CollectedBoth(n, Containment(b), Policies(b));
    if forall i: nat :: i < n ==> RulesClean(b, i) {
      forall i: nat | i < n ensures Events(b)(i) == [] && Nodes(b)(i) == [] { assert RulesClean(b, i); }
      forall i: nat | i < n ensures Definitions(b)(i) == [] && Monotonicity(b)(i) == [] { assert RulesClean(b, i); }
      forall i: nat | i < n ensures Containment(b)(i) == [] && Policies(b)(i) == [] { assert RulesClean(b, i); }
    }
  }

  lemma ChainFailuresNone(hash: Hasher, b: Bundle, expected: Option<Head>)
    ensures ChainFailures(hash, b, expected) == []
            <==> HeadMatches(b.entries, expected) && Verifies(hash, b.entries)
                 && forall i :: 0 <= i < |b.entries| ==> OnChain(b, b.entries[i])
  {
    hide HeadMatches, BreakAt, OnChain;
  }

  lemma AllEmpty(a: seq<Failure>, b: seq<Failure>, c: seq<Failure>, d: seq<Failure>, e: seq<Failure>,
                 f: seq<Failure>, g: seq<Failure>, h: seq<Failure>, i: seq<Failure>)
    ensures a + b + c + d + e + f + g + h + i == []
            <==> a == [] && b == [] && c == [] && d == [] && e == [] && f == [] && g == [] && h == [] && i == []
  {
    assert |a + b + c + d + e + f + g + h + i| == |a| + |b| + |c| + |d| + |e| + |f| + |g| + |h| + |i|;
  }

  /** No failure is reported exactly when every rule holds of every entry. */
  lemma AcceptsIff(hash: Hasher, b: Bundle, expected: Option<Head>)
    ensures Accepts(hash, b, expected) <==> AllClean(hash, b, expected)
  {
    hide RulesClean, BindingClean, VersionFailures, BindingFailures, VersionOk, ChainFailures, Collect;
    hide Events, Nodes, Definitions, Monotonicity, Containment, Policies;
    var n := |b.entries|;
    AllEmpty(VersionFailures(b), Collect(n, Events(b)), Collect(n, Nodes(b)), ChainFailures(hash, b, expected),
             Collect(n, Definitions(b)), Collect(n, Monotonicity(b)), Collect(n, Containment(b)), BindingFailures(b),
             Collect(n, Policies(b)));
    VersionFailuresNone(b);
    ChainFailuresNone(hash, b, expected);
    RuleFailuresNone(b);
    if VersionOk(b) { BindingFailuresNone(b); }
  }
}
