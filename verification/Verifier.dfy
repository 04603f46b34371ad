/** `verifyBundle` of src/evidence.ts: the remaining passes, and the report they add up to. */
module Verifier {
  import opened Results
  import opened PlainJson
  import opened Authorities
  import opened Audit
  import opened Ledger
  import opened EvidenceRules
  import opened Evidence
  import opened EvidencePasses
  import opened ExecutionBinding

  /** (0) to (0a): one supported version throughout, and exactly one root. */
  method VersionPass(b: Bundle) returns (versionOk: bool, rootOk: bool, failures: seq<Failure>)
    ensures failures == VersionFailures(b)
    ensures versionOk == VersionOk(b) && rootOk == (|RootsIn(b.entries, |b.entries|)| == 1)
  {
    versionOk := IsSupported(b.v);
    failures := if versionOk then [] else [Failure(UnsupportedVersion, None)];
    var roots := RootEntries(b);
    rootOk := |roots| == 1;
    if !rootOk { failures := failures + [Failure(MissingRoot, None)]; }
    var mixed := FirstFailing(b.entries, e => HasVersion(b, e));
    if rootOk {
      assert roots[0] in roots;
      if !HasVersion(b, b.entries[roots[0]]) {
        versionOk := false;
        failures := failures + [Failure(RootVersionMismatch, Some(roots[0]))];
      }
    }
    if mixed.Some? {
      versionOk := false;
      failures := failures + [Failure(MixedEntryVersions, mixed)];
    }
  }

  method RootEntries(b: Bundle) returns (roots: seq<nat>)
    ensures roots == RootsIn(b.entries, |b.entries|)
  {
    roots := [];
    for i := 0 to |b.entries|
      invariant roots == RootsIn(b.entries, i)
    {
      if IsRoot(b.entries[i]) { roots := roots + [i]; }
    }
  }

  method FirstFailing(entries: seq<Entry>, p: Entry -> bool) returns (found: Option<nat>)
    ensures found == FirstNot(entries, |entries|, p)
  {
    found := None;
    for i := 0 to |entries|
      invariant found == FirstNot(entries, i, p)
    {
      if found.None? && !p(entries[i]) { found := Some(i); }
    }
  }

  /** (0b2): every entry is read whole. */
  method LedgerFieldsPass(b: Bundle) returns (failures: seq<Failure>)
    ensures failures == Collect(|b.entries|, Events(b))
  {
    failures := [];
    for i := 0 to |b.entries|
      invariant failures == Collect(i, Events(b))
    {
      var found := ReadWhole(b.v, b.entries[i]);
      failures := failures + At(found, i);
    }
  }

  method ReadWhole(version: Option<Json>, e: Entry) returns (found: seq<Finding>)
    ensures found == EventFindings(version, e)
  {
    found := [];
    var event := EventOf(e);
    if event.None? || (event == Some(EventOutcome) && version == Some(JNum(1))) { found := found + [UnknownLedgerEvent]; }
    if exists f :: f in e && f.FOther? { found := found + [UnknownLedgerFields]; }
  }

  /** (0b3): a node id is a string. */
  method NodePass(b: Bundle) returns (failures: seq<Failure>)
    ensures failures == Collect(|b.entries|, Nodes(b))
  {
    failures := [];
    for i := 0 to |b.entries|
      invariant failures == Collect(i, Nodes(b))
    {
      var e := b.entries[i];
      var found: seq<Finding> := [];
      var event := EventOf(e);
      if event != Some(EventRoot) && event != Some(EventSpawn) && event != Some(EventAllow) {
        var node := OrNull(e, FNode);
        if !node.JNull? && !node.JStr? { found := [InvalidNode]; }
      }
      assert found == Nodes(b)(i);
      failures := failures + At(found, i);
    }
  }

  /** (0c), (0b), (1): the retained head, one chain id, and the hash chain. */
  method ChainPass(hash: Hasher, b: Bundle, expected: Option<Head>) returns (chainIdOk: bool, integrityOk: bool, failures: seq<Failure>)
    ensures failures == ChainFailures(hash, b, expected)
    ensures chainIdOk == (forall i :: 0 <= i < |b.entries| ==> OnChain(b, b.entries[i]))
    ensures integrityOk == Verifies(hash, b.entries)
  {
    failures := [];
    if expected.Some? {
      var lastSeq := |b.entries| - 1;
      if lastSeq != expected.value.lastSeq || ActualHead(b.entries) != JStr(expected.value.hash) {
        failures := [Failure(ExpectedHeadMismatch, None)];
      }
    }
    var foreign := FirstFailing(b.entries, e => OnChain(b, e));
    chainIdOk := foreign.None?;
    if foreign.Some? { failures := failures + [Failure(ChainIdMismatch, foreign)]; }
    var broken := Verify(hash, b.entries);
    integrityOk := broken.None?;
    if broken.Some? {
      var position := IntegrityBreak(hash, b.entries);
      StopsOnce(hash, b.entries, position.value, FirstBreak(hash, b.entries, |b.entries|).value);
      failures := failures + [Failure(BrokenChain, position)];
    }
  }

  function CountOf(entries: seq<Entry>, n: nat, p: Entry -> bool): nat
    requires n <= |entries|
  {
    if n == 0 then 0 else CountOf(entries, n - 1, p) + if p(entries[n - 1]) then 1 else 0
  }

  /** (3): every allowed action is within the acting node's authority, read in ledger order. */
  method ContainmentPass(b: Bundle, auth: map<string, Authority>) returns (failures: seq<Failure>, actions: nat, ungated: nat)
    requires forall n :: (if n in auth then Some(auth[n]) else None) == AuthorityOf(b.entries, n)
    ensures failures == Collect(|b.entries|, Containment(b))
    ensures actions == CountOf(b.entries, |b.entries|, e => IsGated(e))
    ensures ungated == CountOf(b.entries, |b.entries|, e => IsUngated(e))
  {
    failures, actions, ungated := [], 0, 0;
    var known: set<string> := {};
    var killedAt: set<string> := {};
    for i := 0 to |b.entries|
      invariant failures == Collect(i, Containment(b))
      invariant TracksDefined(b.entries, i, known) && TracksKilled(b.entries, i, killedAt)
      invariant actions == CountOf(b.entries, i, e => IsGated(e))
      invariant ungated == CountOf(b.entries, i, e => IsUngated(e))
    {
      var e := b.entries[i];
      var found: seq<Finding> := [];
      if IsUngated(e) {
        ungated := ungated + 1;
      } else if EventOf(e) == Some(EventAllow) {
        actions := actions + 1;
        found := JudgeAllow(b, i, auth, known, killedAt);
      }
      assert found == Containment(b)(i) by { hide IsDefinition, EventOf, IsKnownPolicy; }
      failures := failures + At(found, i);
      known, killedAt := Track(b, i, known, killedAt);
    }
  }

  method JudgeAllow(b: Bundle, i: nat, auth: map<string, Authority>, known: set<string>, killedAt: set<string>) returns (found: seq<Finding>)
    requires i < |b.entries| && IsGated(b.entries[i])
    requires forall n :: (if n in auth then Some(auth[n]) else None) == AuthorityOf(b.entries, n)
    requires TracksDefined(b.entries, i, known) && TracksKilled(b.entries, i, killedAt)
    ensures found == ContainmentFindings(b.entries, i)
  {
    hide Grants, Judge, AuthorityOf, DefinedBefore, KilledBefore, ContextOf;
    var e := b.entries[i];
    var node := TextOf(e, FNode);
    if node.None? || node.value !in known || node.value !in auth { return [UnknownNode]; }
    if node.value in killedAt { return [AllowAfterRevocation]; }
    var scope := TextOf(e, FScope);
    var ctx := ContextOf(e);
    if scope.None? || ctx.None? { return [OutsideAuthority]; }
    var decision := Permits(auth[node.value], scope.value, ctx.value, []);
    return if decision.value.allowed then [] else [OutsideAuthority];
  }

  method PolicyPass(b: Bundle) returns (failures: seq<Failure>)
    ensures failures == Collect(|b.entries|, Policies(b))
  {
    failures := [];
    for i := 0 to |b.entries|
      invariant failures == Collect(i, Policies(b))
    {
      var e := b.entries[i];
      var found: seq<Finding> := [];
      if FPolicy in e {
        if EventOf(e) == Some(EventAllow) {
          if b.v != Some(JNum(2)) && !IsKnownPolicy(Get(e, FPolicy)) { found := [InvalidPolicy]; }
        } else if !(EventOf(e) == Some(EventDeny) && b.v == Some(JNum(2))) {
          found := [PolicyOnNonAllow];
        }
      }
      assert found == Policies(b)(i);
      failures := failures + At(found, i);
    }
  }

  datatype Report = Report(ok: bool, failures: seq<Failure>, nodes: nat, actions: nat, ungated: nat, binding: BindingReport)

  /** `verifyBundle`: the report is the rules' findings, and `ok` says there are none. */
  method VerifyBundle(hash: Hasher, b: Bundle, expected: Option<Head>) returns (r: Report)
    ensures r.failures == BundleFailures(hash, b, expected)
    ensures r.ok <==> Accepts(hash, b, expected)
    ensures r.actions == CountOf(b.entries, |b.entries|, e => IsGated(e))
    ensures r.ungated == CountOf(b.entries, |b.entries|, e => IsUngated(e))
    ensures VersionOk(b) && b.v == Some(JNum(2)) ==>
              r.binding.Scored? && r.binding.aggregate == AggregateOf(b.entries, BindingFailures(b))
  {
    var versionOk, rootOk, f0 := VersionPass(b);
    var f1 := LedgerFieldsPass(b);
    var f2 := NodePass(b);
    var chainIdOk, integrityOk, f3 := ChainPass(hash, b, expected);
    var auth, f4 := NodeAuthorities(b);
    var f5 := MonotonicityPass(b, auth);
    var f6, actions, ungated := ContainmentPass(b, auth);
    var binding := NotApplicable([]);
    if versionOk { binding := Score(b); }
    var f7 := PolicyPass(b);
    var failures := f0 + f1 + f2 + f3 + f4 + f5 + f6 + binding.failures + f7;
    var monotonicityOk := f4 == [] && f5 == [];
    var ok := integrityOk && monotonicityOk && f6 == [] && versionOk && f1 == [] && chainIdOk && rootOk && failures == [];
    VersionFailuresNone(b);
    return Report(ok, failures, |auth|, actions, ungated, binding);
  }
}
