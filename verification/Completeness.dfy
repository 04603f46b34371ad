/** Whatever calls a program makes, the ledger left behind passes the offline verifier. */
module Completeness {
  import opened Results
  import opened PlainJson
  import opened Authorities
  import opened AuthorityWire
  import opened Chains
  import opened Audit
  import opened Ledger
  import opened GuardSteps
  import opened EvidenceRules
  import opened Evidence
  import opened Honest
  import opened HonestCalls
  import opened Runs
  import opened Delegations
  import opened RunCalls
  import Bounds

  /** A call a program can make now; under schema version 2 with fresh ids and truthful reports. */
  ghost predicate Callable(w: World, op: Op) {
    Legal(w, op) && (IsV2(w) ==> LegalCalls(w, op))
  }

  /** Every call of the run is legal in the state it is made in. */
  ghost predicate LegalRun(hash: Hasher, w: World, ops: seq<Op>)
    decreases |ops|
  {
    ops == [] || (Callable(w, ops[0]) && LegalRun(hash, Step(hash, w, ops[0]), ops[1..]))
  }

  function Replay(hash: Hasher, w: World, ops: seq<Op>): World
    requires LegalRun(hash, w, ops)
    decreases |ops|
  {
    if ops == [] then w else Replay(hash, Step(hash, w, ops[0]), ops[1..])
  }

  /** What holds in every reachable state. */
  ghost predicate RunInv(hash: Hasher, w: World) {
    LedgerInv(hash, w) && (IsV2(w) ==> CallInv(w.chain, w.entries))
  }

  lemma StepKeepsRun(hash: Hasher, w: World, op: Op)
    requires RunInv(hash, w) && Callable(w, op)
    ensures RunInv(hash, Step(hash, w, op)) && Step(hash, w, op).cfg == w.cfg
  {
    assert op.node in w.chain.nodes;
    hide LedgerInv, CallInv, Step, Legal, LegalCalls;
    StepKeeps(hash, w, op);
    if IsV2(w) { StepKeepsCalls(hash, w, op); }
    StepKeepsConfig(hash, w, op);
  }

  lemma StepKeepsConfig(hash: Hasher, w: World, op: Op)
    requires op.node in w.chain.nodes
    ensures Step(hash, w, op).cfg == w.cfg
  {
    hide Committed, Authorize, DecisionFields, CallFields, KillFields, AddChild, Register, Resolve, Subtree, AgentSubtrees,
      OptionsAccepted, ReportAccepted, PassthroughFields, OutcomeFields, SpawnFields, SpawnDeniedFields, Counted, Restored, CheckFields;
  }

  lemma {:induction false} ReplayKeeps(hash: Hasher, w: World, ops: seq<Op>)
    requires RunInv(hash, w) && LegalRun(hash, w, ops)
    ensures RunInv(hash, Replay(hash, w, ops)) && Replay(hash, w, ops).cfg == w.cfg
    decreases |ops|
  {
    hide RunInv, Step, LegalCalls, IsCascade, Valid, DefinedBefore;
    if ops != [] {
      StepKeepsRun(hash, w, ops[0]);
      ReplayKeeps(hash, Step(hash, w, ops[0]), ops[1..]);
    }
  }

  lemma RootFraming(s: Setup)
    ensures RootFields(s.chainId, NodeId(s.chainId, 0), s.agent, s.authority, s.cfg).Keys !! FRAMING
  {
    hide NodeId, AuthorityToWire, RootFields, ROOT_FIELDS, FRAMING;
    RootFieldsAre(s.chainId, NodeId(s.chainId, 0), s.agent, s.authority, s.cfg);
    SubsetDisjoint(RootFields(s.chainId, NodeId(s.chainId, 0), s.agent, s.authority, s.cfg).Keys, ROOT_FIELDS, FRAMING);
  }

  lemma CarriesSalt(s: Setup, fields: Entry, e: Entry)
    requires s.cfg.version == 2 && fields == RootFields(s.chainId, NodeId(s.chainId, 0), s.agent, s.authority, s.cfg)
    requires Carries(Fresh(s), EventRoot, fields, e)
    ensures EventOf(e) == Some(EventRoot) && OrNull(e, FSeq) == JNum(0) && Get(e, FParamsSalt) == Some(JStr(s.cfg.salt))
  {
    hide NodeId, RootFields, EventOf, IsFraming;
    RootSalt(s, fields);
  }

  /** The chain under schema version 2 opens with a salt of 16 random bytes. */
  lemma RootEntry(hash: Hasher, s: Setup) returns (e: Entry)
    requires IssueStep(hash, s).Some? && s.cfg.version == 2
    ensures IssueStep(hash, s).value.entries == [e] && IssueStep(hash, s).value.chain == Fresh(s).chain
    ensures EventOf(e) == Some(EventRoot) && OrNull(e, FSeq) == JNum(0) && Get(e, FParamsSalt) == Some(JStr(s.cfg.salt))
  {
    hide NodeId, Append, EventOf, Carries, RootFields, FRAMING, Verifies, IsHead, Get, OrNull, IsHex;
    RootFraming(s);
    var c := Appended(hash, Fresh(s), EventRoot, RootFields(s.chainId, NodeId(s.chainId, 0), s.agent, s.authority, s.cfg));
    e := c.value;
    CarriesSalt(s, RootFields(s.chainId, NodeId(s.chainId, 0), s.agent, s.authority, s.cfg), e);
    assert Fresh(s).entries + [e] == [e];
  }

  lemma IssueKeepsCalls(hash: Hasher, s: Setup)
    requires IssueStep(hash, s).Some? && s.cfg.version == 2 && IsHex(s.cfg.salt, 32)
    ensures var w := IssueStep(hash, s).value; CallInv(w.chain, w.entries)
  {
    hide IssueStep, EventOf, OrNull, CallInv, IsHex;
    var e := RootEntry(hash, s);
    RootCallInv(Fresh(s).chain, e);
  }

  lemma RootSalt(s: Setup, fields: Entry)
    requires s.cfg.version == 2 && fields == RootFields(s.chainId, NodeId(s.chainId, 0), s.agent, s.authority, s.cfg)
    ensures FParamsSalt in fields && fields[FParamsSalt] == JStr(s.cfg.salt)
  {
    hide NodeId, AuthorityToWire;
  }

  lemma RootCallInv(c: ChainState, e: Entry)
    requires EventOf(e) == Some(EventRoot) && OrNull(e, FSeq) == JNum(0) && FParamsSalt in e && IsHexText(e[FParamsSalt], 32)
    requires c.pending == [] && forall id :: id in c.nodes ==> !c.nodes[id].complete
    ensures CallInv(c, [e])
  {
    hide EventOf, IsHexText;
    assert [e][0] == e;
  }

  // ---- the main results ---------------------------------------------------

  /** A chain a program can issue; under schema version 2 with a 32-digit salt. */
  ghost predicate Issuable(s: Setup) {
    LegalSetup(s) && (s.cfg.version == 2 ==> IsHex(s.cfg.salt, 32))
  }

  /** Some legal run from `issue` ends here, with any clock, refusals, throws and persistence errors on the way. */
  ghost predicate Reachable(hash: Hasher, s: Setup, w: World) {
    Issuable(s) && IssueStep(hash, s).Some? && exists ops :: EndsAt(hash, IssueStep(hash, s).value, ops, w)
  }

  ghost predicate EndsAt(hash: Hasher, start: World, ops: seq<Op>, w: World) {
    LegalRun(hash, start, ops) && w == Replay(hash, start, ops)
  }

  lemma IssueStarts(hash: Hasher, s: Setup)
    requires Issuable(s) && IssueStep(hash, s).Some?
    ensures RunInv(hash, IssueStep(hash, s).value) && IssueStep(hash, s).value.cfg == s.cfg
  {
    hide LegalSetup, LedgerInv, CallInv, Committed, RootFields;
    IssueKeeps(hash, s);
    if s.cfg.version == 2 { IssueKeepsCalls(hash, s); }
  }

  lemma ReachableKeeps(hash: Hasher, s: Setup, w: World)
    requires Reachable(hash, s, w)
    ensures RunInv(hash, w) && w.cfg == s.cfg
  {
    hide Issuable, IssueStep, RunInv, LegalRun, Replay;
    IssueStarts(hash, s);
    var ops :| EndsAt(hash, IssueStep(hash, s).value, ops, w);
    ReplayKeeps(hash, IssueStep(hash, s).value, ops);
  }

  /** The states a run reaches are those of `issue` and of every call made from one of them. */
  lemma IssueIsReachable(hash: Hasher, s: Setup)
    requires Issuable(s) && IssueStep(hash, s).Some?
    ensures Reachable(hash, s, IssueStep(hash, s).value)
  {
    hide Issuable, IssueStep;
    assert EndsAt(hash, IssueStep(hash, s).value, [], IssueStep(hash, s).value);
  }

  lemma StepIsReachable(hash: Hasher, s: Setup, w: World, op: Op)
    requires Reachable(hash, s, w) && Callable(w, op)
    ensures Reachable(hash, s, Step(hash, w, op))
  {
    hide Issuable, IssueStep, Callable, Step, LegalRun;
    CallableOnNode(w, op);
    var start := IssueStep(hash, s).value;
    var ops :| EndsAt(hash, start, ops, w);
    RunExtends(hash, start, ops, op);
    assert EndsAt(hash, start, ops + [op], Step(hash, w, op));
  }

  lemma CallableOnNode(w: World, op: Op)
    requires Callable(w, op)
    ensures op.node in w.chain.nodes
  {
    hide DefinedBefore, LegalCalls, IsCascade;
  }

  lemma {:induction false} RunExtends(hash: Hasher, w: World, ops: seq<Op>, op: Op)
    requires LegalRun(hash, w, ops) && Callable(Replay(hash, w, ops), op)
    ensures LegalRun(hash, w, ops + [op]) && Replay(hash, w, ops + [op]) == Step(hash, Replay(hash, w, ops), op)
    decreases |ops|
  {
    hide Callable, Step;
    CallableOnNode(Replay(hash, w, ops), op);
    if ops == [] {
      assert [] + [op] == [op] && [op][1..] == [];
    } else {
      CallableOnNode(w, ops[0]);
      RunExtends(hash, Step(hash, w, ops[0]), ops[1..], op);
      assert (ops + [op])[1..] == ops[1..] + [op];
    }
  }

  /** With execution binding in step, a ledger is accepted exactly when every grant reads back within its parent's. */
  lemma RunInvAccepts(hash: Hasher, w: World)
    requires RunInv(hash, w)
    ensures Accepts(hash, BundleOf(w), None) <==> Attenuates(w.entries)
  {
    hide LedgerInv, RecordFindings, BindingFindings, Accepts, PendingOk, OutcomesTied, OpenCallsPend, CompletedAreIdle, DoneTied, Attenuates;
    if IsV2(w) {
      forall i: nat | i < |w.entries| ensures RecordFindings(w.entries, i) == [] && BindingFindings(w.entries, i) == [] {
        assert RecordOk(w.entries, i);
      }
    }
    InvAccepts(hash, w);
  }

  /**
   * What a call does to the verdict: nothing, unless it is a delegation that writes a grant repeating a list or an
   * object of its parent's. Those the verifier reports, and the ledger with them.
   */
  lemma StepVerifiesIff(hash: Hasher, w: World, op: Op)
    requires RunInv(hash, w) && Callable(w, op)
    ensures op.node in w.chain.nodes
    ensures Accepts(hash, BundleOf(Step(hash, w, op)), None) <==> Accepts(hash, BundleOf(w), None) && !Regrants(hash, w, op)
  {
    CallableOnNode(w, op);
    StepKeepsRun(hash, w, op);
    RunInvAccepts(hash, w);
    RunInvAccepts(hash, Step(hash, w, op));
    StepGrantsIf(hash, w, op);
  }

  lemma StepGrantsIf(hash: Hasher, w: World, op: Op)
    requires RunInv(hash, w) && Callable(w, op) && op.node in w.chain.nodes
    ensures Attenuates(Step(hash, w, op).entries) <==> Attenuates(w.entries) && !Regrants(hash, w, op)
  {
    hide LedgerInv, Legal, Attenuates, Regrants, Step;
    StepGrants(hash, w, op);
  }

  /** No call of the run writes a grant that repeats a list or an object of its parent's. */
  predicate NeverRegrants(hash: Hasher, w: World, ops: seq<Op>)
    requires LegalRun(hash, w, ops)
    decreases |ops|
  {
    ops == [] || (!Regrants(hash, w, ops[0]) && NeverRegrants(hash, Step(hash, w, ops[0]), ops[1..]))
  }

  lemma {:induction false} ReplayVerifiesIff(hash: Hasher, w: World, ops: seq<Op>)
    requires RunInv(hash, w) && LegalRun(hash, w, ops)
    ensures Accepts(hash, BundleOf(Replay(hash, w, ops)), None) <==> Accepts(hash, BundleOf(w), None) && NeverRegrants(hash, w, ops)
    decreases |ops|
  {
    hide RunInv, Callable, Step, Accepts, BundleOf, Regrants;
    if ops != [] {
      StepKeepsRun(hash, w, ops[0]);
      StepVerifiesIff(hash, w, ops[0]);
      ReplayVerifiesIff(hash, Step(hash, w, ops[0]), ops[1..]);
    }
  }

  /** A legal run from `issue` that ends here. */
  ghost predicate RunTo(hash: Hasher, s: Setup, ops: seq<Op>, w: World) {
    Issuable(s) && IssueStep(hash, s).Some? && EndsAt(hash, IssueStep(hash, s).value, ops, w)
  }

  lemma RunReaches(hash: Hasher, s: Setup, ops: seq<Op>, w: World)
    requires RunTo(hash, s, ops, w)
    ensures Reachable(hash, s, w)
  {
    hide Issuable, IssueStep, EndsAt;
  }

  /** Completeness: the ledger a run leaves behind verifies with no failure exactly when the run never regrants. */
  lemma EveryRunVerifies(hash: Hasher, s: Setup, ops: seq<Op>, w: World)
    requires RunTo(hash, s, ops, w)
    ensures Accepts(hash, BundleOf(w), None) <==> NeverRegrants(hash, IssueStep(hash, s).value, ops)
  {
    hide Issuable, IssueStep, RunInv, LegalRun, Replay, Accepts, NeverRegrants;
    IssueStarts(hash, s);
    IssueVerifies(hash, s);
    ReplayVerifiesIff(hash, IssueStep(hash, s).value, ops);
  }

  lemma IssueVerifies(hash: Hasher, s: Setup)
    requires Issuable(s) && IssueStep(hash, s).Some?
    ensures Accepts(hash, BundleOf(IssueStep(hash, s).value), None)
  {
    hide LegalSetup, LedgerInv, RunInv, IssueStep, Attenuates, Accepts, IsHex;
    IssueStarts(hash, s);
    IssueKeeps(hash, s);
    RunInvAccepts(hash, IssueStep(hash, s).value);
  }

  /** Execution binding: a version 2 run never aggregates to "failed", and a completed node has no pending call. */
  lemma EveryRunIsBound(hash: Hasher, s: Setup, w: World, node: string)
    requires Reachable(hash, s, w) && s.cfg.version == 2
    ensures BindingFailures(BundleOf(w)) == [] && AggregateOf(w.entries, BindingFailures(BundleOf(w))) != Failed
    ensures node in w.chain.nodes && w.chain.nodes[node].complete ==> PendingFor(w.chain.pending, node) == []
  {
    hide Reachable, LedgerInv, BindingFailures, AggregateOf, PendingOk, RecordsOk, OutcomesTied, OpenCallsPend, DoneTied, PendingFor;
    ReachableKeeps(hash, s, w);
    RunBinds(hash, w);
    NeverFailed(w, []);
  }

  lemma RunBinds(hash: Hasher, w: World)
    requires RunInv(hash, w) && IsV2(w)
    ensures BindingFailures(BundleOf(w)) == []
  {
    hide RecordFindings, BindingFindings, PendingOk, OutcomesTied, OpenCallsPend, CompletedAreIdle, DoneTied, ChainOk, LogOk, DefinitionsTied, KillsTied;
    var b := BundleOf(w);
    forall i: nat | i < |w.entries| ensures EntryOk(w, i) && BindingClean(b, i) {
      assert EntryOk(w, i) && RecordOk(w.entries, i);
    }
    RunHasVersion(w);
    hide BindingFailures;
    BindingFailuresNone(b);
  }

  lemma RunHasVersion(w: World)
    requires (w.cfg.version == 1 || w.cfg.version == 2) && EntriesOk(w)
    ensures VersionOk(BundleOf(w))
  {
    hide DefinitionFindings, ContainmentFindings, MonotonicityFindings, LeakFindings, EventFindings, NodeFindings, PolicyFindings;
    forall i: nat | i < |w.entries| ensures HasVersion(BundleOf(w), w.entries[i]) { assert EntryOk(w, i); }
  }

  /** The tree in every reachable state: bounded depth, acyclic parents, every node within every ancestor and given no
      longer time, and revocation closed downwards. */
  lemma EveryRunKeepsTree(hash: Hasher, s: Setup, w: World, id: string, ancestor: string)
    requires Reachable(hash, s, w) && Descends(w.chain, id, ancestor) && id != ancestor
    ensures TreeInv(w.chain) && w.chain.nodes[id].depth <= AtLeastZero(w.chain.maxDepth)
    ensures ancestor in w.chain.nodes && IsNarrower(w.chain.nodes[id].authority, w.chain.nodes[ancestor].authority)
    ensures !Descends(w.chain, ancestor, id) && (ancestor in w.chain.revoked ==> id in w.chain.revoked)
    ensures var a, p := w.chain.nodes[id].authority, w.chain.nodes[ancestor].authority; p.ttl.Some? ==> a.ttl.Some? && a.ttl.value <= p.ttl.value
  {
    hide Reachable, CallInv, LogOk, EntriesOk, DefinitionsTied, KillsTied, IsNarrower, Numbered;
    var c := w.chain;
    ReachableKeeps(hash, s, w);
    NarrowerThanAncestors(c, id, ancestor);
    DescentIsAcyclic(c, id, ancestor);
    assert NodeOk(c, id);
    if ancestor in c.revoked { ClosedHoldsSubtree(c, c.revoked, id, ancestor); }
    if c.nodes[ancestor].authority.ttl.Some? { Bounds.NarrowerBoundsTtl(c.nodes[id].authority, c.nodes[ancestor].authority); }
  }

  // ---- reports the guard does not check -----------------------------------

  lemma OutcomeEntry(w: World, node: string, r: OutcomeReport, e: Entry)
    requires w.cfg.version == 2 && Carries(w, EventOutcome, OutcomeFields(w.chain.chainId, node, r), e)
    ensures EventOf(e) == Some(EventOutcome) && Get(e, FCallId) == Some(JStr(r.callId)) && Get(e, FNode) == Some(JStr(node))
    ensures Get(e, FInvokedParamsHash) == (if r.params.Hashed? then Some(JStr(r.params.digest)) else None)
  {
    var fields := OutcomeFields(w.chain.chainId, node, r);
    OutcomeMembers(w.chain.chainId, node, r);
    OutcomeFieldsAre(w.chain.chainId, node, r);
    assert !IsFraming(FInvokedParamsHash);
    hide OutcomeFields, OUTCOME_FIELDS, EventOf, IsFraming;
  }

  /** What an outcome the rules find nothing about is bound to. */
  lemma CleanOutcome(entries: seq<Entry>, e: Entry, cid: Json)
    requires EventOf(e) == Some(EventOutcome) && Get(e, FCallId) == Some(cid) && cid.JStr?
    requires var x := entries + [e]; RecordFindings(x, |entries|) == [] && BindingFindings(x, |entries|) == []
    ensures ValidOutcome(e) && LastAllow(entries, |entries|, cid).Some?
    ensures var a := entries[LastAllow(entries, |entries|, cid).value]; ValidAllow(a) && SameNode(a, e) && !HashesDiffer(a, e)
  {
    var x, n := entries + [e], |entries|;
    hide EventOf, LastAllow, OutcomeBefore, ValidOutcome, ValidAllow, SameNode, SeqAfter, HashesDiffer;
    assert x[n] == e && OrNull(e, FCallId) == cid && ValidOutcome(e) && !OutcomeBefore(x, n, cid);
    assert IsOutcomeOf(e, cid) && LastAllow(x, n + 1, cid).Some?;
    LastAllowStable(entries, e, cid);
    var a := LastAllow(entries, n, cid).value;
    assert x[a] == entries[a] && SameNode(x[a], e) && !HashesDiffer(x[a], e);
  }

  /** An outcome the rules find nothing about reports a call its node was allowed, with the arguments authorized. */
  lemma CleanReport(w: World, node: string, r: OutcomeReport, e: Entry)
    requires w.cfg.version == 2 && Carries(w, EventOutcome, OutcomeFields(w.chain.chainId, node, r), e)
    requires var x := w.entries + [e]; RecordFindings(x, |w.entries|) == [] && BindingFindings(x, |w.entries|) == []
    ensures ReportsAllowed(w, node, r)
  {
    hide Carries, EventOf, LastAllow, OutcomeBefore, IsHex, RecordFindings, BindingFindings, OutcomeFields;
    OutcomeEntry(w, node, r, e);
    CleanOutcome(w.entries, e, JStr(r.callId));
  }

  lemma AcceptedTail(hash: Hasher, w: World, n: nat)
    requires Accepts(hash, BundleOf(w), None) && w.cfg.version == 2 && n < |w.entries|
    ensures RecordFindings(w.entries, n) == [] && BindingFindings(w.entries, n) == []
  {
    AcceptsIff(hash, BundleOf(w), None);
    hide Accepts, RulesClean, RecordFindings, BindingFindings, Verifies;
    assert BindingClean(BundleOf(w), n);
  }

  /**
   * `recordOutcome` checks the shape of a report and not its truth. One that commits keeps an accepted ledger accepted
   * exactly when it reports a call its own node was allowed, with the arguments that were authorized.
   */
  lemma OutcomeVerifiesIff(hash: Hasher, w: World, op: Op)
    requires RunInv(hash, w) && IsV2(w) && HoldsGuard(w, op.node) && op.RecordOutcome?
    requires ReportAccepted(w, op.report) && op.report.callId !in w.chain.outcomed
    requires Append(hash, w, EventOutcome, OutcomeFields(w.chain.chainId, op.node, op.report)).1
    ensures Accepts(hash, BundleOf(Step(hash, w, op)), None) <==> Accepts(hash, BundleOf(w), None) && ReportsAllowed(w, op.node, op.report)
  {
    hide RunInv, DefinedBefore, ReportAccepted, ReportsAllowed, Accepts, OutcomeFields, Append, Resolve, Carries, FRAMING;
    if ReportsAllowed(w, op.node, op.report) {
      StepVerifiesIff(hash, w, op);
    }
    if Accepts(hash, BundleOf(Step(hash, w, op)), None) {
      var fields := OutcomeFields(w.chain.chainId, op.node, op.report);
      OutcomeNotFraming(w, op.node, op.report);
      var c := Appended(hash, w, EventOutcome, fields);
      AcceptedTail(hash, Step(hash, w, op), |w.entries|);
      CleanReport(w, op.node, op.report, c.value);
      StepVerifiesIff(hash, w, op);
    }
  }

  lemma OutcomeNotFraming(w: World, node: string, r: OutcomeReport)
    ensures OutcomeFields(w.chain.chainId, node, r).Keys !! FRAMING
  {
    OutcomeFieldsAre(w.chain.chainId, node, r);
    hide OutcomeFields, OUTCOME_FIELDS, FRAMING;
    SubsetDisjoint(OutcomeFields(w.chain.chainId, node, r).Keys, OUTCOME_FIELDS, FRAMING);
  }
}
