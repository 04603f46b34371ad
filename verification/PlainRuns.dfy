/** Runs whose allow and deny lists hold no list and no object: the ledger of every one verifies. */
module PlainRuns {
  import opened Results
  import opened PlainJson
  import opened Scopes
  import opened Ceilings
  import opened Authorities
  import opened AuthorityWire
  import opened Meets
  import opened Chains
  import opened Audit
  import opened Ledger
  import opened GuardSteps
  import opened Evidence
  import opened Honest
  import opened HonestCalls
  import opened Runs
  import opened Delegations
  import opened Completeness
  import opened RunMeters

  predicate IsPlain(c: Ceiling) {
    (c.Allow? ==> ArePlain(c.oneOf)) && (c.Deny? ==> ArePlain(c.notOneOf))
  }

  predicate HoldsPlain(a: Authority) {
    forall c :: c in a.ceilings ==> IsPlain(c)
  }

  lemma PlainNeverRepeats(parent: Authority, request: Authority)
    requires HoldsPlain(parent)
    ensures !Repeats(parent, request)
  {
    forall c | c in parent.ceilings ensures !RepeatsAt(parent.profile, request, c) { assert IsPlain(c); }
  }

  lemma CombinedIsPlain(a: Ceiling, b: Ceiling)
    requires IsPlain(a) && IsPlain(b) && Combine(a, b).Some?
    ensures IsPlain(Combine(a, b).value)
  {
  }

  lemma {:induction false} AllCombinedArePlain(profile: Profile, mine: seq<Ceiling>, theirs: seq<Ceiling>)
    requires (forall c :: c in mine ==> IsPlain(c)) && (forall c :: c in theirs ==> IsPlain(c))
    requires CombineAll(profile, mine, theirs).Some?
    ensures forall c :: c in CombineAll(profile, mine, theirs).value ==> IsPlain(c)
  {
    hide IsPlain, Combine, PairKeyOf;
    if mine != [] {
      AllCombinedArePlain(profile, mine[1..], theirs);
      match Held(profile, theirs, PairKeyOf(profile, mine[0]))
      case Some(y) => CombinedIsPlain(mine[0], y);
      case None =>
    }
  }

  lemma MeetIsPlain(a: Authority, b: Authority)
    requires HoldsPlain(a) && HoldsPlain(b) && Meet(a, b).Some?
    ensures HoldsPlain(Meet(a, b).value)
  {
    hide IsPlain, PairKeyOf;
    AllCombinedArePlain(a.profile, a.ceilings, b.ceilings);
  }

  // ---- runs ---------------------------------------------------------------

  ghost predicate AllPlain(c: ChainState) {
    forall id :: id in c.nodes ==> HoldsPlain(c.nodes[id].authority)
  }

  predicate AsksPlain(op: Op) { op.Delegate? ==> HoldsPlain(op.request) }

  lemma DelegateStaysPlain(hash: Hasher, w: World, op: Op)
    requires op.node in w.chain.nodes && op.Delegate? && HoldsPlain(op.request) && AllPlain(w.chain)
    ensures AllPlain(Step(hash, w, op).chain)
  {
    hide Committed, Meet, IsNarrower, SpawnFields, SpawnDeniedFields, NodeId, DelegationError, HoldsPlain;
    if Meet(w.chain.nodes[op.node].authority, op.request).Some? { MeetIsPlain(w.chain.nodes[op.node].authority, op.request); }
  }

  lemma StepStaysPlain(hash: Hasher, w: World, op: Op)
    requires op.node in w.chain.nodes && TreeInv(w.chain) && AsksPlain(op) && AllPlain(w.chain)
    ensures AllPlain(Step(hash, w, op).chain)
  {
    hide TreeInv, Step, HoldsPlain;
    if op.Delegate? { DelegateStaysPlain(hash, w, op); } else { StepNodes(hash, w, op); }
  }

  lemma {:induction false} PlainNeverRegrants(hash: Hasher, w: World, ops: seq<Op>)
    requires RunInv(hash, w) && LegalRun(hash, w, ops) && AllPlain(w.chain) && forall op :: op in ops ==> AsksPlain(op)
    ensures NeverRegrants(hash, w, ops)
    decreases |ops|
  {
    hide RunInv, Callable, Step, Repeats, HoldsPlain, Spawns, TreeInv, AsksPlain;
    if ops != [] {
      CallableOnNode(w, ops[0]);
      StepKeepsRun(hash, w, ops[0]);
      RunHasTree(hash, w);
      StepStaysPlain(hash, w, ops[0]);
      PlainAtNode(w, ops[0]);
      PlainNeverRegrants(hash, Step(hash, w, ops[0]), ops[1..]);
    }
  }

  lemma PlainAtNode(w: World, op: Op)
    requires op.node in w.chain.nodes && AllPlain(w.chain)
    ensures op.Delegate? ==> !Repeats(w.chain.nodes[op.node].authority, op.request)
  {
    hide HoldsPlain;
    if op.Delegate? { PlainNeverRepeats(w.chain.nodes[op.node].authority, op.request); }
  }

  lemma RunHasTree(hash: Hasher, w: World)
    requires RunInv(hash, w)
    ensures TreeInv(w.chain)
  {
    hide LogOk, EntriesOk, DefinitionsTied, KillsTied, TreeInv, CallInv;
  }

  lemma IssuedPlain(hash: Hasher, s: Setup)
    requires IssueStep(hash, s).Some? && HoldsPlain(s.authority)
    ensures AllPlain(IssueStep(hash, s).value.chain)
  {
    hide Append, RootFields, HoldsPlain;
    AppendSameTree(hash, Fresh(s), EventRoot, RootFields(s.chainId, NodeId(s.chainId, 0), s.agent, s.authority, s.cfg));
  }

  /** Where the root and every request hold no list and no object in their lists, the ledger of any run verifies. */
  lemma EveryPlainRunVerifies(hash: Hasher, s: Setup, ops: seq<Op>, w: World)
    requires RunTo(hash, s, ops, w) && HoldsPlain(s.authority) && forall op :: op in ops ==> AsksPlain(op)
    ensures Accepts(hash, BundleOf(w), None)
  {
    hide Issuable, IssueStep, RunInv, LegalRun, Replay, Accepts, NeverRegrants, AllPlain, HoldsPlain, AsksPlain, BundleOf;
    IssueStarts(hash, s);
    IssuedPlain(hash, s);
    PlainNeverRegrants(hash, IssueStep(hash, s).value, ops);
    EveryRunVerifies(hash, s, ops, w);
  }
}
