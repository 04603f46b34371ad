/** Which delegations the verifier finds within their parents (src/ceilings.ts, src/evidence.ts). */
module Delegations {
  import opened Results
  import opened PlainJson
  import opened Scopes
  import opened Ceilings
  import opened Authorities
  import opened AuthorityWire
  import opened Meets
  import opened Lattice
  import opened Chains
  import opened Audit
  import opened Ledger
  import opened GuardSteps
  import opened EvidenceRules
  import opened Evidence
  import opened Honest
  import opened Runs

  // A live authority holds the lists and objects it was built with; the verifier reads new ones from every entry,
  // equal to no others. A grant is then found within its parent's unless a deny list of the parent, or what the grant
  // keeps of an allow list, holds one.

  /** A list or an object in the parent's list that the grant would hold too. */
  predicate RepeatsAt(profile: Profile, request: Authority, c: Ceiling) {
    match c
    case Deny(_, notOneOf, _) => !ArePlain(notOneOf)
    case Allow(_, oneOf, _) =>
      (match Held(profile, request.ceilings, PairKeyOf(profile, c))
       case None => !ArePlain(oneOf)
       case Some(y) => y.Allow? && exists e :: e in oneOf && e.Ref? && e in y.oneOf)
    case _ => false
  }

  /** What a caller can look for before it delegates. */
  predicate Repeats(parent: Authority, request: Authority) {
    exists c :: c in parent.ceilings && RepeatsAt(parent.profile, request, c)
  }

  lemma CombinedReadsBack(profile: Profile, c: Ceiling, request: Authority, r: Ceiling)
    requires CombineHeld(Some(c), Held(profile, request.ceilings, PairKeyOf(profile, c))) == Some(Some(r))
    ensures ReadsBack(c, r) <==> !RepeatsAt(profile, request, c)
  {
    var y := Held(profile, request.ceilings, PairKeyOf(profile, c));
    if c.Allow? && y.Some? && y.value.Allow? {
      assert r.oneOf == Filter(c.oneOf, e => e in y.value.oneOf);
    }
  }

  /** The meet reads back within the parent exactly when it repeats no list and no object of the parent's. */
  lemma MeetReadsBackIff(parent: Authority, request: Authority)
    requires Valid(parent) && Valid(request) && Meet(parent, request).Some?
    ensures ReadsApart(Meet(parent, request).value, parent) <==> !Repeats(parent, request)
  {
    hide ReadsBack, RepeatsAt, PairKeyOf, WellFormed, CombineHeld, Held, Meet;
    var m := Meet(parent, request).value;
    DistinctKeysPair(parent.profile, parent.ceilings);
    MeetProfile(parent, request);
    forall c | c in parent.ceilings ensures ApartAt(m, parent, c) <==> !RepeatsAt(parent.profile, request, c) {
      MeetReadsBackAt(parent, request, c);
    }
  }

  lemma MeetProfile(parent: Authority, request: Authority)
    requires Meet(parent, request).Some?
    ensures Meet(parent, request).value.profile == parent.profile
  {
  }

  lemma MeetReadsBackAt(parent: Authority, request: Authority, c: Ceiling)
    requires Valid(parent) && Valid(request) && Meet(parent, request).Some? && c in parent.ceilings
    ensures ApartAt(Meet(parent, request).value, parent, c) <==> !RepeatsAt(parent.profile, request, c)
  {
    DistinctKeysPair(parent.profile, parent.ceilings);
    MeetProfile(parent, request);
    var k := PairKeyOf(parent.profile, c);
    HeldInMeet(parent, request, k);
    hide ReadsBack, RepeatsAt, PairKeyOf, WellFormed, CombineHeld, Meet;
    assert Held(parent.profile, parent.ceilings, k) == Some(c);
    var r := Held(parent.profile, Meet(parent, request).value.ceilings, k);
    CombinedStays(c, Held(parent.profile, request.ceilings, k));
    CombinedReadsBack(parent.profile, c, request, r.value);
  }

  lemma CombinedStays(c: Ceiling, y: Option<Ceiling>)
    ensures CombineHeld(Some(c), y).Some? ==> CombineHeld(Some(c), y).value.Some?
  {
  }

  // ---- delegating ---------------------------------------------------------

  /** The delegation is permitted, and its spawn entry committed. */
  predicate Spawns(hash: Hasher, w: World, op: Op)
    requires op.Delegate?
  {
    match AddChild(w.chain, op.node, op.agent, op.request, op.task, op.now)
    case Err(_) => false
    case Ok(chain) =>
      var id := NodeId(w.chain.chainId, w.chain.nextId);
      id in chain.nodes &&
      Append(hash, w.(chain := chain), EventSpawn,
        SpawnFields(w.chain.chainId, op.node, id, op.agent, op.task, op.request, chain.nodes[id].authority)).1
  }

  /** The call writes a grant that repeats a list or an object of its parent's. */
  predicate Regrants(hash: Hasher, w: World, op: Op)
    requires op.node in w.chain.nodes
  {
    op.Delegate? && Spawns(hash, w, op) && Repeats(w.chain.nodes[op.node].authority, op.request)
  }

  lemma ChildHoldsMeet(c: ChainState, parent: string, agent: string, request: Authority, task: string, now: int)
    requires AddChild(c, parent, agent, request, task, now).Ok? && parent in c.nodes && NodeId(c.chainId, c.nextId) !in c.nodes
    ensures var c' := AddChild(c, parent, agent, request, task, now).value;
            var id := NodeId(c.chainId, c.nextId);
            && id in c'.nodes && parent in c'.nodes && c'.nodes[parent].authority == c.nodes[parent].authority
            && Meet(c.nodes[parent].authority, request) == Some(c'.nodes[id].authority)
  {
    hide Meet, IsNarrower, NodeId, DelegationError;
  }

  /** No call but a delegation changes what is found of the grants, and a delegation exactly when it regrants. */
  lemma StepGrants(hash: Hasher, w: World, op: Op)
    requires LedgerInv(hash, w) && Legal(w, op)
    ensures Attenuates(Step(hash, w, op).entries) <==> Attenuates(w.entries) && !Regrants(hash, w, op)
  {
    hide LedgerInv, Attenuates, Repeats, Spawns;
    if op.Delegate? {
      DelegateGrants(hash, w, op);
    } else {
      hide Legal;
      StepKeeps(hash, w, op);
    }
  }

  lemma DelegateGrants(hash: Hasher, w: World, op: Op)
    requires LedgerInv(hash, w) && Legal(w, op) && op.Delegate?
    ensures Attenuates(Step(hash, w, op).entries) <==> Attenuates(w.entries) && !Regrants(hash, w, op)
  {
    hide ChainOk, LogOk, EntriesOk, DefinitionsTied, KillsTied, Append, Fits, Grows, HoldsGuard, IsCascade, Valid, IsBuiltinAuthority, AddChild, SpawnFields,
      SpawnDeniedFields, Attenuates, Repeats, GrantReadsBack;
    match AddChild(w.chain, op.node, op.agent, op.request, op.task, op.now)
    case Err(code) =>
      DenialFits(w, op, code);
      AppendGrants(hash, w, EventSpawnDenied, SpawnDeniedFields(w.chain.chainId, w.chain.maxDepth, w.chain.maxFanout, op.node, op.agent, op.task, code));
    case Ok(chain) =>
      var id := NodeId(w.chain.chainId, w.chain.nextId);
      ChildIsOk(w.chain, op.node, op.agent, op.request, op.task, op.now);
      ChainGrows(hash, w, chain);
      SpawnIsFit(w, op, chain, id);
      var fields := SpawnFields(w.chain.chainId, op.node, id, op.agent, op.task, op.request, chain.nodes[id].authority);
      AppendGrants(hash, w.(chain := chain), EventSpawn, fields);
      SpawnReadsBack(w, op, chain, id);
  }

  lemma SpawnReadsBack(w: World, op: Op, chain: ChainState, id: string)
    requires ChainOk(w.chain) && op.Delegate? && op.node in w.chain.nodes && Valid(op.request)
    requires AddChild(w.chain, op.node, op.agent, op.request, op.task, op.now) == Ok(chain)
    requires id == NodeId(w.chain.chainId, w.chain.nextId) && id !in w.chain.nodes && id in chain.nodes
    ensures GrantReadsBack(w.(chain := chain), SpawnFields(w.chain.chainId, op.node, id, op.agent, op.task, op.request, chain.nodes[id].authority))
            <==> !Repeats(w.chain.nodes[op.node].authority, op.request)
  {
    hide TreeInv, AllBuiltin, Valid, IsNarrower, AddChild, ReadsApart, Repeats, NodeId, Meet;
    SpawnFieldsAre(w.chain.chainId, op.node, id, op.agent, op.task, op.request, chain.nodes[id].authority);
    ChildHoldsMeet(w.chain, op.node, op.agent, op.request, op.task, op.now);
    MeetReadsBackIff(w.chain.nodes[op.node].authority, op.request);
    hide SpawnFields;
  }
}
