/**
 * Whole runs of a chain's guards: any legal sequence of calls on any guards, with any clock, any call ids and
 * any persistence failures. The ledger a run leaves behind passes every rule of the verifier. The fields each call
 * writes are shown to fit the ledger, and then each call to keep the tie between the chain and its ledger.
 */
module Runs {
  import opened Results
  import opened PlainJson
  import opened Scopes
  import opened Ceilings
  import opened Authorities
  import opened Meets
  import opened Lattice
  import opened AuthorityWire
  import opened Reasons
  import opened Chains
  import opened Audit
  import opened Ledger
  import opened GuardSteps
  import opened EvidenceRules
  import opened Evidence
  import opened Honest

  /** One call on a guard of the chain. `cascade` is the order in which `Chain.revoke` listed the new ids. */
  datatype Op =
    | Delegate(node: string, agent: string, request: Authority, task: string, now: int, persists: bool)
    | Check(node: string, scope: string, options: CheckOptions, env: Environment, cascade: seq<string>)
    | RecordDenial(node: string, reason: Reason, scope: string, tool: Option<string>, ctx: Context,
                   disposition: Option<string>, callId: Option<string>, persists: bool)
    | RecordPassthrough(node: string, name: string, scope: string, ctx: Context, policy: string, callId: Option<string>, persists: bool)
    | Complete(node: string, persists: bool)
    | RecordOutcome(node: string, report: OutcomeReport, persists: bool)
    | Revoke(node: string, target: string, cascade: seq<string>, persists: bool)
    | RevokeAgent(node: string, agent: string, cascade: seq<string>, persists: bool)

  /** A guard exists for every node whose definition was committed. */
  ghost predicate HoldsGuard(w: World, node: string) {
    node in w.chain.nodes && DefinedBefore(w.entries, |w.entries|, node)
  }

  /** The list `Chain.revoke` returns: the newly revoked nodes, each once. */
  ghost predicate IsCascade(w: World, subtree: set<string>, cascade: seq<string>) {
    Distinct(cascade) && forall id :: id in cascade <==> id in subtree && id !in w.chain.revoked
  }

  /** What the strike policy revoked: nothing, or the node's whole cascade. */
  ghost predicate IsStrikeCascade(w: World, node: string, cascade: seq<string>) {
    cascade == [] || IsCascade(w, Subtree(w.chain, node), cascade)
  }

  /** A call a program can make: on a guard it holds, with authorities of built-in ceilings. */
  ghost predicate Legal(w: World, op: Op) {
    && HoldsGuard(w, op.node)
    && (op.Delegate? ==> Valid(op.request) && (op.request.profile.P02? || IsBuiltinAuthority(op.request)))
    && (op.Check? ==> IsStrikeCascade(w, op.node, op.cascade))
    && (op.Revoke? ==> IsCascade(w, Subtree(w.chain, op.target), op.cascade))
    && (op.RevokeAgent? ==> IsCascade(w, AgentSubtrees(w.chain, op.agent), op.cascade))
  }

  function Step(hash: Hasher, w: World, op: Op): World
    requires op.node in w.chain.nodes
  {
    match op
    case Delegate(node, agent, request, task, now, persists) => DelegateStep(hash, w, node, agent, request, task, now, persists).0
    case Check(node, scope, options, env, cascade) => CheckStep(hash, w, node, scope, options, env, cascade).0
    case RecordDenial(node, reason, scope, tool, ctx, disposition, callId, persists) =>
      RecordDenialStep(hash, w, node, reason, scope, tool, ctx, disposition, callId, persists).0
    case RecordPassthrough(node, name, scope, ctx, policy, callId, persists) =>
      RecordPassthroughStep(hash, w, node, name, scope, ctx, policy, callId, persists).0
    case Complete(node, persists) => CompleteStep(hash, w, node, persists).0
    case RecordOutcome(node, report, persists) => RecordOutcomeStep(hash, w, node, report, persists).0
    case Revoke(_, target, cascade, persists) => RevokeStep(hash, w, target, cascade, persists).0
    case RevokeAgent(node, agent, cascade, persists) => RevokeAgentStep(hash, w, node, agent, cascade, persists).0
  }

  // ---- the fields a guard writes ------------------------------------------

  const DECISION_FIELDS: set<Field> := {FChainId, FNode, FScope, FTool, FContext, FReason, FReasons, FDisposition}

  const CALL_FIELDS: set<Field> := {FCallId, FCapture, FAdapter, FAuthorizedParamsHash, FParamsHashReason, FInvokedParamsHash}

  lemma DecisionFieldsAre(chainId: string, node: string, d: Decision, scope: string, tool: Option<string>, ctx: Context, disposition: Option<string>)
    ensures var fields := DecisionFields(chainId, node, d, scope, tool, ctx, disposition);
            && fields.Keys <= DECISION_FIELDS
            && Get(fields, FChainId) == Some(JStr(chainId)) && Get(fields, FNode) == Some(JStr(node))
            && Get(fields, FScope) == Some(JStr(scope)) && Get(fields, FContext) == Some(JObj(ctx))
  {
    hide Map;
  }

  lemma CommitmentFieldsAre(c: Commitment, field: Field)
    requires field in CALL_FIELDS
    ensures CommitmentFields(c, field).Keys <= CALL_FIELDS
  {
  }

  lemma CallFieldsAre(w: World, d: Decision, o: CheckOptions, id: Option<string>)
    ensures CallFields(w, d, o, id).Keys <= CALL_FIELDS
    ensures id.None? ==> CallFields(w, d, o, id) == map[]
  {
    CommitmentFieldsAre(o.params, FAuthorizedParamsHash);
    hide CommitmentFields, AdapterToJson, OwnAdapter;
  }

  lemma FieldKindsAreDisjoint()
    ensures DECISION_FIELDS !! FRAMING && CALL_FIELDS !! FRAMING && DECISION_FIELDS !! CALL_FIELDS
    ensures DECISION_FIELDS !! V2_ONLY && FPolicy !in DECISION_FIELDS && FPolicy !in CALL_FIELDS
    ensures forall f :: f in DECISION_FIELDS || f in CALL_FIELDS ==> !f.FOther?
  {
  }

  /** A gated allow the authority grants, or a deny, fits the ledger. */
  lemma DecisionFits(w: World, node: string, d: Decision, scope: string, tool: Option<string>, ctx: Context, disposition: Option<string>, extra: Entry)
    requires HoldsGuard(w, node) && extra.Keys <= CALL_FIELDS && (w.cfg.version == 1 ==> extra == map[])
    requires d.allowed ==> node !in w.chain.revoked && Grants(w.chain.nodes[node].authority, scope, ctx, [])
    ensures Fits(w, EventOfDecision(d), DecisionFields(w.chain.chainId, node, d, scope, tool, ctx, disposition) + extra)
  {
    DecisionFieldsAre(w.chain.chainId, node, d, scope, tool, ctx, disposition);
    FieldKindsAreDisjoint();
    hide DecisionFields, Grants, DECISION_FIELDS, CALL_FIELDS, V2_ONLY, FRAMING, DefinedBefore;
    var base := DecisionFields(w.chain.chainId, node, d, scope, tool, ctx, disposition);
    var fields := base + extra;
    assert forall f :: f in fields ==> f in DECISION_FIELDS || f in CALL_FIELDS;
    assert forall f :: f in base ==> f !in extra && fields[f] == base[f];
  }

  // ---- delegation ---------------------------------------------------------

  /** The meet of authorities of built-in ceilings holds built-in ceilings. */
  lemma MeetIsBuiltin(a: Authority, b: Authority)
    requires Valid(a) && Valid(b) && IsBuiltinAuthority(a) && IsBuiltinAuthority(b) && Meet(a, b).Some?
    ensures IsBuiltinAuthority(Meet(a, b).value)
  {
    hide IsBuiltin, Pruned, Merged, WellFormed, Combine;
    var rest := Filter(b.ceilings, c => Unmatched(a.profile, a.ceilings, c));
    CombineAllBuiltin(a.profile, a.ceilings, b.ceilings);
  }

  lemma {:induction false} CombineAllBuiltin(profile: Profile, mine: seq<Ceiling>, theirs: seq<Ceiling>)
    requires (forall c :: c in mine ==> IsBuiltin(c)) && (forall c :: c in theirs ==> IsBuiltin(c))
    requires CombineAll(profile, mine, theirs).Some?
    ensures forall c :: c in CombineAll(profile, mine, theirs).value ==> IsBuiltin(c)
  {
    if mine != [] {
      CombineAllBuiltin(profile, mine[1..], theirs);
      var other := Held(profile, theirs, PairKeyOf(profile, mine[0]));
      if other.Some? { CombineBuiltin(mine[0], other.value); }
      hide IsBuiltin, Combine, PairKeyOf, Held;
    }
  }

  lemma CombineBuiltin(a: Ceiling, b: Ceiling)
    requires IsBuiltin(a) && IsBuiltin(b) && Combine(a, b).Some?
    ensures IsBuiltin(Combine(a, b).value)
  {
    hide CeilingFromWire;
  }

  lemma ChildIsOk(c: ChainState, parent: string, agent: string, request: Authority, task: string, now: int)
    requires ChainOk(c) && Valid(request) && (request.profile.P02? || IsBuiltinAuthority(request))
    requires AddChild(c, parent, agent, request, task, now).Ok?
    ensures var c' := AddChild(c, parent, agent, request, task, now).value;
            var id := NodeId(c.chainId, c.nextId);
            && ChainOk(c') && Grows(c, c') && id in c'.nodes && id !in c.nodes
            && c'.nodes[id].parent == Some(parent) && parent in c.nodes && parent !in c'.revoked
            && c'.revoked == c.revoked && c'.chainId == c.chainId
  {
    hide TreeInv, Attenuated, IsBuiltinAuthority, Valid, IsNarrower, NodeId;
    var m := Meet(c.nodes[parent].authority, request).value;
    assert Valid(c.nodes[parent].authority) && IsBuiltinAuthority(c.nodes[parent].authority) && IsBuiltinAuthority(request) by {
      ParentIsBuiltin(c, parent, request);
    }
    MeetIsValid(c.nodes[parent].authority, request);
    MeetIsBuiltin(c.nodes[parent].authority, request);
    NextIdIsNew(c);
    WithChildKeepsTree(c, parent, agent, m, task, now);
    WithChildAttenuates(c, parent, agent, m, task, now);
  }

  lemma ParentIsBuiltin(c: ChainState, parent: string, request: Authority)
    requires ChainOk(c) && parent in c.nodes && Meet(c.nodes[parent].authority, request).Some?
    requires request.profile.P02? || IsBuiltinAuthority(request)
    ensures Valid(c.nodes[parent].authority) && IsBuiltinAuthority(c.nodes[parent].authority) && IsBuiltinAuthority(request)
  {
    hide TreeInv, Valid, IsNarrower, IsBuiltin;
  }

  lemma DelegateKeeps(hash: Hasher, w: World, op: Op)
    requires LedgerInv(hash, w) && Legal(w, op) && op.Delegate?
    ensures LedgerInv(hash, Step(hash, w, op))
  {
    hide ChainOk, LogOk, EntriesOk, DefinitionsTied, KillsTied, Append, Fits, Grows, HoldsGuard, IsCascade, Valid, IsBuiltinAuthority, AddChild, SpawnFields, SpawnDeniedFields;
    match AddChild(w.chain, op.node, op.agent, op.request, op.task, op.now)
    case Err(code) =>
      DenialFits(w, op, code);
      AppendKeeps(hash, w, EventSpawnDenied, SpawnDeniedFields(w.chain.chainId, w.chain.maxDepth, w.chain.maxFanout, op.node, op.agent, op.task, code));
    case Ok(chain) =>
      var id := NodeId(w.chain.chainId, w.chain.nextId);
      ChildIsOk(w.chain, op.node, op.agent, op.request, op.task, op.now);
      ChainGrows(hash, w, chain);
      SpawnIsFit(w, op, chain, id);
      AppendKeeps(hash, w.(chain := chain), EventSpawn,
        SpawnFields(w.chain.chainId, op.node, id, op.agent, op.task, op.request, chain.nodes[id].authority));
  }

  lemma DenialFits(w: World, op: Op, code: ReasonCode)
    requires op.Delegate?
    ensures Fits(w, EventSpawnDenied, SpawnDeniedFields(w.chain.chainId, w.chain.maxDepth, w.chain.maxFanout, op.node, op.agent, op.task, code))
  {
    hide CodeText, DetailOf;
  }

  const SPAWN_FIELDS: set<Field> := {FChainId, FParent, FNode, FAgent, FTask, FRequested, FGranted}

  lemma SpawnFieldsAre(chainId: string, parent: string, node: string, agent: string, task: string, requested: Authority, granted: Authority)
    ensures var fields := SpawnFields(chainId, parent, node, agent, task, requested, granted);
            && fields.Keys == SPAWN_FIELDS
            && Get(fields, FChainId) == Some(JStr(chainId)) && Get(fields, FNode) == Some(JStr(node))
            && Get(fields, FParent) == Some(JStr(parent)) && Get(fields, FGranted) == Some(AuthorityToWire(granted))
  {
    hide AuthorityToWire;
  }

  lemma SpawnKinds()
    ensures SPAWN_FIELDS !! FRAMING && SPAWN_FIELDS !! V2_ONLY && FPolicy !in SPAWN_FIELDS
    ensures forall f :: f in SPAWN_FIELDS ==> !f.FOther?
  {
  }

  lemma SpawnFitsFor(w: World, c: ChainState, fields: Entry, id: string, parent: string)
    requires Get(fields, FNode) == Some(JStr(id)) && Get(fields, FParent) == Some(JStr(parent))
    requires id in c.nodes && Get(fields, FGranted) == Some(AuthorityToWire(c.nodes[id].authority)) && c.nodes[id].parent == Some(parent)
    requires !DefinedBefore(w.entries, |w.entries|, id) && DefinedBefore(w.entries, |w.entries|, parent) && parent !in c.revoked
    ensures SpawnFits(w.(chain := c), fields)
  {
    hide DefinedBefore, AuthorityToWire;
  }

  lemma SpawnIsFit(w: World, op: Op, c: ChainState, id: string)
    requires DefinitionsTied(w.chain, w.entries) && op.Delegate? && HoldsGuard(w, op.node)
    requires c.chainId == w.chain.chainId && op.node !in c.revoked && id in c.nodes && id !in w.chain.nodes && c.nodes[id].parent == Some(op.node)
    ensures Fits(w.(chain := c), EventSpawn, SpawnFields(w.chain.chainId, op.node, id, op.agent, op.task, op.request, c.nodes[id].authority))
  {
    SpawnFieldsAre(w.chain.chainId, op.node, id, op.agent, op.task, op.request, c.nodes[id].authority);
    SpawnKinds();
    assert !DefinedBefore(w.entries, |w.entries|, id);
    hide DefinedBefore, AuthorityToWire, SPAWN_FIELDS, FRAMING, V2_ONLY, SpawnFields, SpawnFits, DefinitionsTied, Fits;
    var fields := SpawnFields(w.chain.chainId, op.node, id, op.agent, op.task, op.request, c.nodes[id].authority);
    SpawnFitsFor(w, c, fields, id, op.node);
    PlainFits(w.(chain := c), EventSpawn, fields, SPAWN_FIELDS);
  }

  /** Fields of a kind that carries no policy, naming the chain and a text node, fit if the event's own rule does. */
  lemma PlainFits(w: World, event: EventKind, fields: Entry, kinds: set<Field>)
    requires fields.Keys <= kinds && kinds !! FRAMING && FPolicy !in kinds && (w.cfg.version == 1 ==> event != EventOutcome && fields.Keys !! V2_ONLY)
    requires forall f :: f in kinds ==> !f.FOther?
    requires Get(fields, FChainId) == Some(JStr(w.chain.chainId)) && (FNode in fields ==> fields[FNode].JStr?)
    requires !event.EventRoot? && !event.EventAllow?
    requires (event.EventSpawn? ==> SpawnFits(w, fields)) && (event.EventKill? ==> KillFits(w, fields))
    ensures Fits(w, event, fields)
  {
    hide SpawnFits, KillFits, FRAMING, V2_ONLY;
    assert forall f :: f in fields ==> f in kinds;
  }

  // ---- changes that leave the tree alone, and revocation ------------------

  /** Meters, strikes and pending calls are not the verifier's business. */
  lemma SideTablesKeep(hash: Hasher, w: World, c: ChainState)
    requires LedgerInv(hash, w)
    requires c == w.chain.(calls := c.calls, strikes := c.strikes, pending := c.pending, outcomed := c.outcomed)
    ensures LedgerInv(hash, w.(chain := c))
    ensures SameGrants(w, w.(chain := c))
  {
    hide EntriesOk, LogOk, DefinitionsTied, KillsTied, Attenuated, AllBuiltin, NodeOk, Numbered;
    SameLinks(w.chain, c);
    hide TreeInv, LinksInv;
    ChainGrows(hash, w, c);
  }

  lemma SubtreeKeepsTree(c: ChainState, target: string)
    requires TreeInv(c)
    ensures TreeInv(c.(revoked := c.revoked + Subtree(c, target)))
  {
    hide LinksInv;
    var revoked := c.revoked + Subtree(c, target);
    forall id, child | id in revoked && id in c.nodes && child in c.nodes[id].children ensures child in revoked {
      if id in Subtree(c, target) { ChildDescends(c, id, child, target); }
    }
    RevokedTree(c, revoked);
  }

  lemma AgentSubtreesKeepTree(c: ChainState, agent: string)
    requires TreeInv(c)
    ensures TreeInv(c.(revoked := c.revoked + AgentSubtrees(c, agent), banned := c.banned + {agent}))
  {
    hide LinksInv, NodeOk, Numbered;
    var revoked := c.revoked + AgentSubtrees(c, agent);
    forall id, child | id in revoked && id in c.nodes && child in c.nodes[id].children ensures child in revoked {
      if id !in c.revoked {
        var a :| a in c.nodes && c.nodes[a].agent == agent && Descends(c, id, a);
        ChildDescends(c, id, child, a);
      }
    }
    RevokedTree(c, revoked);
    forall id | id in c.nodes && c.nodes[id].agent == agent ensures id in revoked { assert Descends(c, id, id); }
    BanKeepsTree(c.(revoked := revoked), agent);
  }

  lemma BanKeepsTree(c: ChainState, agent: string)
    requires TreeInv(c) && forall id :: id in c.nodes && c.nodes[id].agent == agent ==> id in c.revoked
    ensures TreeInv(c.(banned := c.banned + {agent}))
  {
    SameLinks(c, c.(banned := c.banned + {agent}));
  }

  const KILL_FIELDS: set<Field> := {FChainId, FTarget, FRevoked, FPendingAtKill, FAgent, FReason, FScope, FStrikes, FMode}

  const KILL_EXTRAS: set<Field> := {FAgent, FReason, FScope, FStrikes, FMode}

  lemma KillFieldsAre(w: World, target: string, cascade: seq<string>, extra: Entry)
    requires extra.Keys <= KILL_EXTRAS
    ensures var fields := KillFields(w, target, cascade) + extra;
            && fields.Keys <= KILL_FIELDS && (w.cfg.version != 2 ==> FPendingAtKill !in fields)
            && Get(fields, FRevoked) == Some(Strings(cascade)) && Get(fields, FChainId) == Some(JStr(w.chain.chainId))
  {
    hide Strings, PendingAtKill;
  }

  lemma KillKinds()
    ensures KILL_FIELDS !! FRAMING && (KILL_FIELDS - {FPendingAtKill}) !! V2_ONLY && FPolicy !in KILL_FIELDS && FNode !in KILL_FIELDS
    ensures forall f :: f in KILL_FIELDS ==> !f.FOther?
  {
  }

  /** A kill of nodes already revoked fits the ledger. */
  lemma KillFitsLedger(w: World, target: string, cascade: seq<string>, extra: Entry)
    requires forall id :: id in cascade ==> id in w.chain.revoked
    requires extra.Keys <= KILL_EXTRAS && (w.cfg.version == 1 || w.cfg.version == 2)
    ensures Fits(w, EventKill, KillFields(w, target, cascade) + extra)
  {
    KillFieldsAre(w, target, cascade, extra);
    KillKinds();
    KillItems(w, target, cascade);
    var fields := KillFields(w, target, cascade) + extra;
    KillItemsFit(w, fields, cascade);
    hide KillFields, Strings, KILL_FIELDS, KILL_EXTRAS, FRAMING, V2_ONLY, Fits, KillFits;
    if w.cfg.version == 1 { SubsetDisjoint(fields.Keys, KILL_FIELDS - {FPendingAtKill}, V2_ONLY); }
    PlainFits(w, EventKill, fields, KILL_FIELDS);
  }

  lemma SubsetDisjoint(a: set<Field>, b: set<Field>, c: set<Field>)
    requires a <= b && b !! c
    ensures a !! c
  {
  }

  lemma KillItemsFit(w: World, fields: Entry, cascade: seq<string>)
    requires Get(fields, FRevoked) == Some(Strings(cascade))
    requires forall id :: JStr(id) in Strings(cascade).items <==> id in cascade
    requires forall id :: id in cascade ==> id in w.chain.revoked
    ensures KillFits(w, fields)
  {
    hide Map;
  }

  lemma KillItems(w: World, target: string, cascade: seq<string>)
    ensures forall id :: JStr(id) in Strings(cascade).items <==> id in cascade
  {
    var items := Strings(cascade).items;
    forall id | id in cascade ensures JStr(id) in items {
      var i :| 0 <= i < |cascade| && cascade[i] == id;
      assert items[i] == JStr(id);
    }
  }

  /** Revoke, then record the kill. */
  lemma RevokeThenKill(hash: Hasher, w: World, c: ChainState, target: string, cascade: seq<string>, extra: Entry)
    requires LedgerInv(hash, w) && TreeInv(c)
    requires c == w.chain.(revoked := c.revoked, banned := c.banned) && w.chain.revoked <= c.revoked
    requires forall id :: id in cascade ==> id in c.revoked
    requires extra.Keys <= KILL_EXTRAS
    ensures LedgerInv(hash, Append(hash, w.(chain := c), EventKill, KillFields(w.(chain := c), target, cascade) + extra).0)
    ensures SameGrants(w, Append(hash, w.(chain := c), EventKill, KillFields(w.(chain := c), target, cascade) + extra).0)
  {
    hide EntriesOk, LogOk, DefinitionsTied, KillsTied, Attenuated, AllBuiltin, TreeInv, KillFields, Append, Fits;
    ChainGrows(hash, w, c);
    KillFitsLedger(w.(chain := c), target, cascade, extra);
    AppendKeeps(hash, w.(chain := c), EventKill, KillFields(w.(chain := c), target, cascade) + extra);
  }

  lemma RevokeKeeps(hash: Hasher, w: World, op: Op)
    requires LedgerInv(hash, w) && Legal(w, op) && op.Revoke?
    ensures LedgerInv(hash, Step(hash, w, op))
    ensures SameGrants(w, Step(hash, w, op))
  {
    hide EntriesOk, LogOk, DefinitionsTied, KillsTied, Attenuated, AllBuiltin, TreeInv, KillFields, Append, HoldsGuard, Subtree;
    SubtreeKeepsTree(w.chain, op.target);
    var c := w.chain.(revoked := w.chain.revoked + Subtree(w.chain, op.target));
    RevokeThenKill(hash, w, c, op.target, op.cascade, map[]);
    assert KillFields(w.(chain := c), op.target, op.cascade) + map[] == KillFields(w.(chain := c), op.target, op.cascade);
  }

  lemma RevokeAgentKeeps(hash: Hasher, w: World, op: Op)
    requires LedgerInv(hash, w) && Legal(w, op) && op.RevokeAgent?
    ensures LedgerInv(hash, Step(hash, w, op))
    ensures SameGrants(w, Step(hash, w, op))
  {
    hide EntriesOk, LogOk, DefinitionsTied, KillsTied, Attenuated, AllBuiltin, TreeInv, KillFields, Append, HoldsGuard, AgentSubtrees;
    AgentSubtreesKeepTree(w.chain, op.agent);
    var c := w.chain.(revoked := w.chain.revoked + AgentSubtrees(w.chain, op.agent), banned := w.chain.banned + {op.agent});
    RevokeThenKill(hash, w, c, op.node, op.cascade, map[FAgent := JStr(op.agent)]);
  }

  // ---- check --------------------------------------------------------------

  /** What an authorized check was granted: node state, scope and every ceiling, on the metered context. */
  lemma AuthorizedIsGranted(w: World, node: string, scope: string, o: CheckOptions, now: int)
    requires node in w.chain.nodes && w.chain.nodes[node].authority.profile.P01?
    requires Authorize(w, node, scope, o, now).Some? && Authorize(w, node, scope, o, now).value.decision.allowed
    ensures var a := Authorize(w, node, scope, o, now).value;
            node !in w.chain.revoked && Grants(w.chain.nodes[node].authority, scope, a.metering.ctx, [])
  {
    hide Grants, AutoMeter, Undeclared;
  }

  lemma StrikeKeeps(hash: Hasher, w: World, node: string, scope: string, d: Decision, killPersists: bool, cascade: seq<string>)
    requires LedgerInv(hash, w) && IsStrikeCascade(w, node, cascade)
    ensures LedgerInv(hash, StrikeStep(hash, w, node, scope, d, killPersists, cascade).0)
    ensures SameGrants(w, StrikeStep(hash, w, node, scope, d, killPersists, cascade).0)
  {
    hide EntriesOk, LogOk, DefinitionsTied, KillsTied, Attenuated, AllBuiltin, TreeInv, KillFields, Append, Subtree, StrikeKey, Attenuates;
    if CountsStrike(w, node, d) {
      var p := w.cfg.strikes.value;
      var key := StrikeKey(p, node, scope);
      var n := Count(w.chain.strikes, key) + 1;
      var w1 := w.(chain := w.chain.(strikes := w.chain.strikes[key := n]));
      SideTablesKeep(hash, w, w1.chain);
      if n >= p.n {
        var c := w1.chain.(revoked := w1.chain.revoked + Subtree(w1.chain, node));
        SubtreeKeepsTree(w1.chain, node);
        SameSubtree(w.chain, w1.chain, node);
        StrikeKill(hash, w1, c, node, scope, n, p, cascade);
      }
    }
  }

  lemma StrikeKill(hash: Hasher, w1: World, c: ChainState, node: string, scope: string, n: int, p: StrikePolicy, cascade: seq<string>)
    requires LedgerInv(hash, w1) && TreeInv(c) && c == w1.chain.(revoked := c.revoked) && w1.chain.revoked <= c.revoked
    requires forall id :: id in cascade ==> id in c.revoked
    ensures var w2 := w1.(chain := c);
            var w3 := Append(hash, w2, EventKill, KillFields(w2, node, cascade)
              + map[FReason := JStr("strike_policy"), FScope := JStr(scope), FStrikes := JNum(n), FMode := JStr(if p.sameScope then "same_scope" else "total")]).0;
            LedgerInv(hash, w3) && SameGrants(w1, w3)
  {
    hide LedgerInv, TreeInv, KillFields, Append;
    RevokeThenKill(hash, w1, c, node, cascade,
      map[FReason := JStr("strike_policy"), FScope := JStr(scope), FStrikes := JNum(n), FMode := JStr(if p.sameScope then "same_scope" else "total")]);
  }

  lemma SameSubtree(x: ChainState, y: ChainState, root: string)
    requires x.nodes == y.nodes
    ensures Subtree(x, root) == Subtree(y, root)
  {
    hide Descends;
    forall id { SameTreeSameDescent(x, y, id, root); }
  }

  /** Only side tables, the ledger and the clock may differ. */
  ghost predicate SameTree(w: World, w': World) {
    && w'.cfg == w.cfg && w'.chain.chainId == w.chain.chainId && w'.chain.nodes == w.chain.nodes && w'.chain.revoked == w.chain.revoked
    && (w'.entries == w.entries || (w'.entries != [] && w'.entries[..|w'.entries| - 1] == w.entries))
  }

  lemma AppendSameTree(hash: Hasher, w: World, event: EventKind, fields: Entry)
    ensures SameTree(w, Append(hash, w, event, fields).0) && Append(hash, w, event, fields).0.chain == w.chain
    ensures !Append(hash, w, event, fields).1 ==> Append(hash, w, event, fields).0 == w.(clock := w.clock + 1)
  {
    hide Committed;
  }

  lemma EventOfDenial(d: Decision)
    requires !d.allowed
    ensures EventOfDecision(d) == EventDeny
  {
  }

  lemma OnlyCallId(w: World, callId: Option<string>)
    ensures var extra: Entry := match IdFor(w, callId) case Some(x) => map[FCallId := JStr(x)] case None => map[];
            extra.Keys <= CALL_FIELDS && (w.cfg.version == 1 ==> extra == map[])
  {
  }

  lemma RecordDenialKeeps(hash: Hasher, w: World, node: string, reason: Reason, scope: string, tool: Option<string>, ctx: Context,
                          disposition: Option<string>, callId: Option<string>, persists: bool)
    requires LedgerInv(hash, w) && HoldsGuard(w, node)
    ensures LedgerInv(hash, RecordDenialStep(hash, w, node, reason, scope, tool, ctx, disposition, callId, persists).0)
    ensures SameGrants(w, RecordDenialStep(hash, w, node, reason, scope, tool, ctx, disposition, callId, persists).0)
  {
    hide LedgerInv, HoldsGuard, DecisionFields, Append, CALL_FIELDS, DISPOSITIONS, Fits, EventOfDecision, IdFor;
    var id := IdFor(w, callId);
    var d := Denied(reason).(callId := id);
    var extra := match id case Some(x) => map[FCallId := JStr(x)] case None => map[];
    OnlyCallId(w, callId);
    assert EventOfDecision(d) == EventDeny by { EventOfDenial(d); }
    DecisionFits(w, node, d, scope, tool, ctx, disposition, extra);
    AppendKeeps(hash, w, EventDeny, DecisionFields(w.chain.chainId, node, d, scope, tool, ctx, disposition) + extra);
  }

  lemma SameGuard(w: World, w': World, node: string)
    requires HoldsGuard(w, node) && w'.entries == w.entries && w'.chain.nodes == w.chain.nodes
    ensures HoldsGuard(w', node)
  {
  }

  lemma CheckFieldsFit(w: World, node: string, scope: string, o: CheckOptions, ctx: Context, d: Decision)
    requires HoldsGuard(w, node) && (w.cfg.version == 1 ==> d.callId.None?)
    requires d.allowed ==> node !in w.chain.revoked && Grants(w.chain.nodes[node].authority, scope, ctx, [])
    ensures Fits(w, EventOfDecision(d), CheckFields(w, node, scope, o, ctx, d))
  {
    CallFieldsAre(w, d, o, d.callId);
    hide HoldsGuard, DecisionFields, CallFields, Grants, Fits, CALL_FIELDS;
    DecisionFits(w, node, d, scope, o.tool, ctx, o.disposition, CallFields(w, d, o, d.callId));
  }

  lemma UncommittedKeeps(hash: Hasher, w: World, node: string, scope: string, o: CheckOptions, ctx: Context, env: Environment)
    requires LedgerInv(hash, w) && HoldsGuard(w, node)
    ensures LedgerInv(hash, UncommittedStep(hash, w, node, scope, o, ctx, env).0)
    ensures SameGrants(w, UncommittedStep(hash, w, node, scope, o, ctx, env).0)
  {
    hide LedgerInv, HoldsGuard, RecordDenialStep, Canonicalizable;
    RecordDenialKeeps(hash, w, node, Reason(NoAuthority, Some("context")), scope, o.tool, [], Some("unresolved"), env.fallbackId, env.fallbackPersists);
  }

  lemma CommittedKeeps(hash: Hasher, w: World, node: string, scope: string, o: CheckOptions, d: Decision, env: Environment, cascade: seq<string>)
    requires LedgerInv(hash, w) && IsStrikeCascade(w, node, cascade)
    ensures LedgerInv(hash, CommittedStep(hash, w, node, scope, o, d, env, cascade).0)
    ensures SameGrants(w, CommittedStep(hash, w, node, scope, o, d, env, cascade).0)
  {
    hide LedgerInv, Register, StrikeStep, Subtree;
    var w' := Registered(w, node, o, d);
    SideTablesKeep(hash, w, w'.chain);
    SameSubtree(w.chain, w'.chain, node);
    StrikeKeeps(hash, w', node, scope, d, env.killPersists, cascade);
  }

  lemma CommitKeeps(hash: Hasher, w: World, restored: map<string, nat>, node: string, scope: string, o: CheckOptions, a: Authorized, env: Environment, cascade: seq<string>)
    requires LedgerInv(hash, w) && HoldsGuard(w, node) && IsStrikeCascade(w, node, cascade)
    requires a.decision.allowed ==> node !in w.chain.revoked && Grants(w.chain.nodes[node].authority, scope, a.metering.ctx, [])
    ensures LedgerInv(hash, CommitStep(hash, w, restored, node, scope, o, a, env, cascade).0)
    ensures SameGrants(w, CommitStep(hash, w, restored, node, scope, o, a, env, cascade).0)
  {
    var d := a.decision.(callId := IdFor(w, env.callId));
    var fields := CheckFields(w, node, scope, o, a.metering.ctx, d);
    hide LedgerInv, HoldsGuard, CheckFields, Append, Grants, Fits, Subtree, SameTree, UncommittedStep, CommittedStep;
    CheckFieldsFit(w, node, scope, o, a.metering.ctx, d);
    AppendKeeps(hash, w, EventOfDecision(d), fields);
    AppendSameTree(hash, w, EventOfDecision(d), fields);
    var w1 := Append(hash, w, EventOfDecision(d), fields).0;
    if Append(hash, w, EventOfDecision(d), fields).1 {
      CommittedKeeps(hash, w1, node, scope, o, d, env, cascade);
    } else {
      SideTablesKeep(hash, w1, WithCalls(w1, restored).chain);
      SameGuard(w, WithCalls(w1, restored), node);
      UncommittedKeeps(hash, WithCalls(w1, restored), node, scope, o, a.metering.ctx, env);
    }
  }

  lemma AuthorizedKeeps(hash: Hasher, w: World, node: string, scope: string, o: CheckOptions, a: Authorized, env: Environment, cascade: seq<string>)
    requires LedgerInv(hash, w) && HoldsGuard(w, node) && IsStrikeCascade(w, node, cascade)
    requires a.decision.allowed ==> node !in w.chain.revoked && Grants(w.chain.nodes[node].authority, scope, a.metering.ctx, [])
    ensures LedgerInv(hash, AuthorizedStep(hash, w, node, scope, o, a, env, cascade).0)
    ensures SameGrants(w, AuthorizedStep(hash, w, node, scope, o, a, env, cascade).0)
  {
    hide LedgerInv, CommitStep, Subtree, Grants, Counted, Restored, DefinedBefore;
    SideTablesKeep(hash, w, WithCalls(w, Restored(w, node, a)).chain);
    SideTablesKeep(hash, w, WithCalls(w, Counted(w, node, a)).chain);
    SameSubtree(w.chain, WithCalls(w, Counted(w, node, a)).chain, node);
    CommitKeeps(hash, WithCalls(w, Counted(w, node, a)), Restored(w, node, a), node, scope, o, a, env, cascade);
  }

  lemma CheckKeeps(hash: Hasher, w: World, op: Op)
    requires LedgerInv(hash, w) && Legal(w, op) && op.Check?
    ensures LedgerInv(hash, Step(hash, w, op))
    ensures SameGrants(w, Step(hash, w, op))
  {
    hide OptionsAccepted, Authorize, AuthorizedStep, Subtree, Grants, IsCascade, DefinedBefore, LogOk, EntriesOk, DefinitionsTied, KillsTied;
    assert w.chain.nodes[op.node].authority.profile.P01?;
    hide LedgerInv;
    var a := Authorize(w, op.node, op.scope, op.options, op.env.now);
    if a.Some? {
      if a.value.decision.allowed { AuthorizedIsGranted(w, op.node, op.scope, op.options, op.env.now); }
      AuthorizedKeeps(hash, w, op.node, op.scope, op.options, a.value, op.env, op.cascade);
    }
  }

  // ---- the other calls ----------------------------------------------------

  lemma PassthroughKeeps(hash: Hasher, w: World, op: Op)
    requires LedgerInv(hash, w) && Legal(w, op) && op.RecordPassthrough?
    ensures LedgerInv(hash, Step(hash, w, op))
    ensures SameGrants(w, Step(hash, w, op))
  {
    if op.policy == UNLISTED && IdAvailable(w, op.callId) {
      var d := Decision(true, [], IdFor(w, op.callId));
      var fields := PassthroughFields(w, op.node, op.name, op.scope, op.ctx, op.policy, d);
      PassthroughFits(w, op.node, op.name, op.scope, op.ctx, op.policy, d);
      hide LedgerInv, PassthroughFields, Append, Fits, HoldsGuard;
      AppendKeeps(hash, w, EventAllow, fields);
    }
  }

  lemma PassthroughFieldsAre(w: World, node: string, tool: string, scope: string, ctx: Context, policy: string, d: Decision)
    ensures var fields := PassthroughFields(w, node, tool, scope, ctx, policy, d);
            && fields.Keys <= DECISION_FIELDS + {FPolicy} + CALL_FIELDS
            && (d.callId.None? ==> fields.Keys <= DECISION_FIELDS + {FPolicy})
            && Get(fields, FPolicy) == Some(JStr(policy))
            && Get(fields, FChainId) == Some(JStr(w.chain.chainId)) && Get(fields, FNode) == Some(JStr(node))
  {
    DecisionFieldsAre(w.chain.chainId, node, d, scope, Some(tool), ctx, None);
    hide DecisionFields, AdapterToJson, OwnAdapter;
  }

  lemma PolicyKinds()
    ensures (DECISION_FIELDS + {FPolicy} + CALL_FIELDS) !! FRAMING && (DECISION_FIELDS + {FPolicy}) !! V2_ONLY
    ensures forall f :: f in DECISION_FIELDS + {FPolicy} + CALL_FIELDS ==> !f.FOther?
  {
  }

  lemma PassthroughFits(w: World, node: string, tool: string, scope: string, ctx: Context, policy: string, d: Decision)
    requires policy == UNLISTED && d.allowed && (w.cfg.version == 1 ==> d.callId.None?)
    ensures Fits(w, EventAllow, PassthroughFields(w, node, tool, scope, ctx, policy, d))
  {
    PassthroughFieldsAre(w, node, tool, scope, ctx, policy, d);
    PolicyKinds();
    var fields := PassthroughFields(w, node, tool, scope, ctx, policy, d);
    hide PassthroughFields, DECISION_FIELDS, CALL_FIELDS, V2_ONLY, FRAMING, SpawnFits, KillFits;
    SubsetDisjoint(fields.Keys, DECISION_FIELDS + {FPolicy} + CALL_FIELDS, FRAMING);
    if w.cfg.version == 1 { SubsetDisjoint(fields.Keys, DECISION_FIELDS + {FPolicy}, V2_ONLY); }
    assert forall f :: f in fields ==> f in DECISION_FIELDS + {FPolicy} + CALL_FIELDS;
  }

  lemma CompleteKeeps(hash: Hasher, w: World, node: string, persists: bool)
    requires LedgerInv(hash, w) && node in w.chain.nodes
    ensures LedgerInv(hash, CompleteStep(hash, w, node, persists).0)
    ensures SameGrants(w, CompleteStep(hash, w, node, persists).0)
  {
    hide LedgerInv, Append, PendingFor, Fits, Marked, DoneFields;
    MarkedKeeps(hash, w, node);
    DoneFits(Marked(w, node), node, w.chain.nodes[node].agent);
    AppendKeeps(hash, Marked(w, node), EventDone, DoneFields(w.chain.chainId, node, w.chain.nodes[node].agent));
  }

  lemma MarkedKeeps(hash: Hasher, w: World, node: string)
    requires LedgerInv(hash, w) && node in w.chain.nodes
    ensures LedgerInv(hash, Marked(w, node)) && Marked(w, node).chain.chainId == w.chain.chainId
    ensures SameGrants(w, Marked(w, node))
  {
    hide EntriesOk, LogOk, DefinitionsTied, KillsTied;
    MarkedLinks(w.chain, node);
    hide LinksInv;
    MarkedAuthorities(w.chain, node);
    hide Attenuated, AllBuiltin;
    ChainGrows(hash, w, Marked(w, node).chain);
  }

  lemma MarkedAuthorities(c: ChainState, node: string)
    requires Attenuated(c.nodes) && AllBuiltin(c.nodes) && node in c.nodes
    ensures var nodes := c.nodes[node := c.nodes[node].(complete := true)]; Attenuated(nodes) && AllBuiltin(nodes)
  {
    hide Valid, IsNarrower, IsBuiltinAuthority;
  }

  lemma DoneFits(w: World, node: string, agent: string)
    ensures Fits(w, EventDone, DoneFields(w.chain.chainId, node, agent))
  {
    hide SpawnFits, AllowFits, KillFits;
    assert DoneFields(w.chain.chainId, node, agent).Keys == {FChainId, FNode, FAgent};
  }

  lemma OutcomeKeeps(hash: Hasher, w: World, op: Op)
    requires LedgerInv(hash, w) && Legal(w, op) && op.RecordOutcome?
    ensures LedgerInv(hash, Step(hash, w, op))
    ensures SameGrants(w, Step(hash, w, op))
  {
    hide LedgerInv, OutcomeFields, Fits, Append, Resolve, DefinedBefore;
    if ReportAccepted(w, op.report) {
      var fields := OutcomeFields(w.chain.chainId, op.node, op.report);
      OutcomeFits(w, op.node, op.report);
      hide ReportAccepted, HoldsGuard;
      AppendKeeps(hash, w, EventOutcome, fields);
      var w1 := Append(hash, w, EventOutcome, fields).0;
      SideTablesKeep(hash, w1, w1.chain.(outcomed := w1.chain.outcomed + {op.report.callId}, pending := Resolve(w1.chain.pending, op.report.callId)));
    }
  }

  const OUTCOME_FIELDS: set<Field> :=
    {FChainId, FNode, FCallId, FBodyState, FDurationMs, FErrorCode, FInvokedParamsHash, FParamsHashReason, FReceipt}

  lemma OutcomeFieldsAre(chainId: string, node: string, r: OutcomeReport)
    ensures var fields := OutcomeFields(chainId, node, r);
            && fields.Keys <= OUTCOME_FIELDS
            && Get(fields, FChainId) == Some(JStr(chainId)) && Get(fields, FNode) == Some(JStr(node))
    ensures OUTCOME_FIELDS !! FRAMING && FPolicy !in OUTCOME_FIELDS && forall f :: f in OUTCOME_FIELDS ==> !f.FOther?
  {
    assert CommitmentFields(r.params, FInvokedParamsHash).Keys <= {FInvokedParamsHash, FParamsHashReason};
    hide CommitmentFields, ReceiptToJson;
  }

  lemma OutcomeFits(w: World, node: string, r: OutcomeReport)
    requires w.cfg.version == 2
    ensures Fits(w, EventOutcome, OutcomeFields(w.chain.chainId, node, r))
  {
    OutcomeFieldsAre(w.chain.chainId, node, r);
    hide OutcomeFields, OUTCOME_FIELDS, FRAMING, Fits;
    PlainFits(w, EventOutcome, OutcomeFields(w.chain.chainId, node, r), OUTCOME_FIELDS);
  }

  /** Every legal call keeps the tie between the chain and its ledger. */
  lemma StepKeeps(hash: Hasher, w: World, op: Op)
    requires LedgerInv(hash, w) && Legal(w, op)
    ensures LedgerInv(hash, Step(hash, w, op)) && (!op.Delegate? ==> SameGrants(w, Step(hash, w, op)))
  {
    match op
    case Delegate(_, _, _, _, _, _) => DelegateKeeps(hash, w, op);
    case Check(_, _, _, _, _) => CheckKeeps(hash, w, op);
    case RecordDenial(node, reason, scope, tool, ctx, disposition, callId, persists) =>
      RecordDenialKeeps(hash, w, node, reason, scope, tool, ctx, disposition, callId, persists);
    case RecordPassthrough(_, _, _, _, _, _, _) => PassthroughKeeps(hash, w, op);
    case Complete(node, persists) => CompleteKeeps(hash, w, node, persists);
    case RecordOutcome(_, _, _) => OutcomeKeeps(hash, w, op);
    case Revoke(_, _, _, _) => RevokeKeeps(hash, w, op);
    case RevokeAgent(_, _, _, _) => RevokeAgentKeeps(hash, w, op);
  }

  // ---- the first entry ----------------------------------------------------

  /** A chain a program can issue: an authority of built-in ceilings, under either schema version. */
  ghost predicate LegalSetup(s: Setup) {
    Valid(s.authority) && IsBuiltinAuthority(s.authority) && (s.cfg.version == 1 || s.cfg.version == 2)
  }

  lemma FreshIsOk(s: Setup)
    requires LegalSetup(s)
    ensures ChainOk(Fresh(s).chain)
  {
    hide Valid, IsBuiltinAuthority, IsNarrower;
    var c := Fresh(s).chain;
    var root := NodeId(s.chainId, 0);
    forall id | id in c.nodes ensures NodeOk(c, id) && Numbered(c, id) {}
  }

  const ROOT_FIELDS: set<Field> := {FChainId, FNode, FAgent, FAuthority, FParamsSalt}

  lemma RootFieldsAre(chainId: string, node: string, agent: string, authority: Authority, cfg: Config)
    ensures var fields := RootFields(chainId, node, agent, authority, cfg);
            && fields.Keys <= ROOT_FIELDS && (cfg.version != 2 ==> FParamsSalt !in fields)
            && Get(fields, FChainId) == Some(JStr(chainId)) && Get(fields, FNode) == Some(JStr(node))
            && Get(fields, FAuthority) == Some(AuthorityToWire(authority))
    ensures ROOT_FIELDS !! FRAMING && (ROOT_FIELDS - {FParamsSalt}) !! V2_ONLY && FPolicy !in ROOT_FIELDS
    ensures forall f :: f in ROOT_FIELDS ==> !f.FOther?
  {
    hide AuthorityToWire;
  }

  lemma RootCarries(w: World, fields: Entry, e: Entry, s: Setup)
    requires LegalSetup(s) && fields == RootFields(s.chainId, NodeId(s.chainId, 0), s.agent, s.authority, s.cfg)
    requires Carries(w, EventRoot, fields, e)
    ensures TextOf(e, FNode) == Some(NodeId(s.chainId, 0)) && AuthorityIn(e, 0) == Some(RereadAuthority(s.authority, 0))
  {
    hide RootFields, Valid, IsBuiltinAuthority, RereadAuthority, NodeId, ROOT_FIELDS, IsFraming, EventOf, AuthorityToWire, ReadAuthority, Version;
    RootFieldsAre(s.chainId, NodeId(s.chainId, 0), s.agent, s.authority, s.cfg);
    AuthorityRoundTrip(s.authority, 0);
    assert Get(e, FAuthority) == Get(fields, FAuthority) && Get(e, FNode) == Get(fields, FNode);
  }

  lemma RootMembers(w: World, fields: Entry, e: Entry, s: Setup)
    requires w == Fresh(s) && LegalSetup(s) && fields == RootFields(s.chainId, NodeId(s.chainId, 0), s.agent, s.authority, s.cfg)
    requires Carries(w, EventRoot, fields, e)
    ensures EventFindings(Version(w), e) == [] && NodeFindings(e) == [] && PolicyFindings(Version(w), e) == []
    ensures Get(e, FV) == Version(w) && Get(e, FChainId) == Some(JStr(w.chain.chainId)) && IsRoot(e)
    ensures w.cfg.version == 1 ==> LeakFindings(e) == []
  {
    RootFieldsAre(s.chainId, NodeId(s.chainId, 0), s.agent, s.authority, s.cfg);
    if s.cfg.version == 1 {
      SubsetDisjoint(fields.Keys, ROOT_FIELDS - {FParamsSalt}, V2_ONLY);
      NoLeak(w, EventRoot, fields, e);
    }
    hide RootFields, Valid, IsBuiltinAuthority, NodeId, ROOT_FIELDS, IsFraming, Carries, LeakFindings, V2_ONLY, FRAMING;
    assert forall f :: f in fields ==> f in ROOT_FIELDS;
    MembersAreClean(w, EventRoot, fields, e);
  }

  lemma RootIsClean(w: World, fields: Entry, e: Entry, s: Setup)
    requires w == Fresh(s) && LegalSetup(s) && fields == RootFields(s.chainId, NodeId(s.chainId, 0), s.agent, s.authority, s.cfg)
    requires Carries(w, EventRoot, fields, e)
    ensures EntryOk(w.(entries := [e]), 0) && DefinitionsTied(w.chain, [e]) && KillsTied(w.chain, [e]) && MonotonicityFindings([e], 0) == []
  {
    var id := NodeId(s.chainId, 0);
    RootCarries(w, fields, e, s);
    RootMembers(w, fields, e, s);
    RootDefines(e, id);
    hide Valid, IsBuiltinAuthority, RootFields, LeakFindings, EventFindings, NodeFindings, PolicyFindings, RereadAuthority, NodeId, AuthorityIn, Carries, DefinedBefore, KilledBefore, FirstDefinition;
    assert DefinitionFindings([e], 0) == [] && MonotonicityFindings([e], 0) == [] && ContainmentFindings([e], 0) == [];
  }

  lemma RootDefines(e: Entry, id: string)
    requires EventOf(e) == Some(EventRoot) && TextOf(e, FNode) == Some(id)
    ensures forall x :: DefinedBefore([e], 1, x) <==> x == id
    ensures forall x :: !DefinedBefore([e], 0, x) && !KilledBefore([e], 1, x)
    ensures FirstDefinition([e], 1, id) == Some(0)
  {
    assert Defines([e][0], id);
    hide EventOf, TextOf;
  }

  lemma IssueKeeps(hash: Hasher, s: Setup)
    requires LegalSetup(s) && IssueStep(hash, s).Some?
    ensures LedgerInv(hash, IssueStep(hash, s).value) && Attenuates(IssueStep(hash, s).value.entries)
  {
    var w := Fresh(s);
    var fields := RootFields(s.chainId, NodeId(s.chainId, 0), s.agent, s.authority, s.cfg);
    FreshIsOk(s);
    RootFieldsAre(s.chainId, NodeId(s.chainId, 0), s.agent, s.authority, s.cfg);
    SubsetDisjoint(fields.Keys, ROOT_FIELDS, FRAMING);
    assert Verifies(hash, []) && IsHead([], GENESIS);
    assert w.entries == [] && w.prev == GENESIS && w.cfg == s.cfg;
    hide Verifies, IsHead, ChainOk, EntryOk, DefinitionsTied, KillsTied, Carries, RootFields, Append, FRAMING, ROOT_FIELDS, Fresh, NodeId, GENESIS, MonotonicityFindings;
    var c := Appended(hash, w, EventRoot, fields);
    var e := c.value;
    assert w.entries + [e] == [e];
    RootIsClean(w, fields, e, s);
    hide LedgerInv, Attenuates;
    FirstInv(hash, w, e);
    FirstGrants(e);
  }

  /** `issue` hands out the guard of the root. */
  lemma IssueHoldsRoot(hash: Hasher, s: Setup)
    requires LegalSetup(s) && IssueStep(hash, s).Some?
    ensures HoldsGuard(IssueStep(hash, s).value, NodeId(s.chainId, 0))
  {
    var w := Fresh(s);
    var fields := RootFields(s.chainId, NodeId(s.chainId, 0), s.agent, s.authority, s.cfg);
    RootFieldsAre(s.chainId, NodeId(s.chainId, 0), s.agent, s.authority, s.cfg);
    SubsetDisjoint(fields.Keys, ROOT_FIELDS, FRAMING);
    assert NodeId(s.chainId, 0) in w.chain.nodes;
    hide LegalSetup, Verifies, IsHead, RootFields, Append, FRAMING, ROOT_FIELDS, NodeId, GENESIS, DefinedBefore, TextOf, EventOf;
    var c := Appended(hash, w, EventRoot, fields);
    RootCarries(w, fields, c.value, s);
    RootDefines(c.value, NodeId(s.chainId, 0));
    assert w.entries + [c.value] == [c.value];
  }

  lemma FirstGrants(e: Entry)
    requires MonotonicityFindings([e], 0) == []
    ensures Attenuates([e])
  {
    hide MonotonicityFindings;
  }

  lemma FirstInv(hash: Hasher, w: World, e: Entry)
    requires (w.cfg.version == 1 || w.cfg.version == 2) && ChainOk(w.chain)
    requires FHash in e && e[FHash].JStr? && Verifies(hash, [e]) && IsHead([e], e[FHash].text)
    requires EntryOk(w.(entries := [e]), 0) && DefinitionsTied(w.chain, [e]) && KillsTied(w.chain, [e])
    ensures LedgerInv(hash, w.(entries := [e], prev := e[FHash].text, clock := w.clock + 1))
  {
    hide ChainOk, Verifies, IsHead, DefinitionsTied, KillsTied, EntryOk;
    SameEntryOk(w.(entries := [e]), w.(entries := [e], prev := e[FHash].text, clock := w.clock + 1), 0);
  }
}
