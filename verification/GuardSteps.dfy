/**
 * What each call on a guard does to the chain and the ledger (src/guard.ts), as functions of the state. The clock,
 * the random call ids and persistence failures are inputs; a chain runs under the default profile.
 */
module GuardSteps {
  import opened Results
  import opened PlainJson
  import opened Ceilings
  import opened Scopes
  import opened Authorities
  import opened AuthorityWire
  import opened Reasons
  import opened Chains
  import opened Audit
  import opened Ledger

  datatype StrikePolicy = StrikePolicy(enabled: bool, n: int, sameScope: bool)

  function StrikeKey(p: StrikePolicy, nodeId: string, scope: string): string {
    if p.sameScope then nodeId + " " + scope else nodeId + " *"
  }

  datatype Config = Config(version: int, strict: bool, strikes: Option<StrikePolicy>, salt: string)

  /** The shared state of one chain's guards. */
  datatype World = World(chain: ChainState, entries: seq<Entry>, prev: string, clock: int, cfg: Config)

  datatype Adapter = Adapter(name: string, version: string, hookPath: string)

  /** An argument commitment: not asked for, made, or outside the hashable domain. */
  datatype Commitment = Omitted | Hashed(digest: string) | Unsupported

  datatype CheckOptions = CheckOptions(
    context: Context, metered: bool, tool: Option<string>, disposition: Option<string>,
    params: Commitment, capture: Option<string>, adapter: Option<Adapter>, totals: Context)

  /** What the outside world supplies to one call. */
  datatype Environment = Environment(
    now: int, callId: Option<string>, persists: bool,
    fallbackId: Option<string>, fallbackPersists: bool, killPersists: bool)

  /** How a recording call ends: a decision, a decision carried by a persistence error, or a throw. */
  datatype Outcome = Returned(decision: Decision) | Unpersisted(decision: Decision) | Thrown

  function Denied(reason: Reason): Decision {
    Decision(false, [reason], None)
  }

  predicate IsV2(w: World) { w.cfg.version == 2 }

  // ---- the ledger ---------------------------------------------------------

  /** One tick of the sequence clock, and the entry if it can be hashed. */
  function Append(hash: Hasher, w: World, event: EventKind, fields: Entry): (World, bool) {
    match Committed(hash, w.cfg.version, w.entries, w.prev, EventText(event), w.clock + 1, fields)
    case Some(e) =>
      (w.(entries := w.entries + [e], prev := if e[FHash].JStr? then e[FHash].text else w.prev, clock := w.clock + 1), true)
    case None => (w.(clock := w.clock + 1), false)
  }

  function Strings(items: seq<string>): Json {
    JArr(Map(items, s => JStr(s)))
  }

  function OrJNull(s: Option<string>): Json {
    match s case Some(t) => JStr(t) case None => JNull
  }

  function RootFields(chainId: string, node: string, agent: string, authority: Authority, cfg: Config): Entry {
    map[FChainId := JStr(chainId), FNode := JStr(node), FAgent := JStr(agent), FAuthority := AuthorityToWire(authority)]
    + if cfg.version == 2 then map[FParamsSalt := JStr(cfg.salt)] else map[]
  }

  function SpawnFields(chainId: string, parent: string, node: string, agent: string, task: string, requested: Authority, granted: Authority): Entry {
    map[FChainId := JStr(chainId), FParent := JStr(parent), FNode := JStr(node), FAgent := JStr(agent), FTask := JStr(task),
        FRequested := AuthorityToWire(requested), FGranted := AuthorityToWire(granted)]
  }

  /** The structural values a refused delegation records. */
  function DetailOf(maxDepth: int, maxFanout: int, parent: string, agent: string, code: ReasonCode): Json {
    match code
    case AgentBanned => JObj([Member("agent", JStr(agent))])
    case MaxDepth => JObj([Member("max_depth", JNum(maxDepth))])
    case MaxFanout => JObj([Member("max_fanout", JNum(maxFanout))])
    case NotNarrower => JObj([])
    case _ => JObj([Member("parent", JStr(parent))])
  }

  function SpawnDeniedFields(chainId: string, maxDepth: int, maxFanout: int, parent: string, agent: string, task: string, code: ReasonCode): Entry {
    map[FChainId := JStr(chainId), FParent := JStr(parent), FAgent := JStr(agent), FTask := JStr(task),
        FReason := JStr(CodeText(code)), FDetail := DetailOf(maxDepth, maxFanout, parent, agent, code)]
  }

  function ReasonToJson(r: Reason): Json {
    JObj([Member("code", JStr(CodeText(r.code))), Member("constraint", OrJNull(r.constraint))])
  }

  /** WHY a denied scope was absent: the caller's statement, or the library's own for a plain scope denial. */
  function DispositionFields(d: Decision, disposition: Option<string>): Entry {
    match disposition
    case Some(text) => map[FDisposition := JStr(text)]
    case None =>
      if d.reasons != [] && d.reasons[0].code == ScopeNotGranted then map[FDisposition := JStr("out_of_authority")] else map[]
  }

  function DecisionFields(chainId: string, node: string, d: Decision, scope: string, tool: Option<string>, ctx: Context, disposition: Option<string>): Entry {
    map[FChainId := JStr(chainId), FNode := JStr(node), FScope := JStr(scope), FTool := OrJNull(tool), FContext := JObj(ctx)]
    + if d.allowed then map[] else
        map[FReason := if d.reasons == [] then JNull else JStr(CodeText(d.reasons[0].code)),
            FReasons := JArr(Map(d.reasons, r => ReasonToJson(r)))]
        + DispositionFields(d, disposition)
  }

  function AdapterToJson(a: Adapter): Json {
    JObj([Member("module", JStr(a.name)), Member("version", JStr(a.version)), Member("hook_path", JStr(a.hookPath))])
  }

  function CommitmentFields(c: Commitment, field: Field): Entry {
    match c
    case Omitted => map[]
    case Hashed(d) => map[field := JStr(d)]
    case Unsupported => map[FParamsHashReason := JStr("unsupported")]
  }

  function CaptureFields(callId: string, capture: string, adapter: Adapter): Entry {
    map[FCallId := JStr(callId), FCapture := JStr(capture), FAdapter := AdapterToJson(adapter)]
  }

  const LIBRARY_VERSION := "0.16.0"

  function OwnAdapter(hookPath: string): Adapter {
    Adapter("attenu-guard", LIBRARY_VERSION, hookPath)
  }

  function EventOfDecision(d: Decision): EventKind {
    if d.allowed then EventAllow else EventDeny
  }

  // ---- evaluation ---------------------------------------------------------

  /** The ceilings the guard's own per-node call meter feeds. */
  predicate IsCallBound(c: Ceiling) {
    c.CallLimit? || (c.MaxLifetime? && "max_calls" <= c.dimension)
  }

  function CallLimits(a: Authority): seq<Ceiling> {
    Filter(a.ceilings, c => IsCallBound(c))
  }

  datatype Metering = Metering(ctx: Context, filled: seq<Ceiling>)

  /** Fill in the running count for every call limit the caller left undeclared; an explicit count wins. */
  function AutoMeter(calls: map<string, nat>, node: string, limits: seq<Ceiling>, scope: string, ctx: Context): Metering {
    if limits == [] then Metering(ctx, [])
    else
      var c := limits[0];
      var applies := AppliesToScope(c, scope);
      if Declared(ctx, CtxField(c)).Some? then AutoMeter(calls, node, limits[1..], scope, ctx)
      else
        var count := Count(calls, MeterKeyFor(node, MeterKey(c))) + if applies then 1 else 0;
        var rest := AutoMeter(calls, node, limits[1..], scope, With(ctx, CtxField(c), JNum(count)));
        if applies then rest.(filled := [c] + rest.filled) else rest
  }

  function CountAll(calls: map<string, nat>, node: string, filled: seq<Ceiling>): map<string, nat>
    decreases |filled|
  {
    if filled == [] then calls
    else
      var k := MeterKeyFor(node, MeterKey(filled[0]));
      CountAll(calls[k := Count(calls, k) + 1], node, filled[1..])
  }

  function UncountAll(calls: map<string, nat>, node: string, filled: seq<Ceiling>): map<string, nat>
    decreases |filled|
  {
    if filled == [] then calls
    else
      var k := MeterKeyFor(node, MeterKey(filled[0]));
      UncountAll(calls[k := AtLeastZero(Count(calls, k) - 1)], node, filled[1..])
  }

  /** The metered ceilings whose quantity the request does not declare. */
  function Undeclared(a: Authority, ctx: Context): seq<Ceiling> {
    Filter(a.ceilings, c => IsMetered(c) && Declared(ctx, NamedField(c)).None?)
  }

  /** Node state first, then strict metering, then scope and ceilings; `None` is the TypeError for totals. */
  function Evaluate(w: World, node: string, scope: string, ctx: Context, metered: bool, totals: Context, now: int): Option<Decision>
    requires node in w.chain.nodes
  {
    var n := w.chain.nodes[node];
    if node in w.chain.revoked then Some(Denied(Reason(Revoked, None)))
    else if IsExpired(n, now) then Some(Denied(Reason(Expired, None)))
    else if !TotalsAccepted(n.authority, totals) then None
    else if w.cfg.strict && metered && Undeclared(n.authority, ctx) != [] then
      Some(Denied(Reason(Unmetered, Some(KeyOf(Undeclared(n.authority, ctx)[0])))))
    else Judge(n.authority, scope, ctx, totals)
  }

  /** What `check` throws on before anything reaches the ledger. */
  predicate OptionsAccepted(w: World, o: CheckOptions) {
    && (o.disposition.Some? ==> o.disposition.value in DISPOSITIONS)
    && (!IsV2(w) ==> o.params.Omitted? && o.capture.None? && o.adapter.None?)
    && (o.capture.Some? ==> o.capture.value in CAPTURES && o.adapter.Some?)
  }

  datatype Authorized = Authorized(decision: Decision, metering: Metering)

  /** Steps 1 and 2 of the transition: refuse a finalized node, else evaluate. */
  function Authorize(w: World, node: string, scope: string, o: CheckOptions, now: int): Option<Authorized>
    requires node in w.chain.nodes
  {
    if IsV2(w) && w.chain.nodes[node].complete then
      Some(Authorized(Denied(Reason(NodeFinalized, None)), Metering(o.context, [])))
    else
      var m := AutoMeter(w.chain.calls, node, CallLimits(w.chain.nodes[node].authority), scope, o.context);
      match Evaluate(w, node, scope, m.ctx, o.metered, o.totals, now)
      case None => None
      case Some(d) => Some(Authorized(d, m))
  }

  /** The members a schema version 2 allow or deny carries beyond version 1's. */
  function CallFields(w: World, d: Decision, o: CheckOptions, callId: Option<string>): Entry {
    match callId
    case None => map[]
    case Some(id) =>
      if !d.allowed then map[FCallId := JStr(id)]
      else
        (match (o.capture, o.adapter)
         case (Some(capture), Some(adapter)) => CaptureFields(id, capture, adapter)
         case _ => CaptureFields(id, PRE_HOOK_ONLY, OwnAdapter("Guard.check")))
        + CommitmentFields(o.params, FAuthorizedParamsHash)
  }

  function CaptureUsed(o: CheckOptions): string {
    match o.capture case Some(c) => c case None => PRE_HOOK_ONLY
  }

  // ---- the steps ----------------------------------------------------------

  /** What `Guard.issue` is given. */
  datatype Setup = Setup(
    chainId: string, maxDepth: int, maxFanout: int, agent: string, authority: Authority, task: string, now: int, cfg: Config)

  /** A new chain holding its root, and an empty ledger. */
  function Fresh(s: Setup): World {
    var root := NodeId(s.chainId, 0);
    World(ChainState(s.chainId, s.maxDepth, s.maxFanout, map[root := Node(None, s.agent, s.authority, s.task, 0, s.now, false, [])],
                     1, {}, {}, map[], map[], [], {}),
          [], GENESIS, 0, s.cfg)
  }

  /** `Guard.issue`: the root entry committed, or the throw of a root no ledger can hold. */
  function IssueStep(hash: Hasher, s: Setup): Option<World> {
    var root := NodeId(s.chainId, 0);
    var (w, committed) := Append(hash, Fresh(s), EventRoot, RootFields(s.chainId, root, s.agent, s.authority, s.cfg));
    if committed then Some(w) else None
  }

  function WithCalls(w: World, calls: map<string, nat>): World { w.(chain := w.chain.(calls := calls)) }

  /** The call id a version 2 chain allocates; a version 1 chain has none. */
  function IdFor(w: World, callId: Option<string>): Option<string> {
    if IsV2(w) then callId else None
  }

  predicate IdAvailable(w: World, callId: Option<string>) { IsV2(w) ==> callId.Some? }

  /** `check`: refuse malformed options, authorize, and enforce the transition. */
  function CheckStep(hash: Hasher, w: World, node: string, scope: string, o: CheckOptions, env: Environment, cascade: seq<string>): (World, Outcome)
    requires node in w.chain.nodes
  {
    if !OptionsAccepted(w, o) then (w, Thrown)
    else
      match Authorize(w, node, scope, o, env.now)
      case None => (w, Thrown)
      case Some(a) => AuthorizedStep(hash, w, node, scope, o, a, env, cascade)
  }

  /** The meters once an allow is counted. */
  function Counted(w: World, node: string, a: Authorized): map<string, nat> {
    if a.decision.allowed then CountAll(w.chain.calls, node, a.metering.filled) else w.chain.calls
  }

  /** The meters once that count is taken back. */
  function Restored(w: World, node: string, a: Authorized): map<string, nat> {
    if a.decision.allowed then UncountAll(Counted(w, node, a), node, a.metering.filled) else w.chain.calls
  }

  /** Steps 2 and 3: count, then allocate a call id; without one the count is taken back and nothing is written. */
  function AuthorizedStep(hash: Hasher, w: World, node: string, scope: string, o: CheckOptions, a: Authorized, env: Environment, cascade: seq<string>): (World, Outcome) {
    if !IdAvailable(w, env.callId) then (WithCalls(w, Restored(w, node, a)), Returned(Denied(Reason(CallIdUnavailable, None))))
    else CommitStep(hash, WithCalls(w, Counted(w, node, a)), Restored(w, node, a), node, scope, o, a, env, cascade)
  }

  function CheckFields(w: World, node: string, scope: string, o: CheckOptions, ctx: Context, d: Decision): Entry {
    DecisionFields(w.chain.chainId, node, d, scope, o.tool, ctx, o.disposition) + CallFields(w, d, o, d.callId)
  }

  /** Step 4: append; a failure before the commit point takes the count back. */
  function CommitStep(hash: Hasher, w: World, restored: map<string, nat>, node: string, scope: string, o: CheckOptions, a: Authorized, env: Environment, cascade: seq<string>): (World, Outcome) {
    var d := a.decision.(callId := IdFor(w, env.callId));
    var (w1, committed) := Append(hash, w, EventOfDecision(d), CheckFields(w, node, scope, o, a.metering.ctx, d));
    if committed then CommittedStep(hash, w1, node, scope, o, d, env, cascade)
    else UncommittedStep(hash, WithCalls(w1, restored), node, scope, o, a.metering.ctx, env)
  }

  /** A context the ledger cannot hold is recorded as a denial without it; anything else throws. */
  function UncommittedStep(hash: Hasher, w: World, node: string, scope: string, o: CheckOptions, ctx: Context, env: Environment): (World, Outcome) {
    if Canonicalizable(JObj(ctx)) then (w, Thrown)
    else
      RecordDenialStep(hash, w, node, Reason(NoAuthority, Some("context")), scope, o.tool, [],
                       Some("unresolved"), env.fallbackId, env.fallbackPersists)
  }

  /** Step 5: an allowed call that promises an observation is pending. */
  function Registered(w: World, node: string, o: CheckOptions, d: Decision): World {
    if d.callId.Some? && d.allowed && CaptureUsed(o) in TERMINAL_CAPTURES
    then w.(chain := w.chain.(pending := Register(w.chain.pending, node, d.callId.value))) else w
  }

  /** Steps 5 and 6: register the pending call, then the strike policy, unless persistence failed. */
  function CommittedStep(hash: Hasher, w: World, node: string, scope: string, o: CheckOptions, d: Decision, env: Environment, cascade: seq<string>): (World, Outcome) {
    if env.persists then StrikeStep(hash, Registered(w, node, o, d), node, scope, d, env.killPersists, cascade)
    else (Registered(w, node, o, d), Unpersisted(d))
  }

  predicate CountsStrike(w: World, node: string, d: Decision) {
    !d.allowed && w.cfg.strikes.Some? && w.cfg.strikes.value.enabled && node !in w.chain.revoked
  }

  function StrikeStep(hash: Hasher, w: World, node: string, scope: string, d: Decision, killPersists: bool, cascade: seq<string>): (World, Outcome) {
    if !CountsStrike(w, node, d) then (w, Returned(d))
    else
      var p := w.cfg.strikes.value;
      var key := StrikeKey(p, node, scope);
      var n := Count(w.chain.strikes, key) + 1;
      var w1 := w.(chain := w.chain.(strikes := w.chain.strikes[key := n]));
      if n < p.n then (w1, Returned(d))
      else
        var w2 := w1.(chain := w1.chain.(revoked := w1.chain.revoked + Subtree(w1.chain, node)));
        var fields := KillFields(w2, node, cascade)
          + map[FReason := JStr("strike_policy"), FScope := JStr(scope), FStrikes := JNum(n), FMode := JStr(if p.sameScope then "same_scope" else "total")];
        var (w3, committed) := Append(hash, w2, EventKill, fields);
        (w3, if !committed then Thrown else if killPersists then Returned(d) else Unpersisted(d))
  }

  /** The calls still open on the nodes a kill revoked. */
  function PendingAtKill(pending: seq<PendingSet>, nodes: seq<string>): (r: seq<string>)
    ensures forall c :: c in r ==> exists n :: n in nodes && c in PendingFor(pending, n)
  {
    if nodes == [] then []
    else
      assert nodes[0] in nodes && forall n :: n in nodes[1..] ==> n in nodes;
      PendingFor(pending, nodes[0]) + PendingAtKill(pending, nodes[1..])
  }

  function KillFields(w: World, target: string, revoked: seq<string>): Entry {
    map[FChainId := JStr(w.chain.chainId), FTarget := JStr(target), FRevoked := Strings(revoked)]
    + if IsV2(w) then map[FPendingAtKill := Strings(Dedup(PendingAtKill(w.chain.pending, revoked)))] else map[]
  }

  function RecordDenialStep(hash: Hasher, w: World, node: string, reason: Reason, scope: string, tool: Option<string>, ctx: Context, disposition: Option<string>, callId: Option<string>, persists: bool): (World, Outcome) {
    if disposition.Some? && disposition.value !in DISPOSITIONS then (w, Thrown)
    else if !IdAvailable(w, callId) then (w, Returned(Denied(reason)))
    else
      var d := Denied(reason).(callId := IdFor(w, callId));
      var extra := match d.callId case Some(id) => map[FCallId := JStr(id)] case None => map[];
      var (w1, committed) := Append(hash, w, EventDeny, DecisionFields(w.chain.chainId, node, d, scope, tool, ctx, disposition) + extra);
      (w1, if !committed then Thrown else if persists then Returned(d) else Unpersisted(d))
  }

  function PassthroughFields(w: World, node: string, tool: string, scope: string, ctx: Context, policy: string, d: Decision): Entry {
    DecisionFields(w.chain.chainId, node, d, scope, Some(tool), ctx, None) + map[FPolicy := JStr(policy)]
    + match d.callId case Some(id) => CaptureFields(id, PRE_HOOK_ONLY, OwnAdapter("Guard.recordPassthrough")) case None => map[]
  }

  function RecordPassthroughStep(hash: Hasher, w: World, node: string, tool: string, scope: string, ctx: Context, policy: string, callId: Option<string>, persists: bool): (World, Outcome) {
    if policy != UNLISTED then (w, Thrown)
    else if !IdAvailable(w, callId) then (w, Returned(Denied(Reason(CallIdUnavailable, None))))
    else
      var d := Decision(true, [], IdFor(w, callId));
      var (w1, committed) := Append(hash, w, EventAllow, PassthroughFields(w, node, tool, scope, ctx, policy, d));
      (w1, if !committed then Thrown else if persists then Returned(d) else Unpersisted(d))
  }

  datatype DelegateOutcome = Delegated(node: string) | DelegateRefused(code: ReasonCode) | DelegateThrown

  function DelegateStep(hash: Hasher, w: World, node: string, agent: string, request: Authority, task: string, now: int, persists: bool): (World, DelegateOutcome) {
    match AddChild(w.chain, node, agent, request, task, now)
    case Err(code) =>
      var (w1, committed) := Append(hash, w, EventSpawnDenied, SpawnDeniedFields(w.chain.chainId, w.chain.maxDepth, w.chain.maxFanout, node, agent, task, code));
      (w1, if committed && persists then DelegateRefused(code) else DelegateThrown)
    case Ok(chain) =>
      var id := NodeId(w.chain.chainId, w.chain.nextId);
      if id !in chain.nodes then (w, DelegateThrown)
      else
        var (w1, committed) := Append(hash, w.(chain := chain), EventSpawn,
          SpawnFields(w.chain.chainId, node, id, agent, task, request, chain.nodes[id].authority));
        (w1, if committed && persists then Delegated(id) else DelegateThrown)
  }

  function DoneFields(chainId: string, node: string, agent: string): Entry {
    map[FChainId := JStr(chainId), FNode := JStr(node), FAgent := JStr(agent)]
  }

  function Marked(w: World, node: string): World
    requires node in w.chain.nodes
  {
    w.(chain := w.chain.(nodes := w.chain.nodes[node := w.chain.nodes[node].(complete := true)]))
  }

  datatype CompletionResult = Completed | AlreadyComplete | StillPending(callIds: seq<string>) | CompleteThrown

  function CompleteStep(hash: Hasher, w: World, node: string, persists: bool): (World, CompletionResult)
    requires node in w.chain.nodes
  {
    var n := w.chain.nodes[node];
    var open := if IsV2(w) then PendingFor(w.chain.pending, node) else [];
    if n.complete then (w, AlreadyComplete)
    else if open != [] then (w, StillPending(open))
    else
      var (w2, committed) := Append(hash, Marked(w, node), EventDone, DoneFields(w.chain.chainId, node, n.agent));
      (w2, if committed && persists then Completed else CompleteThrown)
  }

  datatype Receipt = Receipt(kind: string, ref: string, digest: string)

  datatype OutcomeReport = OutcomeReport(
    callId: string, bodyState: string, errorCode: Option<string>, params: Commitment, durationMs: int, receipt: Option<Receipt>)

  /** What `recordOutcome` validates before it looks at the chain. */
  predicate ReportAccepted(w: World, r: OutcomeReport) {
    && IsV2(w) && r.bodyState in BODY_STATES
    && (r.bodyState == BODY_RAISED ==> r.errorCode.Some? && r.errorCode.value != "")
    && (r.bodyState != BODY_RAISED ==> r.errorCode.None?)
    && r.durationMs >= 0
    && (r.receipt.Some? ==> r.receipt.value.kind != "" && r.receipt.value.ref != "" && IsHex(r.receipt.value.digest, 64))
  }

  function ReceiptToJson(r: Receipt): Json {
    JObj([Member("type", JStr(r.kind)), Member("ref", JStr(r.ref)), Member("digest", JStr(r.digest))])
  }

  function OutcomeFields(chainId: string, node: string, r: OutcomeReport): Entry {
    map[FChainId := JStr(chainId), FNode := JStr(node), FCallId := JStr(r.callId), FBodyState := JStr(r.bodyState), FDurationMs := JNum(r.durationMs)]
    + (match r.errorCode case Some(code) => map[FErrorCode := JStr(code)] case None => map[])
    + CommitmentFields(r.params, FInvokedParamsHash)
    + (match r.receipt case Some(x) => map[FReceipt := ReceiptToJson(x)] case None => map[])
  }

  /** Exactly one outcome per call id; the bookkeeping follows the commit. */
  function RecordOutcomeStep(hash: Hasher, w: World, node: string, r: OutcomeReport, persists: bool): (World, bool) {
    if !ReportAccepted(w, r) || r.callId in w.chain.outcomed then (w, false)
    else
      var (w1, committed) := Append(hash, w, EventOutcome, OutcomeFields(w.chain.chainId, node, r));
      if !committed then (w1, false)
      else
        (w1.(chain := w1.chain.(outcomed := w1.chain.outcomed + {r.callId}, pending := Resolve(w1.chain.pending, r.callId))), persists)
  }

  /** Revoke, then record the kill; false is the throw of a kill that was not committed or not persisted. */
  function RevokeStep(hash: Hasher, w: World, target: string, cascade: seq<string>, persists: bool): (World, bool) {
    var w1 := w.(chain := w.chain.(revoked := w.chain.revoked + Subtree(w.chain, target)));
    var (w2, committed) := Append(hash, w1, EventKill, KillFields(w1, target, cascade));
    (w2, committed && persists)
  }

  function RevokeAgentStep(hash: Hasher, w: World, node: string, agent: string, cascade: seq<string>, persists: bool): (World, bool) {
    var w1 := w.(chain := w.chain.(revoked := w.chain.revoked + AgentSubtrees(w.chain, agent), banned := w.chain.banned + {agent}));
    var (w2, committed) := Append(hash, w1, EventKill, KillFields(w1, node, cascade) + map[FAgent := JStr(agent)]);
    (w2, committed && persists)
  }
}
