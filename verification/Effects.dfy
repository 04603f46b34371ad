/** What each call on a guard leaves behind: the entry it writes, member by member, and what becomes of the chain. */
module Effects {
  import opened Results
  import opened PlainJson
  import opened Scopes
  import opened Ceilings
  import opened Authorities
  import opened AuthorityWire
  import opened Meets
  import opened Reasons
  import opened Numerals
  import opened Chains
  import opened Audit
  import opened Ledger
  import opened GuardSteps
  import opened Honest
  import opened HonestCalls
  import opened Runs
  import opened RunCalls
  import opened Bounds
  import opened EntryVerdicts
  import opened Decisions

  // ---- one entry more -----------------------------------------------------

  /** The ledger gains one entry of this event and these members, numbered, stamped, linked and hashed; the chain is as it was. */
  predicate Writes(hash: Hasher, w: World, w': World, event: string, fields: Entry) {
    && |w'.entries| == |w.entries| + 1 && w'.entries[..|w.entries|] == w.entries
    && (var unhashed :=
          map[FV := JNum(w.cfg.version), FC14n := JStr("JCS"), FSeq := JNum(|w.entries|), FTs := JNum(w.clock + 1), FEvent := JStr(event)]
          + fields + map[FPrevHash := JStr(w.prev)];
        hash(w.prev, unhashed) == Some(w'.prev) && w'.entries[|w.entries|] == unhashed[FHash := JStr(w'.prev)])
    && w'.clock == w.clock + 1 && w'.chain == w.chain && w'.cfg == w.cfg
  }

  /** Nothing was written: the clock ticked. */
  predicate Ticks(w: World, w': World) { w' == w.(clock := w.clock + 1) }

  lemma AppendIff(hash: Hasher, w: World, event: EventKind, fields: Entry)
    ensures var (w', committed) := Append(hash, w, event, fields);
            if committed then Writes(hash, w, w', EventText(event), fields) else Ticks(w, w')
  {
  }

  // ---- a check ------------------------------------------------------------

  function TextOrNull(s: Option<string>): Json {
    match s case Some(t) => JStr(t) case None => JNull
  }

  function ReasonJson(r: Reason): Json {
    JObj([Member("code", JStr(CodeText(r.code))), Member("constraint", TextOrNull(r.constraint))])
  }

  /** Why the scope was absent: what the caller says, and else "out_of_authority" where no held scope covers it. */
  function Disposition(reasons: seq<Reason>, stated: Option<string>): Entry {
    if stated.Some? then map[FDisposition := JStr(stated.value)]
    else if reasons != [] && reasons[0].code == ScopeNotGranted then map[FDisposition := JStr("out_of_authority")]
    else map[]
  }

  /** The members of an allow or a deny. */
  function DecisionMembers(w: World, node: string, d: Decision, scope: string, tool: Option<string>, request: Context, stated: Option<string>): Entry {
    var common := map[FChainId := JStr(w.chain.chainId), FNode := JStr(node), FScope := JStr(scope), FTool := TextOrNull(tool), FContext := JObj(request)];
    if d.allowed then common
    else
      common
      + map[FReason := if d.reasons == [] then JNull else JStr(CodeText(d.reasons[0].code)),
            FReasons := JArr(seq(|d.reasons|, i requires 0 <= i < |d.reasons| => ReasonJson(d.reasons[i])))]
      + Disposition(d.reasons, stated)
  }

  function AdapterJson(name: string, version: string, hookPath: string): Json {
    JObj([Member("module", JStr(name)), Member("version", JStr(version)), Member("hook_path", JStr(hookPath))])
  }

  /** The members a version 2 allow or deny carries of its call; the guard names itself where no adapter does. */
  function CallMembers(d: Decision, o: CheckOptions): Entry {
    if d.callId.None? then map[]
    else if !d.allowed then map[FCallId := JStr(d.callId.value)]
    else
      (if o.capture.Some? && o.adapter.Some? then
         map[FCallId := JStr(d.callId.value), FCapture := JStr(o.capture.value),
             FAdapter := AdapterJson(o.adapter.value.name, o.adapter.value.version, o.adapter.value.hookPath)]
       else
         map[FCallId := JStr(d.callId.value), FCapture := JStr("pre_hook_only"), FAdapter := AdapterJson("attenu-guard", "0.16.0", "Guard.check")])
      + match o.params
        case Omitted => map[]
        case Hashed(digest) => map[FAuthorizedParamsHash := JStr(digest)]
        case Unsupported => map[FParamsHashReason := JStr("unsupported")]
  }

  lemma DecisionMembersAre(w: World, node: string, d: Decision, scope: string, tool: Option<string>, request: Context, stated: Option<string>)
    ensures DecisionFields(w.chain.chainId, node, d, scope, tool, request, stated) == DecisionMembers(w, node, d, scope, tool, request, stated)
  {
    hide CodeText;
    assert Map(d.reasons, r => ReasonToJson(r)) == seq(|d.reasons|, i requires 0 <= i < |d.reasons| => ReasonJson(d.reasons[i]));
  }

  lemma CallMembersAre(w: World, d: Decision, o: CheckOptions)
    ensures CallFields(w, d, o, d.callId) == CallMembers(d, o)
  {
  }

  /** What a written check writes: its decision, on the request as metered, with the call it names. */
  lemma CheckWritesEntry(hash: Hasher, w: World, node: string, scope: string, o: CheckOptions, a: Authorized, env: Environment)
    requires Decided(hash, w, node, scope, o, a, env).1
    ensures var d := a.decision.(callId := if w.cfg.version == 2 then env.callId else None);
            Writes(hash, WithCalls(w, Counted(w, node, a)), Decided(hash, w, node, scope, o, a, env).0, if d.allowed then "allow" else "deny",
                   DecisionMembers(w, node, d, scope, o.tool, a.metering.ctx, o.disposition) + CallMembers(d, o))
  {
    hide DecisionFields, CallFields, CallMembers, DecisionMembers, Append, CountAll, Writes;
    var d := a.decision.(callId := IdFor(w, env.callId));
    var counted := WithCalls(w, Counted(w, node, a));
    DecisionMembersAre(w, node, d, scope, o.tool, a.metering.ctx, o.disposition);
    CallMembersAre(counted, d, o);
    AppendIff(hash, counted, EventOfDecision(d), CheckFields(counted, node, scope, o, a.metering.ctx, d));
  }

  /** A decision that cannot be written is a throw, unless it is the request that cannot: then a denial without it is recorded. */
  lemma UnwrittenCheck(hash: Hasher, w: World, node: string, scope: string, o: CheckOptions, env: Environment, cascade: seq<string>, a: Authorized)
    requires node in w.chain.nodes && AcceptsOptions(w, o) && Authorize(w, node, scope, o, env.now) == Some(a)
    requires (w.cfg.version == 2 ==> env.callId.Some?) && !Decided(hash, w, node, scope, o, a, env).1
    ensures var (w', out) := CheckStep(hash, w, node, scope, o, env, cascade);
            exists restored: map<string, nat> ::
              var kept := WithCalls(w, restored).(clock := w.clock + 1);
              if Canonicalizable(JObj(a.metering.ctx)) then w' == kept && out == Thrown
              else
                (w', out) == RecordDenialStep(hash, kept, node, Reason(NoAuthority, Some("context")), scope, o.tool, [],
                                              Some("unresolved"), env.fallbackId, env.fallbackPersists)
  {
    OptionsIff(w, o);
    CheckUnfolds(hash, w, node, scope, o, env, cascade);
    hide Authorize, OptionsAccepted, AcceptsOptions, Append, CheckFields, RecordDenialStep, CommittedStep, Canonicalizable, CheckStep;
    var counted := WithCalls(w, Counted(w, node, a));
    var d := a.decision.(callId := IdFor(w, env.callId));
    AppendIff(hash, counted, EventOfDecision(d), CheckFields(counted, node, scope, o, a.metering.ctx, d));
    var kept := WithCalls(w, Restored(w, node, a)).(clock := w.clock + 1);
    assert WithCalls(Decided(hash, w, node, scope, o, a, env).0, Restored(w, node, a)) == kept;
  }

  /** After a written allow whose capture promises an end, its call is pending on the node, and nothing else is. */
  lemma CheckRegisters(w: World, node: string, o: CheckOptions, d: Decision, n: string)
    ensures var w' := Registered(w, node, o, d);
            var promises := o.capture.Some? && o.capture.value in {"wrapper_sync", "wrapper_async", "framework_post_hook"};
            && PendingFor(w'.chain.pending, n) ==
                 (if n == node && d.callId.Some? && d.allowed && promises then AddTo(PendingFor(w.chain.pending, n), d.callId.value)
                  else PendingFor(w.chain.pending, n))
            && w' == w.(chain := w.chain.(pending := w'.chain.pending))
  {
    hide PendingFor, Register;
    if d.callId.Some? { RegisterAt(w.chain.pending, node, d.callId.value, n); }
    assert PRE_HOOK_ONLY !in TERMINAL_CAPTURES by { assert "pre_hook_only"[0] == 'p' && "wrapper_sync"[0] == 'w' && "wrapper_async"[0] == 'w' && "framework_post_hook"[0] == 'f'; }
  }

  // ---- strikes ------------------------------------------------------------

  /** A denial counts where the policy is on and the node is not revoked already. */
  predicate Strikes(w: World, node: string, d: Decision) {
    !d.allowed && w.cfg.strikes.Some? && w.cfg.strikes.value.enabled && node !in w.chain.revoked
  }

  /** The denials of a node are counted together, or per scope. */
  function StrikeName(w: World, node: string, scope: string): string
    requires w.cfg.strikes.Some?
  {
    if w.cfg.strikes.value.sameScope then node + " " + scope else node + " *"
  }

  lemma {:induction false} SameDescent(c: ChainState, c': ChainState, id: string, ancestor: string)
    requires c'.nodes == c.nodes
    ensures Descends(c, id, ancestor) <==> Descends(c', id, ancestor)
    decreases if id in c.nodes then c.nodes[id].depth else 0
  {
    if id in c.nodes && c.nodes[id].parent.Some? {
      var p := c.nodes[id].parent.value;
      if p in c.nodes && c.nodes[p].depth < c.nodes[id].depth { SameDescent(c, c', p, ancestor); }
    }
  }

  /** The chain once a strike is counted and the node and all below it are revoked. */
  function Struck(w: World, node: string, scope: string): World
    requires w.cfg.strikes.Some?
  {
    var key := StrikeName(w, node, scope);
    var c := w.chain.(strikes := w.chain.strikes[key := Count(w.chain.strikes, key) + 1]);
    w.(chain := c.(revoked := c.revoked + Subtree(c, node)))
  }

  function StrikeMembers(w: World, node: string, scope: string, revoked: seq<string>): Entry
    requires w.cfg.strikes.Some?
  {
    KillMembers(w, node, revoked)
    + map[FReason := JStr("strike_policy"), FScope := JStr(scope), FStrikes := JNum(Count(w.chain.strikes, StrikeName(w, node, scope)) + 1),
          FMode := JStr(if w.cfg.strikes.value.sameScope then "same_scope" else "total")]
  }

  lemma StrikeUnfolds(hash: Hasher, w: World, node: string, scope: string, d: Decision, killPersists: bool, cascade: seq<string>)
    requires Strikes(w, node, d) && Count(w.chain.strikes, StrikeName(w, node, scope)) + 1 >= w.cfg.strikes.value.n
    ensures var (w', committed) := Append(hash, Struck(w, node, scope), EventKill, StrikeMembers(w, node, scope, cascade));
            StrikeStep(hash, w, node, scope, d, killPersists, cascade) ==
              (w', if !committed then Thrown else if killPersists then Returned(d) else Unpersisted(d))
  {
    hide Append, KillFields, KillMembers, Subtree, Count;
    KillMembersAre(Struck(w, node, scope), node, cascade);
    SameKillMembers(w, Struck(w, node, scope), node, cascade);
  }

  /** The strike policy counts a denial once under its own key, and revokes the node and all below it exactly at its limit. */
  lemma StrikesIff(hash: Hasher, w: World, node: string, scope: string, d: Decision, killPersists: bool, cascade: seq<string>, k: string, id: string)
    ensures var w' := StrikeStep(hash, w, node, scope, d, killPersists, cascade).0;
            && (!Strikes(w, node, d) ==> w' == w)
            && (Strikes(w, node, d) ==>
                  var counted := Count(w.chain.strikes, StrikeName(w, node, scope)) + 1;
                  && Count(w'.chain.strikes, k) == (if k == StrikeName(w, node, scope) then counted else Count(w.chain.strikes, k))
                  && (id in w'.chain.revoked <==> id in w.chain.revoked || (counted >= w.cfg.strikes.value.n && Descends(w.chain, id, node)))
                  && w'.chain == w.chain.(strikes := w'.chain.strikes, revoked := w'.chain.revoked)
                  && (counted < w.cfg.strikes.value.n ==> w'.entries == w.entries))
  {
    hide Append, KillFields, KillMembers, StrikeMembers, Subtree;
    if Strikes(w, node, d) && Count(w.chain.strikes, StrikeName(w, node, scope)) + 1 >= w.cfg.strikes.value.n {
      StrikeUnfolds(hash, w, node, scope, d, killPersists, cascade);
      AppendSettled(hash, Struck(w, node, scope), EventKill, StrikeMembers(w, node, scope, cascade));
      StruckIff(w, node, scope, id);
    }
  }

  lemma StruckIff(w: World, node: string, scope: string, id: string)
    requires w.cfg.strikes.Some?
    ensures id in Struck(w, node, scope).chain.revoked <==> id in w.chain.revoked || Descends(w.chain, id, node)
  {
    hide Count, StrikeName;
    var key := StrikeName(w, node, scope);
    var c := w.chain.(strikes := w.chain.strikes[key := Count(w.chain.strikes, key) + 1]);
    SameDescent(w.chain, c, id, node);
    if Descends(c, id, node) { assert id in c.nodes; }
  }

  lemma SameKillMembers(w: World, v: World, node: string, revoked: seq<string>)
    requires v.cfg == w.cfg && v.chain.chainId == w.chain.chainId && v.chain.pending == w.chain.pending
    ensures KillMembers(v, node, revoked) == KillMembers(w, node, revoked)
  {
  }

  /** What a strike's kill writes; a kill that is not written is a throw. */
  lemma StrikeWritesKill(hash: Hasher, w: World, node: string, scope: string, d: Decision, killPersists: bool, cascade: seq<string>)
    requires Strikes(w, node, d) && Count(w.chain.strikes, StrikeName(w, node, scope)) + 1 >= w.cfg.strikes.value.n
    ensures var (w', out) := StrikeStep(hash, w, node, scope, d, killPersists, cascade);
            || (Writes(hash, Struck(w, node, scope), w', "kill", StrikeMembers(w, node, scope, cascade))
                && out == if killPersists then Returned(d) else Unpersisted(d))
            || (Ticks(Struck(w, node, scope), w') && out == Thrown)
  {
    hide Append, Struck, StrikeMembers, Writes, Ticks, StrikeStep;
    StrikeUnfolds(hash, w, node, scope, d, killPersists, cascade);
    AppendIff(hash, Struck(w, node, scope), EventKill, StrikeMembers(w, node, scope, cascade));
  }

  /** The members of a kill: what it names, the nodes it revoked, and on version 2 the calls that were open on them, each once. */
  function KillMembers(w: World, target: string, revoked: seq<string>): Entry {
    map[FChainId := JStr(w.chain.chainId), FTarget := JStr(target), FRevoked := JArr(Texts(revoked))]
    + if w.cfg.version == 2 then map[FPendingAtKill := JArr(Texts(Dedup(PendingAtKill(w.chain.pending, revoked))))] else map[]
  }

  function Texts(items: seq<string>): seq<Json> { seq(|items|, i requires 0 <= i < |items| => JStr(items[i])) }

  lemma TextsAre(items: seq<string>)
    ensures Strings(items) == JArr(Texts(items))
  {
    assert Map(items, s => JStr(s)) == Texts(items);
  }

  lemma KillMembersAre(w: World, target: string, revoked: seq<string>)
    ensures KillFields(w, target, revoked) == KillMembers(w, target, revoked)
  {
    hide Strings, Texts, Dedup, PendingAtKill;
    TextsAre(revoked);
    TextsAre(Dedup(PendingAtKill(w.chain.pending, revoked)));
  }

  /** A call is reported open at a kill exactly when it is pending on a node the kill revoked. */
  lemma {:induction false} OpenAtKillIff(pending: seq<PendingSet>, revoked: seq<string>, c: string)
    ensures c in PendingAtKill(pending, revoked) <==> exists n :: n in revoked && c in PendingFor(pending, n)
  {
    hide PendingFor;
    if revoked != [] {
      OpenAtKillIff(pending, revoked[1..], c);
      if n :| n in revoked && c in PendingFor(pending, n) { assert n == revoked[0] || n in revoked[1..]; }
    }
  }

  // ---- delegation ---------------------------------------------------------

  /** Why a delegation is refused before its authority is looked at: the first that holds. */
  ghost predicate IsBarred(c: ChainState, node: string, agent: string, now: int, code: ReasonCode) {
    if node !in c.nodes then code == NoAuthority
    else if node in c.revoked then code == ChainRevoked
    else if agent in c.banned then code == AgentBanned
    else if RunsOut(c.nodes[node].authority.ttl, c.nodes[node].issuedAt, now) then code == TtlExpired
    else if c.nodes[node].depth + 1 > c.maxDepth then code == MaxDepth
    else |c.nodes[node].children| + 1 > c.maxFanout && code == MaxFanout
  }

  /** A delegation is refused for the first bar, for want of a meet, or for a meet not within the parent. */
  ghost predicate IsDeclined(c: ChainState, node: string, agent: string, request: Authority, now: int, code: ReasonCode) {
    if node !in c.nodes || exists bar :: IsBarred(c, node, agent, now, bar) then IsBarred(c, node, agent, now, code)
    else if Meet(c.nodes[node].authority, request).None? then code == NotNarrower
    else !IsNarrower(Meet(c.nodes[node].authority, request).value, c.nodes[node].authority) && code == Integrity
  }

  lemma DeclinedIff(c: ChainState, node: string, agent: string, request: Authority, task: string, now: int, code: ReasonCode)
    ensures AddChild(c, node, agent, request, task, now) == Err(code) <==> IsDeclined(c, node, agent, request, now, code)
  {
    hide Meet, IsNarrower;
    forall bar ensures DelegationError(c, node, agent, now) == Some(bar) <==> IsBarred(c, node, agent, now, bar) {}
    var error := DelegationError(c, node, agent, now);
    if error.Some? { assert IsBarred(c, node, agent, now, error.value); }
  }

  /** The chain once a child is added: the next id, on the meet, one level down, under the parent and under no other. */
  ghost predicate GainsChild(c: ChainState, c': ChainState, node: string, id: string, agent: string, granted: Authority, task: string, now: int)
    requires node in c.nodes
  {
    && id == c.chainId + ":n" + Decimal(c.nextId) && id !in c.nodes
    && c'.nodes.Keys == c.nodes.Keys + {id} && c' == c.(nodes := c'.nodes, nextId := c.nextId + 1)
    && c'.nodes[id] == Node(Some(node), agent, granted, task, c.nodes[node].depth + 1, now, false, [])
    && c'.nodes[node] == c.nodes[node].(children := c.nodes[node].children + [id])
    && forall x :: x in c.nodes && x != node ==> c'.nodes[x] == c.nodes[x]
  }

  lemma AddChildGains(c: ChainState, node: string, agent: string, request: Authority, task: string, now: int)
    requires node in c.nodes && TreeInv(c) && AddChild(c, node, agent, request, task, now).Ok?
    ensures Meet(c.nodes[node].authority, request).Some?
    ensures GainsChild(c, AddChild(c, node, agent, request, task, now).value, node, NodeId(c.chainId, c.nextId), agent, Meet(c.nodes[node].authority, request).value, task, now)
  {
    NextIdIsNew(c);
    hide Meet, IsNarrower, TreeInv, DelegationError;
  }

  function SpawnMembers(c: ChainState, node: string, id: string, agent: string, task: string, request: Authority, granted: Authority): Entry {
    map[FChainId := JStr(c.chainId), FParent := JStr(node), FNode := JStr(id), FAgent := JStr(agent), FTask := JStr(task),
        FRequested := AuthorityToWire(request), FGranted := AuthorityToWire(granted)]
  }

  /** What the caller can read off a refused delegation. */
  function DeclineDetail(c: ChainState, node: string, agent: string, code: ReasonCode): Json {
    if code == AgentBanned then JObj([Member("agent", JStr(agent))])
    else if code == MaxDepth then JObj([Member("max_depth", JNum(c.maxDepth))])
    else if code == MaxFanout then JObj([Member("max_fanout", JNum(c.maxFanout))])
    else if code == NotNarrower then JObj([])
    else JObj([Member("parent", JStr(node))])
  }

  function DeclineMembers(c: ChainState, node: string, agent: string, task: string, code: ReasonCode): Entry {
    map[FChainId := JStr(c.chainId), FParent := JStr(node), FAgent := JStr(agent), FTask := JStr(task),
        FReason := JStr(CodeText(code)), FDetail := DeclineDetail(c, node, agent, code)]
  }

  /** A refused delegation leaves the chain as it was and records the first cause. */
  lemma DelegationDeclined(hash: Hasher, w: World, node: string, agent: string, request: Authority, task: string, now: int, persists: bool, code: ReasonCode)
    requires IsDeclined(w.chain, node, agent, request, now, code)
    ensures var (w', out) := DelegateStep(hash, w, node, agent, request, task, now, persists);
            || (Writes(hash, w, w', "spawn_denied", DeclineMembers(w.chain, node, agent, task, code))
                && out == if persists then DelegateRefused(code) else DelegateThrown)
            || (Ticks(w, w') && out == DelegateThrown)
  {
    hide Append, Writes, Ticks, AddChild, IsDeclined, CodeText;
    DeclinedIff(w.chain, node, agent, request, task, now, code);
    AppendIff(hash, w, EventSpawnDenied, DeclineMembers(w.chain, node, agent, task, code));
    assert DetailOf(w.chain.maxDepth, w.chain.maxFanout, node, agent, code) == DeclineDetail(w.chain, node, agent, code);
  }

  /** Any other adds the child to the chain, and then writes the spawn with what was asked and what was granted. */
  lemma DelegationGranted(hash: Hasher, w: World, node: string, agent: string, request: Authority, task: string, now: int, persists: bool) returns (mid: World)
    requires node in w.chain.nodes && ChainOk(w.chain) && forall code :: !IsDeclined(w.chain, node, agent, request, now, code)
    ensures mid == w.(chain := mid.chain) && Meet(w.chain.nodes[node].authority, request).Some?
    ensures var (w', out) := DelegateStep(hash, w, node, agent, request, task, now, persists);
            var id, granted := NodeId(w.chain.chainId, w.chain.nextId), Meet(w.chain.nodes[node].authority, request).value;
            && GainsChild(w.chain, mid.chain, node, id, agent, granted, task, now)
            && ((Writes(hash, mid, w', "spawn", SpawnMembers(w.chain, node, id, agent, task, request, granted)) && out == if persists then Delegated(id) else DelegateThrown)
                || (Ticks(mid, w') && out == DelegateThrown))
  {
    hide Append, Writes, Ticks, AddChild, IsDeclined, Meet, GainsChild, NodeId, TreeInv, Attenuated;
    var added := AddChild(w.chain, node, agent, request, task, now);
    if added.Err? { DeclinedIff(w.chain, node, agent, request, task, now, added.error); }
    mid := w.(chain := added.value);
    AddChildGains(w.chain, node, agent, request, task, now);
    var granted := Meet(w.chain.nodes[node].authority, request).value;
    ChildIsThere(w.chain, mid.chain, node, NodeId(w.chain.chainId, w.chain.nextId), agent, granted, task, now);
    AppendIff(hash, mid, EventSpawn, SpawnMembers(w.chain, node, NodeId(w.chain.chainId, w.chain.nextId), agent, task, request, granted));
  }

  lemma ChildIsThere(c: ChainState, c': ChainState, node: string, id: string, agent: string, granted: Authority, task: string, now: int)
    requires node in c.nodes && GainsChild(c, c', node, id, agent, granted, task, now)
    ensures id in c'.nodes && c'.nodes[id].authority == granted
  {
  }

  // ---- the other calls ----------------------------------------------------

  /** A node completes once, and on version 2 not while a call of it is pending. */
  lemma CompletesIff(hash: Hasher, w: World, node: string, persists: bool)
    requires node in w.chain.nodes
    ensures var (w', out) := CompleteStep(hash, w, node, persists);
            var n := w.chain.nodes[node];
            var open := if w.cfg.version == 2 then PendingFor(w.chain.pending, node) else [];
            var marked := w.(chain := w.chain.(nodes := w.chain.nodes[node := n.(complete := true)]));
            if n.complete then w' == w && out == AlreadyComplete
            else if open != [] then w' == w && out == StillPending(open)
            else
              || (Writes(hash, marked, w', "done", map[FChainId := JStr(w.chain.chainId), FNode := JStr(node), FAgent := JStr(n.agent)])
                  && out == if persists then Completed else CompleteThrown)
              || (Ticks(marked, w') && out == CompleteThrown)
  {
    hide Append, Writes, Ticks, PendingFor;
    AppendIff(hash, Marked(w, node), EventDone, DoneFields(w.chain.chainId, node, w.chain.nodes[node].agent));
  }

  /** A report of a known end, with an error code exactly where the body raised, and a receipt that names its kind and hash. */
  predicate IsReport(w: World, r: OutcomeReport) {
    && w.cfg.version == 2 && r.bodyState in {"returned", "raised", "abandoned", "deferred"}
    && (r.bodyState == "raised" <==> r.errorCode.Some?) && r.errorCode != Some("")
    && r.durationMs >= 0
    && (r.receipt.Some? ==> r.receipt.value.kind != "" && r.receipt.value.ref != "" && IsHex(r.receipt.value.digest, 64))
  }

  function ReportMembers(c: ChainState, node: string, r: OutcomeReport): Entry {
    map[FChainId := JStr(c.chainId), FNode := JStr(node), FCallId := JStr(r.callId), FBodyState := JStr(r.bodyState), FDurationMs := JNum(r.durationMs)]
    + (if r.errorCode.Some? then map[FErrorCode := JStr(r.errorCode.value)] else map[])
    + (match r.params
       case Omitted => map[]
       case Hashed(digest) => map[FInvokedParamsHash := JStr(digest)]
       case Unsupported => map[FParamsHashReason := JStr("unsupported")])
    + if r.receipt.Some? then
        map[FReceipt := JObj([Member("type", JStr(r.receipt.value.kind)), Member("ref", JStr(r.receipt.value.ref)), Member("digest", JStr(r.receipt.value.digest))])]
      else map[]
  }

  /** A call has one outcome: a report is taken once, and then its call is pending nowhere it was first found. */
  lemma OutcomeTakenIff(hash: Hasher, w: World, node: string, r: OutcomeReport, persists: bool)
    ensures var (w', ok) := RecordOutcomeStep(hash, w, node, r, persists);
            if !IsReport(w, r) || r.callId in w.chain.outcomed then w' == w && !ok
            else
              || (Ticks(w, w') && !ok)
              || (Writes(hash, w, w'.(chain := w.chain), "outcome", ReportMembers(w.chain, node, r)) && ok == persists
                  && w'.chain == w.chain.(outcomed := w.chain.outcomed + {r.callId}, pending := Resolve(w.chain.pending, r.callId)))
  {
    hide Append, Resolve, IsHex, Writes, Ticks, ReportMembers, OutcomeFields;
    assert ReportAccepted(w, r) <==> IsReport(w, r);
    assert OutcomeFields(w.chain.chainId, node, r) == ReportMembers(w.chain, node, r) by { ReportMembersAre(w.chain, node, r); }
    AppendIff(hash, w, EventOutcome, ReportMembers(w.chain, node, r));
    WritesKeepsChain(hash, w, Append(hash, w, EventOutcome, ReportMembers(w.chain, node, r)).0, "outcome", ReportMembers(w.chain, node, r));
  }

  lemma ReportMembersAre(c: ChainState, node: string, r: OutcomeReport)
    ensures OutcomeFields(c.chainId, node, r) == ReportMembers(c, node, r)
  {
  }

  lemma WritesKeepsChain(hash: Hasher, w: World, w': World, event: string, fields: Entry)
    ensures Writes(hash, w, w', event, fields) ==> w'.chain == w.chain && w' == w'.(chain := w.chain)
  {
  }

  /** A revocation takes the target and all below it, whatever becomes of its entry. */
  lemma RevokesIff(hash: Hasher, w: World, target: string, cascade: seq<string>, persists: bool, id: string)
    ensures var (w', ok) := RevokeStep(hash, w, target, cascade, persists);
            var marked := w.(chain := w'.chain);
            && (id in w'.chain.revoked <==> id in w.chain.revoked || Descends(w.chain, id, target))
            && w'.chain == w.chain.(revoked := w'.chain.revoked)
            && ((Writes(hash, marked, w', "kill", KillMembers(w, target, cascade)) && ok == persists) || (Ticks(marked, w') && !ok))
  {
    hide Append, Writes, Ticks, KillFields, KillMembers;
    var w1 := w.(chain := w.chain.(revoked := w.chain.revoked + Subtree(w.chain, target)));
    if Descends(w.chain, id, target) { assert id in w.chain.nodes; }
    KillMembersAre(w1, target, cascade);
    SameKillMembers(w, w1, target, cascade);
    AppendIff(hash, w1, EventKill, KillMembers(w, target, cascade));
    AppendSettled(hash, w1, EventKill, KillMembers(w, target, cascade));
  }

  lemma AppendSettled(hash: Hasher, w: World, event: EventKind, fields: Entry)
    ensures Append(hash, w, event, fields).0.chain == w.chain
  {
  }

  /** Revoking an agent takes every node it holds and all below them, and bans it. */
  lemma RevokesAgentIff(hash: Hasher, w: World, node: string, agent: string, cascade: seq<string>, persists: bool, id: string)
    ensures var (w', ok) := RevokeAgentStep(hash, w, node, agent, cascade, persists);
            var marked := w.(chain := w'.chain);
            && (id in w'.chain.revoked <==>
                  id in w.chain.revoked || exists a :: a in w.chain.nodes && w.chain.nodes[a].agent == agent && Descends(w.chain, id, a))
            && w'.chain == w.chain.(revoked := w'.chain.revoked, banned := w.chain.banned + {agent})
            && ((Writes(hash, marked, w', "kill", KillMembers(w, node, cascade) + map[FAgent := JStr(agent)]) && ok == persists) || (Ticks(marked, w') && !ok))
  {
    hide Append, Writes, Ticks, KillFields, KillMembers;
    var w1 := w.(chain := w.chain.(revoked := w.chain.revoked + AgentSubtrees(w.chain, agent), banned := w.chain.banned + {agent}));
    if a :| a in w.chain.nodes && w.chain.nodes[a].agent == agent && Descends(w.chain, id, a) { assert id in w.chain.nodes; }
    KillMembersAre(w1, node, cascade);
    SameKillMembers(w, w1, node, cascade);
    var members := KillMembers(w, node, cascade) + map[FAgent := JStr(agent)];
    AppendIff(hash, w1, EventKill, members);
    AppendSettled(hash, w1, EventKill, members);
  }

  /** A denial from outside is recorded once it has its call id, with the caller's reason alone. */
  lemma DenialRecorded(hash: Hasher, w: World, node: string, reason: Reason, scope: string, tool: Option<string>, request: Context,
                       stated: Option<string>, callId: Option<string>, persists: bool)
    ensures var (w', out) := RecordDenialStep(hash, w, node, reason, scope, tool, request, stated, callId, persists);
            var d := Decision(false, [reason], if w.cfg.version == 2 then callId else None);
            if stated.Some? && stated.value !in {"held_pending_grant", "withheld_tier2", "unresolved", "out_of_authority"} then w' == w && out == Thrown
            else if w.cfg.version == 2 && callId.None? then w' == w && out == Returned(Decision(false, [reason], None))
            else
              || (Writes(hash, w, w', "deny", DecisionMembers(w, node, d, scope, tool, request, stated)
                                              + if d.callId.Some? then map[FCallId := JStr(d.callId.value)] else map[])
                  && out == if persists then Returned(d) else Unpersisted(d))
              || (Ticks(w, w') && out == Thrown)
  {
    hide Append, Writes, Ticks, DecisionFields, DecisionMembers;
    var d := Denied(reason).(callId := IdFor(w, callId));
    DecisionMembersAre(w, node, d, scope, tool, request, stated);
    AppendIff(hash, w, EventDeny, DecisionMembers(w, node, d, scope, tool, request, stated) + if d.callId.Some? then map[FCallId := JStr(d.callId.value)] else map[]);
  }

  /** A call passed through is recorded as an allow under the one policy that exists, with nothing promised of its end. */
  lemma PassthroughRecorded(hash: Hasher, w: World, node: string, tool: string, scope: string, request: Context, policy: string, callId: Option<string>, persists: bool)
    ensures var (w', out) := RecordPassthroughStep(hash, w, node, tool, scope, request, policy, callId, persists);
            var d := Decision(true, [], if w.cfg.version == 2 then callId else None);
            if policy != "unlisted" then w' == w && out == Thrown
            else if w.cfg.version == 2 && callId.None? then w' == w && out == Returned(Decision(false, [Reason(CallIdUnavailable, None)], None))
            else
              || (Writes(hash, w, w', "allow", DecisionMembers(w, node, d, scope, Some(tool), request, None) + map[FPolicy := JStr("unlisted")]
                    + if d.callId.None? then map[] else
                        map[FCallId := JStr(d.callId.value), FCapture := JStr("pre_hook_only"),
                            FAdapter := AdapterJson("attenu-guard", "0.16.0", "Guard.recordPassthrough")])
                  && out == if persists then Returned(d) else Unpersisted(d))
              || (Ticks(w, w') && out == Thrown)
  {
    hide Append, Writes, Ticks, DecisionFields, DecisionMembers;
    var d := Decision(true, [], IdFor(w, callId));
    DecisionMembersAre(w, node, d, scope, Some(tool), request, None);
    AppendIff(hash, w, EventAllow, PassthroughFields(w, node, tool, scope, request, policy, d));
  }

  /** A chain opens with its root on node 0, and the root entry states its authority and, on version 2, its salt. */
  lemma IssuesRoot(hash: Hasher, s: Setup)
    ensures var root := s.chainId + ":n0";
            var c := ChainState(s.chainId, s.maxDepth, s.maxFanout, map[root := Node(None, s.agent, s.authority, s.task, 0, s.now, false, [])],
                                1, {}, {}, map[], map[], [], {});
            var empty := World(c, [], GENESIS, 0, s.cfg);
            match IssueStep(hash, s)
            case Some(w') =>
              Writes(hash, empty, w', "root",
                     map[FChainId := JStr(s.chainId), FNode := JStr(root), FAgent := JStr(s.agent), FAuthority := AuthorityToWire(s.authority)]
                     + if s.cfg.version == 2 then map[FParamsSalt := JStr(s.cfg.salt)] else map[])
            case None => true
  {
    hide Append, Writes;
    assert Decimal(0) == "0";
    assert s.chainId + ":n" + "0" == s.chainId + ":n0";
    AppendIff(hash, Fresh(s), EventRoot, RootFields(s.chainId, NodeId(s.chainId, 0), s.agent, s.authority, s.cfg));
  }

  /** The text each reason is written as. */
  lemma ReasonTexts()
    ensures CodeText(ScopeNotGranted) == "scope_not_granted" && CodeText(CeilingExceeded) == "ceiling_exceeded" && CodeText(UnknownConstraint) == "unknown_constraint"
    ensures CodeText(Expired) == "expired" && CodeText(Revoked) == "revoked" && CodeText(Unmetered) == "unmetered" && CodeText(NodeFinalized) == "node_finalized"
    ensures CodeText(CallIdUnavailable) == "call_id_unavailable" && CodeText(NoAuthority) == "no_authority" && CodeText(ChainRevoked) == "chain_revoked"
    ensures CodeText(AgentBanned) == "agent_banned" && CodeText(TtlExpired) == "ttl_expired" && CodeText(MaxDepth) == "max_depth"
    ensures CodeText(MaxFanout) == "max_fanout" && CodeText(NotNarrower) == "not_narrower" && CodeText(Integrity) == "integrity"
  {
  }
}
