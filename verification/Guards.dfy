/**
 * The guard (src/guard.ts): an object on one node that shares its chain, its ledger and its sequence clock with
 * the other guards of the chain. Each method carries out the step GuardSteps specifies.
 */
module Guards {
  import opened Results
  import opened PlainJson
  import opened Scopes
  import opened Ceilings
  import opened Authorities
  import opened AuthorityWire
  import opened Reasons
  import opened Chains
  import opened Audit
  import opened Ledger
  import opened GuardSteps

  /** A monotonic integer for audit sequencing. */
  class SeqClock {
    var t: int

    constructor ()
      ensures t == 0
    {
      t := 0;
    }

    method Now() returns (now: int)
      modifies this
      ensures now == t == old(t) + 1
    {
      t := t + 1;
      now := t;
    }
  }

  class Guard {
    const nodeId: string
    const chain: Chain
    const audit: AuditLog
    const clock: SeqClock
    const strict: bool
    const strikes: Option<StrikePolicy>
    const salt: string

    /** The state every guard of the chain shares. */
    ghost function Shared(): World
      reads chain, audit, clock
    {
      World(chain.State(), audit.entries, audit.prev, clock.t, Config(audit.schemaVersion, strict, strikes, salt))
    }

    ghost predicate Valid()
      reads chain, audit, clock
    {
      nodeId in chain.nodes && TreeInv(chain.State()) && Attenuated(chain.nodes) && audit.Valid()
    }

    /** `Guard.issue`: a new chain with its root committed, or the throw of a ledger that could not take it. */
    static method Issue(hash: Hasher, s: Setup, persists: bool) returns (g: Option<Guard>)
      requires Authorities.Valid(s.authority)
      ensures g.Some? <==> persists && IssueStep(hash, s).Some?
      ensures g.Some? ==> fresh(g.value) && g.value.Valid() && g.value.Shared() == IssueStep(hash, s).value && g.value.audit.hash == hash
    {
      hide RootFields, Committed, NodeId;
      var chain := new Chain(s.chainId, s.maxDepth, s.maxFanout);
      var audit := new AuditLog(hash, s.cfg.version);
      var clock := new SeqClock();
      var id := chain.AddRoot(s.agent, s.authority, s.task, s.now);
      var guard := new Guard.On(id, chain, audit, clock, s.cfg.strict, s.cfg.strikes, s.cfg.salt);
      var committed, persisted := guard.AppendEntry(EventRoot, RootFields(s.chainId, id, s.agent, s.authority, s.cfg), persists);
      g := if persisted then Some(guard) else None;
    }

    /** A guard on a node of a chain that already exists. */
    constructor On(nodeId: string, chain: Chain, audit: AuditLog, clock: SeqClock, strict: bool, strikes: Option<StrikePolicy>, salt: string)
      ensures this.nodeId == nodeId && this.chain == chain && this.audit == audit && this.clock == clock
      ensures this.strict == strict && this.strikes == strikes && this.salt == salt
    {
      this.nodeId, this.chain, this.audit, this.clock := nodeId, chain, audit, clock;
      this.strict, this.strikes, this.salt := strict, strikes, salt;
    }

    // ---- the ledger -------------------------------------------------------

    method AppendEntry(event: EventKind, fields: Entry, persists: bool) returns (committed: bool, persisted: bool)
      requires audit.Valid()
      modifies audit, clock
      ensures audit.Valid() && chain.State() == old(chain.State())
      ensures (Shared(), committed) == Append(audit.hash, old(Shared()), event, fields)
      ensures persisted == (committed && persists)
    {
      var now := clock.Now();
      var r := audit.Append(EventText(event), now, fields, persists);
      committed := !r.NotCommitted?;
      persisted := r.Persisted?;
    }

    // ---- evaluation -------------------------------------------------------

    /** Fill in the running count for every call limit the caller left undeclared. */
    method FillMeters(scope: string, context: Context) returns (m: Metering)
      requires nodeId in chain.nodes
      ensures m == AutoMeter(chain.calls, nodeId, CallLimits(chain.nodes[nodeId].authority), scope, context)
    {
      hide With, CtxField, AppliesToScope, MeterKey, Declared, CallLimits;
      var limits := CallLimits(chain.nodes[nodeId].authority);
      var ctx := context;
      var filled: seq<Ceiling> := [];
      for i := 0 to |limits|
        invariant var rest := AutoMeter(chain.calls, nodeId, limits[i..], scope, ctx);
                  AutoMeter(chain.calls, nodeId, limits, scope, context) == Metering(rest.ctx, filled + rest.filled)
      {
        var c := limits[i];
        assert limits[i..][0] == c && limits[i..][1..] == limits[i + 1..];
        if Declared(ctx, CtxField(c)).None? {
          var applies := AppliesToScope(c, scope);
          var soFar := chain.CallsSoFar(nodeId, MeterKey(c));
          ctx := With(ctx, CtxField(c), JNum(soFar + if applies then 1 else 0));
          if applies { filled := filled + [c]; }
        }
      }
      m := Metering(ctx, filled);
    }

    /** Node state first, then strict metering, then scope and ceilings. */
    method EvaluateRequest(scope: string, ctx: Context, metered: bool, totals: Context, now: int) returns (d: Option<Decision>)
      requires nodeId in chain.nodes
      ensures d == Evaluate(Shared(), nodeId, scope, ctx, metered, totals, now)
    {
      var n := chain.nodes[nodeId];
      if nodeId in chain.revokedNodes { return Some(Denied(Reason(Revoked, None))); }
      if IsExpired(n, now) { return Some(Denied(Reason(Expired, None))); }
      if !TotalsAccepted(n.authority, totals) { return None; }
      if strict && metered {
        var missing := Undeclared(n.authority, ctx);
        if missing != [] { return Some(Denied(Reason(Unmetered, Some(KeyOf(missing[0]))))); }
      }
      d := Permits(n.authority, scope, ctx, totals);
    }

    method AuthorizeRequest(scope: string, o: CheckOptions, now: int) returns (a: Option<Authorized>)
      requires nodeId in chain.nodes
      ensures a == Authorize(Shared(), nodeId, scope, o, now)
    {
      if audit.schemaVersion == 2 && chain.nodes[nodeId].complete {
        return Some(Authorized(Denied(Reason(NodeFinalized, None)), Metering(o.context, [])));
      }
      var m := FillMeters(scope, o.context);
      var d := EvaluateRequest(scope, m.ctx, o.metered, o.totals, now);
      if d.None? { return None; }
      return Some(Authorized(d.value, m));
    }

    // ---- check ------------------------------------------------------------

    method CountFilled(filled: seq<Ceiling>)
      modifies chain`calls
      ensures chain.calls == CountAll(old(chain.calls), nodeId, filled)
    {
      for i := 0 to |filled|
        invariant CountAll(chain.calls, nodeId, filled[i..]) == CountAll(old(chain.calls), nodeId, filled)
      {
        assert filled[i..][0] == filled[i] && filled[i..][1..] == filled[i + 1..];
        chain.CountCall(nodeId, MeterKey(filled[i]));
      }
    }

    method UncountFilled(filled: seq<Ceiling>)
      modifies chain`calls
      ensures chain.calls == UncountAll(old(chain.calls), nodeId, filled)
    {
      for i := 0 to |filled|
        invariant UncountAll(chain.calls, nodeId, filled[i..]) == UncountAll(old(chain.calls), nodeId, filled)
      {
        assert filled[i..][0] == filled[i] && filled[i..][1..] == filled[i + 1..];
        chain.UncountCall(nodeId, MeterKey(filled[i]));
      }
    }

    /** Authorize an action; every allow and deny is appended. `cascade` is what the strike policy revoked. */
    method Check(scope: string, o: CheckOptions, env: Environment) returns (outcome: Outcome, cascade: seq<string>)
      requires Valid()
      modifies chain, audit, clock
      ensures Valid() && (Shared(), outcome) == CheckStep(audit.hash, old(Shared()), nodeId, scope, o, env, cascade)
      ensures IsKillOrder(old(chain.State()), nodeId, cascade)
    {
      hide Authorize, AuthorizedStep, OptionsAccepted, TreeInv, Attenuated;
      cascade := [];
      var accepted := AcceptsOptions(o);
      if !accepted { return Thrown, []; }
      var a := AuthorizeRequest(scope, o, env.now);
      if a.None? { return Thrown, []; }
      outcome, cascade := EnforceTransition(scope, o, a.value, env);
    }

    method AcceptsOptions(o: CheckOptions) returns (ok: bool)
      ensures ok == OptionsAccepted(Shared(), o)
    {
      if o.disposition.Some? && o.disposition.value !in DISPOSITIONS { return false; }
      if audit.schemaVersion != 2 && (!o.params.Omitted? || o.capture.Some? || o.adapter.Some?) { return false; }
      if o.capture.Some? && o.capture.value !in CAPTURES { return false; }
      if o.capture.Some? && o.adapter.None? { return false; }
      return true;
    }

    /** Steps 2 and 3: count an allow, allocate its call id, and take the count back where none is to be had. */
    method EnforceTransition(scope: string, o: CheckOptions, a: Authorized, env: Environment) returns (outcome: Outcome, cascade: seq<string>)
      requires Valid()
      modifies chain, audit, clock
      ensures Valid() && (Shared(), outcome) == AuthorizedStep(audit.hash, old(Shared()), nodeId, scope, o, a, env, cascade)
      ensures IsKillOrder(old(chain.State()), nodeId, cascade)
    {
      hide CommitStep, CountAll, UncountAll;
      cascade := [];
      ghost var w := Shared();
      if a.decision.allowed { CountFilled(a.metering.filled); }
      SideTablesKeepTree(w.chain, chain.State());
      if audit.schemaVersion == 2 && env.callId.None? {
        if a.decision.allowed { UncountFilled(a.metering.filled); }
        SideTablesKeepTree(w.chain, chain.State());
        return Returned(Denied(Reason(CallIdUnavailable, None))), [];
      }
      SameKillOrder(w.chain, chain.State(), nodeId);
      outcome, cascade := CommitDecision(scope, o, a, env, Restored(w, nodeId, a));
    }

    /** Step 4: append the decision; before the commit point the count is taken back. */
    method CommitDecision(scope: string, o: CheckOptions, a: Authorized, env: Environment, ghost restored: map<string, nat>)
      returns (outcome: Outcome, cascade: seq<string>)
      requires Valid() && restored == if a.decision.allowed then UncountAll(chain.calls, nodeId, a.metering.filled) else chain.calls
      modifies chain, audit, clock
      ensures Valid()
      ensures (Shared(), outcome) == CommitStep(audit.hash, old(Shared()), restored, nodeId, scope, o, a, env, cascade)
      ensures IsKillOrder(old(chain.State()), nodeId, cascade)
    {
      hide UncountAll, CheckFields, Append, CommittedStep, UncommittedStep, EventOfDecision, TreeInv, Attenuated;
      cascade := [];
      var d := a.decision.(callId := if audit.schemaVersion == 2 then env.callId else None);
      var fields := FieldsOfCheck(scope, o, a.metering.ctx, d);
      var committed, persisted := AppendEntry(EventOfDecision(d), fields, env.persists);
      if committed {
        outcome, cascade := FinishCommitted(scope, o, d, env);
      } else {
        ghost var before := chain.State();
        if a.decision.allowed { UncountFilled(a.metering.filled); }
        SideTablesKeepTree(before, chain.State());
        outcome := FinishUncommitted(scope, o, a.metering.ctx, env);
      }
    }

    method FieldsOfCheck(scope: string, o: CheckOptions, ctx: Context, d: Decision) returns (fields: Entry)
      ensures fields == CheckFields(Shared(), nodeId, scope, o, ctx, d)
    {
      fields := DecisionFields(chain.chainId, nodeId, d, scope, o.tool, ctx, o.disposition);
      if d.callId.Some? {
        if !d.allowed {
          fields := fields + map[FCallId := JStr(d.callId.value)];
        } else {
          var call: Entry;
          if o.capture.Some? && o.adapter.Some? {
            call := CaptureFields(d.callId.value, o.capture.value, o.adapter.value);
          } else {
            call := CaptureFields(d.callId.value, PRE_HOOK_ONLY, OwnAdapter("Guard.check"));
          }
          fields := fields + (call + CommitmentFields(o.params, FAuthorizedParamsHash));
        }
      } else {
        assert fields == fields + map[];
      }
    }

    /** Steps 5 and 6: register the pending call, then the strike policy unless persistence failed. */
    method FinishCommitted(scope: string, o: CheckOptions, d: Decision, env: Environment) returns (outcome: Outcome, cascade: seq<string>)
      requires Valid()
      modifies chain, audit, clock
      ensures Valid() && (Shared(), outcome) == CommittedStep(audit.hash, old(Shared()), nodeId, scope, o, d, env, cascade)
      ensures IsKillOrder(old(chain.State()), nodeId, cascade)
    {
      hide StrikeStep, Register, TERMINAL_CAPTURES;
      cascade := [];
      ghost var before := chain.State();
      var capture := if o.capture.Some? then o.capture.value else PRE_HOOK_ONLY;
      if d.callId.Some? && d.allowed && capture in TERMINAL_CAPTURES { chain.RegisterPending(nodeId, d.callId.value); }
      SideTablesKeepTree(before, chain.State());
      if !env.persists { return Unpersisted(d), []; }
      SameKillOrder(before, chain.State(), nodeId);
      outcome, cascade := ApplyStrikes(scope, d, env.killPersists);
    }

    method FinishUncommitted(scope: string, o: CheckOptions, ctx: Context, env: Environment) returns (outcome: Outcome)
      requires Valid()
      modifies audit, clock
      ensures Valid() && chain.State() == old(chain.State())
      ensures (Shared(), outcome) == UncommittedStep(audit.hash, old(Shared()), nodeId, scope, o, ctx, env)
    {
      hide RecordDenialStep, Canonicalizable;
      if Canonicalizable(JObj(ctx)) { return Thrown; }
      outcome := RecordDenial(Reason(NoAuthority, Some("context")), scope, o.tool, [], Some("unresolved"), env.fallbackId, env.fallbackPersists);
    }

    /** Count a denial against the strike policy, and revoke the node once it has had its share. */
    method ApplyStrikes(scope: string, d: Decision, killPersists: bool) returns (outcome: Outcome, cascade: seq<string>)
      requires Valid()
      modifies chain, audit, clock
      ensures Valid() && (Shared(), outcome) == StrikeStep(audit.hash, old(Shared()), nodeId, scope, d, killPersists, cascade)
      ensures IsKillOrder(old(chain.State()), nodeId, cascade)
    {
      hide KillFields, Append, Subtree, StrikeKey;
      cascade := [];
      if d.allowed || strikes.None? || !strikes.value.enabled || nodeId in chain.revokedNodes { return Returned(d), []; }
      ghost var before := chain.State();
      var n := chain.RecordStrike(StrikeKey(strikes.value, nodeId, scope));
      SideTablesKeepTree(before, chain.State());
      if n < strikes.value.n { return Returned(d), []; }
      SameKillOrder(before, chain.State(), nodeId);
      ghost var marked := chain.State();
      cascade := chain.Revoke(nodeId);
      assert IsKillOrder(marked, nodeId, cascade);
      var fields := FieldsOfKill(nodeId, cascade);
      fields := fields + map[FReason := JStr("strike_policy"), FScope := JStr(scope), FStrikes := JNum(n),
                             FMode := JStr(if strikes.value.sameScope then "same_scope" else "total")];
      var committed, persisted := AppendEntry(EventKill, fields, killPersists);
      outcome := if !committed then Thrown else if persisted then Returned(d) else Unpersisted(d);
    }

    method FieldsOfKill(target: string, revoked: seq<string>) returns (fields: Entry)
      ensures fields == KillFields(Shared(), target, revoked)
    {
      hide Strings, Dedup, PendingAtKill;
      fields := map[FChainId := JStr(chain.chainId), FTarget := JStr(target), FRevoked := Strings(revoked)];
      if audit.schemaVersion == 2 {
        var open := SnapshotPending(revoked);
        fields := fields + map[FPendingAtKill := Strings(open)];
      } else {
        assert fields == fields + map[];
      }
    }

    /** The open calls of the revoked nodes, each once. */
    method SnapshotPending(nodes: seq<string>) returns (open: seq<string>)
      ensures open == Dedup(PendingAtKill(chain.pending, nodes))
    {
      hide Dedup, PendingFor;
      var all: seq<string> := [];
      for i := 0 to |nodes|
        invariant PendingAtKill(chain.pending, nodes) == all + PendingAtKill(chain.pending, nodes[i..])
      {
        assert nodes[i..][0] == nodes[i] && nodes[i..][1..] == nodes[i + 1..];
        all := all + PendingFor(chain.pending, nodes[i]);
      }
      assert all == PendingAtKill(chain.pending, nodes);
      open := Dedup(all);
    }

    // ---- records without evaluation ---------------------------------------

    method RecordDenial(reason: Reason, scope: string, tool: Option<string>, ctx: Context, disposition: Option<string>, callId: Option<string>, persists: bool)
      returns (outcome: Outcome)
      requires audit.Valid()
      modifies audit, clock
      ensures audit.Valid() && chain.State() == old(chain.State())
      ensures (Shared(), outcome) == RecordDenialStep(audit.hash, old(Shared()), nodeId, reason, scope, tool, ctx, disposition, callId, persists)
    {
      hide DecisionFields, Append, DISPOSITIONS;
      if disposition.Some? && disposition.value !in DISPOSITIONS { return Thrown; }
      if audit.schemaVersion == 2 && callId.None? { return Returned(Denied(reason)); }
      var d := Denied(reason).(callId := if audit.schemaVersion == 2 then callId else None);
      var extra: Entry := if d.callId.Some? then map[FCallId := JStr(d.callId.value)] else map[];
      var committed, persisted := AppendEntry(EventDeny, DecisionFields(chain.chainId, nodeId, d, scope, tool, ctx, disposition) + extra, persists);
      outcome := if !committed then Thrown else if persisted then Returned(d) else Unpersisted(d);
    }

    method RecordPassthrough(tool: string, scope: string, ctx: Context, policy: string, callId: Option<string>, persists: bool) returns (outcome: Outcome)
      requires Valid()
      modifies audit, clock
      ensures Valid() && (Shared(), outcome) == RecordPassthroughStep(audit.hash, old(Shared()), nodeId, tool, scope, ctx, policy, callId, persists)
    {
      hide DecisionFields, Append, CaptureFields;
      if policy != UNLISTED { return Thrown; }
      if audit.schemaVersion == 2 && callId.None? { return Returned(Denied(Reason(CallIdUnavailable, None))); }
      var d := Decision(true, [], if audit.schemaVersion == 2 then callId else None);
      var fields := DecisionFields(chain.chainId, nodeId, d, scope, Some(tool), ctx, None) + map[FPolicy := JStr(policy)];
      if d.callId.Some? {
        fields := fields + CaptureFields(d.callId.value, PRE_HOOK_ONLY, OwnAdapter("Guard.recordPassthrough"));
      } else {
        assert fields == fields + map[];
      }
      var committed, persisted := AppendEntry(EventAllow, fields, persists);
      outcome := if !committed then Thrown else if persisted then Returned(d) else Unpersisted(d);
    }

    // ---- lifecycle --------------------------------------------------------

    /** Mark this node's work finished; refused while a call of a version 2 chain is open. */
    method Complete(persists: bool) returns (r: CompletionResult)
      requires Valid()
      modifies chain, audit, clock
      ensures Valid() && (Shared(), r) == CompleteStep(audit.hash, old(Shared()), nodeId, persists)
    {
      hide Append, PendingFor;
      if chain.nodes[nodeId].complete { return AlreadyComplete; }
      var open := if audit.schemaVersion == 2 then PendingFor(chain.pending, nodeId) else [];
      if open != [] { return StillPending(open); }
      MarkedKeepsTree(chain.State(), nodeId);
      chain.MarkComplete(nodeId);
      var committed, persisted := AppendEntry(EventDone, DoneFields(chain.chainId, nodeId, chain.nodes[nodeId].agent), persists);
      r := if persisted then Completed else CompleteThrown;
    }

    /** A child guard whose authority is the meet, or the recorded refusal. */
    method Delegate(agent: string, request: Authority, task: string, now: int, persists: bool) returns (r: DelegateOutcome, child: Option<Guard>)
      requires Valid() && Authorities.Valid(request)
      modifies chain, audit, clock
      ensures Valid() && (Shared(), r) == DelegateStep(audit.hash, old(Shared()), nodeId, agent, request, task, now, persists)
      ensures child.Some? <==> r.Delegated?
      ensures child.Some? ==> fresh(child.value) && child.value.Valid() && child.value.Shared() == Shared() && child.value.nodeId == r.node
    {
      hide Append, SpawnFields, SpawnDeniedFields, Attenuated, AddChild, IsNarrower;
      child := None;
      ghost var w := Shared();
      var added := chain.AddChildNode(nodeId, agent, request, task, now);
      if added.Err? {
        var committed, persisted := AppendEntry(EventSpawnDenied,
          SpawnDeniedFields(chain.chainId, chain.maxDepth, chain.maxFanout, nodeId, agent, task, added.error), persists);
        r := if persisted then DelegateRefused(added.error) else DelegateThrown;
        return;
      }
      var id := added.value;
      assert id in chain.nodes && nodeId in chain.nodes by { AddedNode(w.chain, nodeId, agent, request, task, now); }
      var fields := SpawnFields(chain.chainId, nodeId, id, agent, task, request, chain.nodes[id].authority);
      var committed, persisted := AppendEntry(EventSpawn, fields, persists);
      r := if persisted then Delegated(id) else DelegateThrown;
      if !persisted { return; }
      var g := new Guard.On(id, chain, audit, clock, strict, strikes, salt);
      child := Some(g);
    }

    method AcceptsReport(r: OutcomeReport) returns (ok: bool)
      ensures ok == ReportAccepted(Shared(), r)
    {
      if audit.schemaVersion != 2 || r.bodyState !in BODY_STATES { return false; }
      if r.bodyState == BODY_RAISED {
        if r.errorCode.None? || r.errorCode.value == "" { return false; }
      } else if r.errorCode.Some? {
        return false;
      }
      if r.durationMs < 0 { return false; }
      if r.receipt.Some? {
        var x := r.receipt.value;
        if x.kind == "" || x.ref == "" || !IsHex(x.digest, 64) { return false; }
      }
      return true;
    }

    /** Exactly one outcome per call id; the bookkeeping follows the commit. */
    method RecordOutcome(report: OutcomeReport, persists: bool) returns (ok: bool)
      requires Valid()
      modifies chain, audit, clock
      ensures Valid() && (Shared(), ok) == RecordOutcomeStep(audit.hash, old(Shared()), nodeId, report, persists)
    {
      hide ReportAccepted, OutcomeFields, Append, Resolve;
      var accepted := AcceptsReport(report);
      if !accepted || report.callId in chain.outcomed { return false; }
      ghost var before := chain.State();
      var committed, persisted := AppendEntry(EventOutcome, OutcomeFields(chain.chainId, nodeId, report), persists);
      if !committed { return false; }
      chain.MarkOutcomed(report.callId);
      var node := chain.ResolvePending(report.callId);
      SideTablesKeepTree(before, chain.State());
      ok := persisted;
    }

    // ---- chain controls ---------------------------------------------------

    /** Cascade-revoke a node and its subtree; the nodes revoked by this call. */
    method Revoke(target: string, persists: bool) returns (revoked: seq<string>, ok: bool)
      requires Valid()
      modifies chain, audit, clock
      ensures Valid() && (Shared(), ok) == RevokeStep(audit.hash, old(Shared()), target, revoked, persists)
      ensures Distinct(revoked)
      ensures forall id :: id in revoked <==> id in Subtree(old(chain.State()), target) && id !in old(chain.revokedNodes)
    {
      hide KillFields, Append, Subtree, TreeInv, Attenuated;
      revoked := chain.Revoke(target);
      var fields := FieldsOfKill(target, revoked);
      var committed, persisted := AppendEntry(EventKill, fields, persists);
      ok := persisted;
    }

    /** Revoke every node an agent holds and ban the agent. */
    method RevokeAgent(agent: string, persists: bool) returns (revoked: seq<string>, ok: bool)
      requires Valid()
      modifies chain, audit, clock
      ensures Valid() && (Shared(), ok) == RevokeAgentStep(audit.hash, old(Shared()), nodeId, agent, revoked, persists)
      ensures Distinct(revoked)
      ensures forall id :: id in revoked <==> id in AgentSubtrees(old(chain.State()), agent) && id !in old(chain.revokedNodes)
    {
      hide KillFields, Append, AgentSubtrees, TreeInv, Attenuated;
      revoked := chain.RevokeAgent(agent);
      var fields := FieldsOfKill(nodeId, revoked);
      var committed, persisted := AppendEntry(EventKill, fields + map[FAgent := JStr(agent)], persists);
      ok := persisted;
    }

    /** Is `other` an ancestor of this guard in the same chain? */
    method IsDescendantOf(other: Guard) returns (r: bool)
      requires Valid() && other.Valid()
      ensures r <==> other.chain == chain && other.nodeId != nodeId && Descends(chain.State(), nodeId, other.nodeId)
    {
      if other.chain != chain { return false; }
      ghost var st := chain.State();
      var node := nodeId;
      while chain.nodes[node].parent.Some?
        invariant node in chain.nodes && Descends(st, nodeId, node)
        invariant other.nodeId != nodeId && Descends(st, nodeId, other.nodeId) ==> node != other.nodeId && Descends(st, node, other.nodeId)
        invariant node == nodeId || node != other.nodeId
        decreases chain.nodes[node].depth
      {
        assert NodeOk(st, node);
        var parent := chain.nodes[node].parent.value;
        if parent == other.nodeId {
          ParentDescends(st, nodeId, node);
          return true;
        }
        DescendsThrough(st, nodeId, node);
        node := parent;
      }
      return false;
    }
  }

  /** Nothing, or what `Chain.revoke` returned for the node: the newly revoked ids, each once. */
  ghost predicate IsKillOrder(c: ChainState, node: string, cascade: seq<string>) {
    cascade == [] || (Distinct(cascade) && forall id :: id in cascade <==> id in Subtree(c, node) && id !in c.revoked)
  }

  lemma SameKillOrder(c: ChainState, c': ChainState, node: string)
    requires c'.nodes == c.nodes && c'.revoked == c.revoked
    ensures forall cascade :: IsKillOrder(c', node, cascade) <==> IsKillOrder(c, node, cascade)
  {
    hide Distinct, Descends;
    forall id { SameTreeSameDescent(c', c, id, node); }
    assert Subtree(c', node) == Subtree(c, node);
  }

  lemma AddedNode(c: ChainState, parent: string, agent: string, request: Authority, task: string, now: int)
    requires AddChild(c, parent, agent, request, task, now).Ok?
    ensures var nodes := AddChild(c, parent, agent, request, task, now).value.nodes; NodeId(c.chainId, c.nextId) in nodes && parent in nodes
  {
    hide NodeId, IsNarrower;
  }

  /** Above the last ancestor reached there is one more. */
  lemma {:induction false} DescendsThrough(c: ChainState, id: string, a: string)
    requires TreeInv(c) && Descends(c, id, a) && a in c.nodes && c.nodes[a].parent.Some?
    ensures Descends(c, id, c.nodes[a].parent.value)
    decreases c.nodes[id].depth
  {
    assert NodeOk(c, id) && NodeOk(c, a);
    var p := c.nodes[a].parent.value;
    if id == a {
      assert Descends(c, p, p);
    } else {
      DescendsThrough(c, c.nodes[id].parent.value, a);
    }
  }

  lemma ParentDescends(c: ChainState, id: string, a: string)
    requires TreeInv(c) && Descends(c, id, a) && a in c.nodes && c.nodes[a].parent.Some?
    ensures Descends(c, id, c.nodes[a].parent.value) && c.nodes[a].parent.value != id
  {
    DescendsThrough(c, id, a);
    DescentIsAcyclic(c, id, a);
    assert NodeOk(c, a);
  }
}
