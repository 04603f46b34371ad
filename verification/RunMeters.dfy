/** Over whole runs: a meter stays within its limit, a strike count below its own, a ban for ever. */
module RunMeters {
  import opened Results
  import opened PlainJson
  import opened Scopes
  import opened Ceilings
  import opened Authorities
  import opened AuthorityWire
  import opened Numerals
  import opened Reasons
  import opened Meets
  import opened Chains
  import opened Audit
  import opened Ledger
  import opened GuardSteps
  import opened EvidenceRules
  import opened Evidence
  import opened Honest
  import opened HonestCalls
  import opened Runs
  import opened RunCalls
  import opened Completeness

  // ---- keys ---------------------------------------------------------------

  /** A key made of a node id and a suffix names one node and one suffix, whatever the chain id holds. */
  lemma NodeKeyInjective(c: ChainState, x: string, y: string, s: string, t: string)
    requires Numbered(c, x) && Numbered(c, y) && x + " " + s == y + " " + t
    ensures x == y && s == t
  {
    hide Decimal, Digits;
    var i: nat :| i < c.nextId && x == NodeId(c.chainId, i);
    var j: nat :| j < c.nextId && y == NodeId(c.chainId, j);
    var stem := c.chainId + ":n";
    DecimalHasNoSpace(i);
    DecimalHasNoSpace(j);
    assert (x + " " + s)[|stem|..] == Decimal(i) + " " + s;
    assert (y + " " + t)[|stem|..] == Decimal(j) + " " + t;
    SplitAtSpace(Decimal(i), s, Decimal(j), t);
  }

  lemma DecimalHasNoSpace(i: nat)
    ensures ' ' !in Decimal(i)
  {
  }

  // ---- counting -----------------------------------------------------------

  /** How many of the filled limits are counted under `k`. */
  function Occurrences(node: string, filled: seq<Ceiling>, k: string): nat {
    if filled == [] then 0
    else (if MeterKeyFor(node, MeterKey(filled[0])) == k then 1 else 0) + Occurrences(node, filled[1..], k)
  }

  lemma {:induction false} CountAllCounts(calls: map<string, nat>, node: string, filled: seq<Ceiling>, k: string)
    ensures Count(CountAll(calls, node, filled), k) == Count(calls, k) + Occurrences(node, filled, k)
    decreases |filled|
  {
    hide MeterKey;
    if filled != [] {
      var own := MeterKeyFor(node, MeterKey(filled[0]));
      CountAllCounts(calls[own := Count(calls, own) + 1], node, filled[1..], k);
    }
  }

  lemma {:induction false} UncountAllCounts(calls: map<string, nat>, node: string, filled: seq<Ceiling>, k: string)
    ensures Count(UncountAll(calls, node, filled), k) == AtLeastZero(Count(calls, k) - Occurrences(node, filled, k))
    decreases |filled|
  {
    hide MeterKey;
    if filled != [] {
      var own := MeterKeyFor(node, MeterKey(filled[0]));
      UncountAllCounts(calls[own := AtLeastZero(Count(calls, own) - 1)], node, filled[1..], k);
    }
  }

  /** The limits a call of `check` counts: those it filled, once the allow is committed. */
  function CheckFills(hash: Hasher, w: World, node: string, scope: string, o: CheckOptions, env: Environment): seq<Ceiling>
    requires node in w.chain.nodes
  {
    if !OptionsAccepted(w, o) then []
    else
      match Authorize(w, node, scope, o, env.now)
      case None => []
      case Some(a) => if a.decision.allowed && Commits(hash, w, node, scope, o, a, env) then a.metering.filled else []
  }

  predicate Commits(hash: Hasher, w: World, node: string, scope: string, o: CheckOptions, a: Authorized, env: Environment) {
    var d := a.decision.(callId := IdFor(w, env.callId));
    var counted := WithCalls(w, Counted(w, node, a));
    IdAvailable(w, env.callId) && Append(hash, counted, EventOfDecision(d), CheckFields(counted, node, scope, o, a.metering.ctx, d)).1
  }

  lemma CommittedKeepsMeters(hash: Hasher, w: World, node: string, scope: string, o: CheckOptions, d: Decision, env: Environment, cascade: seq<string>)
    ensures CommittedStep(hash, w, node, scope, o, d, env, cascade).0.chain.calls == w.chain.calls
  {
    hide Committed, KillFields, Register, Subtree, StrikeKey;
  }

  lemma UncommittedKeepsMeters(hash: Hasher, w: World, node: string, scope: string, o: CheckOptions, ctx: Context, env: Environment)
    ensures UncommittedStep(hash, w, node, scope, o, ctx, env).0.chain == w.chain
  {
    hide Committed, DecisionFields, Canonicalizable, DISPOSITIONS;
  }

  /** A check counts exactly the limits of a committed allow; one that fails first leaves every meter as it was. */
  lemma CheckMeters(hash: Hasher, w: World, node: string, scope: string, o: CheckOptions, env: Environment, cascade: seq<string>, k: string)
    requires node in w.chain.nodes
    ensures Count(CheckStep(hash, w, node, scope, o, env, cascade).0.chain.calls, k)
            == Count(w.chain.calls, k) + Occurrences(node, CheckFills(hash, w, node, scope, o, env), k)
  {
    hide Authorize, OptionsAccepted, CheckFields, Append, CommittedStep, UncommittedStep, CountAll, UncountAll, EventOfDecision, IdAvailable;
    var a := Authorize(w, node, scope, o, env.now);
    if OptionsAccepted(w, o) && a.Some? {
      var filled := a.value.metering.filled;
      CountAllCounts(w.chain.calls, node, filled, k);
      UncountAllCounts(CountAll(w.chain.calls, node, filled), node, filled, k);
      var counted := WithCalls(w, Counted(w, node, a.value));
      var d := a.value.decision.(callId := IdFor(w, env.callId));
      var fields := CheckFields(counted, node, scope, o, a.value.metering.ctx, d);
      AppendSameTree(hash, counted, EventOfDecision(d), fields);
      var w1 := Append(hash, counted, EventOfDecision(d), fields).0;
      CommittedKeepsMeters(hash, w1, node, scope, o, d, env, cascade);
      UncommittedKeepsMeters(hash, WithCalls(w1, Restored(w, node, a.value)), node, scope, o, a.value.metering.ctx, env);
    }
  }

  /** What a call of the run counts under `k`. */
  function Fills(hash: Hasher, w: World, op: Op, k: string): nat
    requires op.node in w.chain.nodes
  {
    match op
    case Check(node, scope, o, env, _) => Occurrences(node, CheckFills(hash, w, node, scope, o, env), k)
    case _ => 0
  }

  lemma StepMeters(hash: Hasher, w: World, op: Op, k: string)
    requires op.node in w.chain.nodes
    ensures Count(Step(hash, w, op).chain.calls, k) == Count(w.chain.calls, k) + Fills(hash, w, op, k)
  {
    hide CheckStep, CheckFills, Committed, DecisionFields, KillFields, Meet, IsNarrower, Subtree, AgentSubtrees, ReportAccepted,
      PassthroughFields, OutcomeFields, SpawnFields, SpawnDeniedFields, Resolve, NodeId, DelegationError, DISPOSITIONS, Occurrences;
    match op
    case Check(node, scope, o, env, cascade) => CheckMeters(hash, w, node, scope, o, env, cascade, k);
    case _ =>
  }

  /** What a whole run counts under `k`. */
  function TotalFills(hash: Hasher, w: World, ops: seq<Op>, k: string): nat
    requires LegalRun(hash, w, ops)
    decreases |ops|
  {
    if ops == [] then 0 else Fills(hash, w, ops[0], k) + TotalFills(hash, Step(hash, w, ops[0]), ops[1..], k)
  }

  /** The stored meter is the sum of what the calls of the run counted under its key. */
  lemma {:induction false} MeterIsSum(hash: Hasher, w: World, ops: seq<Op>, k: string)
    requires LegalRun(hash, w, ops)
    ensures Count(Replay(hash, w, ops).chain.calls, k) == Count(w.chain.calls, k) + TotalFills(hash, w, ops, k)
    decreases |ops|
  {
    hide Step, LegalCalls, IsCascade, Valid, DefinedBefore, Fills;
    if ops != [] {
      StepMeters(hash, w, ops[0], k);
      MeterIsSum(hash, Step(hash, w, ops[0]), ops[1..], k);
    }
  }

  // ---- the bound ----------------------------------------------------------

  predicate FieldsDistinct(limits: seq<Ceiling>) {
    forall i, j :: 0 <= i < j < |limits| ==> CtxField(limits[i]) != CtxField(limits[j])
  }

  /** The guard declared the limit's own next count to the evaluation. */
  predicate Declares(calls: map<string, nat>, node: string, scope: string, ctx: Context, c: Ceiling) {
    AppliesToScope(c, scope) && Own(ctx, CtxField(c)) == Some(JNum(Count(calls, MeterKeyFor(node, MeterKey(c))) + 1))
  }

  /** The context once the count of one limit is filled in. */
  function Filled(calls: map<string, nat>, node: string, c: Ceiling, scope: string, ctx: Context): Context {
    if Declared(ctx, CtxField(c)).Some? then ctx
    else With(ctx, CtxField(c), JNum(Count(calls, MeterKeyFor(node, MeterKey(c))) + if AppliesToScope(c, scope) then 1 else 0))
  }

  lemma {:induction false} AutoMeterKeeps(calls: map<string, nat>, node: string, limits: seq<Ceiling>, scope: string, ctx: Context, field: string)
    requires forall c :: c in limits ==> CtxField(c) != field
    ensures Own(AutoMeter(calls, node, limits, scope, ctx).ctx, field) == Own(ctx, field)
  {
    hide CtxField, AppliesToScope, MeterKey, Own, With, Declared;
    if limits != [] {
      var c := limits[0];
      OwnWith(ctx, CtxField(c), JNum(Count(calls, MeterKeyFor(node, MeterKey(c))) + if AppliesToScope(c, scope) then 1 else 0), field);
      AutoMeterKeeps(calls, node, limits[1..], scope, Filled(calls, node, c, scope, ctx), field);
    }
  }

  lemma {:induction false} AutoMeterDeclares(calls: map<string, nat>, node: string, limits: seq<Ceiling>, scope: string, ctx: Context)
    requires FieldsDistinct(limits)
    ensures var m := AutoMeter(calls, node, limits, scope, ctx);
            && (forall c :: c in m.filled ==> c in limits && Declares(calls, node, scope, m.ctx, c))
            && FieldsDistinct(m.filled)
  {
    hide CtxField, AppliesToScope, MeterKey, Own, With, Declared;
    if limits != [] {
      var c := limits[0];
      var rest := limits[1..];
      var ctx' := Filled(calls, node, c, scope, ctx);
      AutoMeterDeclares(calls, node, rest, scope, ctx');
      assert forall i :: 0 <= i < |rest| ==> rest[i] == limits[i + 1];
      AutoMeterKeeps(calls, node, rest, scope, ctx', CtxField(c));
      OwnWith(ctx, CtxField(c), JNum(Count(calls, MeterKeyFor(node, MeterKey(c))) + 1), CtxField(c));
    }
  }

  /** Two limits on calls counted under one key are one pattern. */
  lemma SameMeterSamePattern(c: Ceiling, d: Ceiling)
    requires c.CallLimit? && d.CallLimit? && WellFormed(c) && WellFormed(d) && MeterKey(c) == MeterKey(d)
    ensures c.appliesTo == d.appliesTo && KeyOf(c) == KeyOf(d)
  {
    assert !IsScope(P01, "*");
  }

  lemma SameFieldSamePattern(c: Ceiling, d: Ceiling)
    requires c.CallLimit? && d.CallLimit? && CtxField(c) == CtxField(d)
    ensures c.appliesTo == d.appliesTo
  {
    if c.appliesTo.Some? && d.appliesTo.Some? {
      assert CtxField(c)[|"calls["|..|CtxField(c)| - 1] == c.appliesTo.value;
      assert CtxField(d)[|"calls["|..|CtxField(d)| - 1] == d.appliesTo.value;
    }
  }

  /** The limits an authority of built-in ceilings holds on calls read distinct fields. */
  lemma CallLimitsDistinct(a: Authority)
    requires Valid(a) && IsBuiltinAuthority(a)
    ensures FieldsDistinct(CallLimits(a)) && forall c :: c in CallLimits(a) ==> c.CallLimit?
  {
    hide CtxField, KeyOf, Own, CeilingFromWire;
    FilterKeepsPairs(a.ceilings, c => IsCallBound(c), (c, d) => PairKeyOf(a.profile, c) != PairKeyOf(a.profile, d));
    var limits := CallLimits(a);
    assert forall i :: 0 <= i < |limits| ==> limits[i] in limits;
    forall c | c in limits ensures c.CallLimit? { assert IsBuiltin(c); }
    forall i, j | 0 <= i < j < |limits| ensures CtxField(limits[i]) != CtxField(limits[j]) {
      if CtxField(limits[i]) == CtxField(limits[j]) {
        SameFieldSamePattern(limits[i], limits[j]);
        SamePatternSameKey(limits[i], limits[j]);
      }
    }
  }

  lemma SamePatternSameKey(c: Ceiling, d: Ceiling)
    requires c.CallLimit? && d.CallLimit? && c.appliesTo == d.appliesTo
    ensures KeyOf(c) == KeyOf(d)
  {
  }

  /** One call counts under a key at most once, and then for a limit of that key. */
  lemma {:induction false} CountedOnce(node: string, filled: seq<Ceiling>, k: string) returns (c: Option<Ceiling>)
    requires FieldsDistinct(filled) && forall d :: d in filled ==> d.CallLimit? && WellFormed(d)
    ensures c.None? ==> Occurrences(node, filled, k) == 0
    ensures c.Some? ==> Occurrences(node, filled, k) == 1 && c.value in filled && MeterKeyFor(node, MeterKey(c.value)) == k
  {
    hide CtxField, MeterKey, WellFormed;
    if filled == [] { return None; }
    c := CountedOnce(node, filled[1..], k);
    if MeterKeyFor(node, MeterKey(filled[0])) == k {
      if c.Some? {
        assert filled[0] in filled && c.value in filled[1..];
        assert MeterKey(filled[0]) == k[|node| + 1..] && MeterKey(c.value) == k[|node| + 1..];
        SameMeterSamePattern(filled[0], c.value);
        SamePatternSameField(filled[0], c.value);
      }
      c := Some(filled[0]);
    }
  }

  lemma SamePatternSameField(c: Ceiling, d: Ceiling)
    requires c.CallLimit? && d.CallLimit? && c.appliesTo == d.appliesTo
    ensures CtxField(c) == CtxField(d)
  {
  }

  /** A limit whose next count was declared and granted has room for it. */
  lemma GrantedHasRoom(a: Authority, calls: map<string, nat>, node: string, scope: string, ctx: Context, c: Ceiling)
    requires a.profile.P01? && Grants(a, scope, ctx, []) && c in a.ceilings && c.CallLimit? && Declares(calls, node, scope, ctx, c)
    ensures Count(calls, MeterKeyFor(node, MeterKey(c))) + 1 <= c.maxCalls
  {
    hide MeterKey, AppliesToScope, CoversAny;
    assert Admitted(a.profile, c, scope, ctx, []);
    OwnWith(ctx, "_scope", JStr(scope), CtxField(c));
    assert CtxField(c)[0] == 'c' && "_scope"[0] == '_';
  }

  // ---- frames -------------------------------------------------------------

  /** No node changes its authority, bans and revocations only grow, and no node is added. */
  ghost predicate Settles(c: ChainState, c': ChainState) {
    Grows(c, c') && c.banned <= c'.banned && c'.nodes.Keys == c.nodes.Keys
  }

  lemma AppendSettles(hash: Hasher, w: World, event: EventKind, fields: Entry)
    ensures Append(hash, w, event, fields).0.chain == w.chain
  {
    AppendSameTree(hash, w, event, fields);
  }

  lemma CheckSettles(hash: Hasher, w: World, node: string, scope: string, o: CheckOptions, env: Environment, cascade: seq<string>)
    requires node in w.chain.nodes
    ensures Settles(w.chain, CheckStep(hash, w, node, scope, o, env, cascade).0.chain)
  {
    hide Authorize, OptionsAccepted, CheckFields, Append, CommittedStep, UncommittedStep, Counted, Restored, EventOfDecision, IdAvailable;
    var a := Authorize(w, node, scope, o, env.now);
    if OptionsAccepted(w, o) && a.Some? {
      var counted := WithCalls(w, Counted(w, node, a.value));
      var d := a.value.decision.(callId := IdFor(w, env.callId));
      var fields := CheckFields(counted, node, scope, o, a.value.metering.ctx, d);
      AppendSettles(hash, counted, EventOfDecision(d), fields);
      var w1 := Append(hash, counted, EventOfDecision(d), fields).0;
      CommittedSettles(hash, w1, node, scope, o, d, env, cascade);
      UncommittedKeepsMeters(hash, WithCalls(w1, Restored(w, node, a.value)), node, scope, o, a.value.metering.ctx, env);
    }
  }

  lemma CommittedSettles(hash: Hasher, w: World, node: string, scope: string, o: CheckOptions, d: Decision, env: Environment, cascade: seq<string>)
    ensures Settles(w.chain, CommittedStep(hash, w, node, scope, o, d, env, cascade).0.chain)
  {
    hide Committed, KillFields, Register, Subtree, StrikeKey;
  }

  lemma DelegateNodes(hash: Hasher, w: World, op: Op)
    requires op.node in w.chain.nodes && TreeInv(w.chain) && op.Delegate?
    ensures var c := Step(hash, w, op).chain; Grows(w.chain, c) && w.chain.banned == c.banned
  {
    hide Committed, Meet, IsNarrower, SpawnFields, SpawnDeniedFields, NodeId, LinksInv, RevocationClosed, BansHold, DelegationError;
    NextIdIsNew(w.chain);
  }

  lemma OtherSettles(hash: Hasher, w: World, op: Op)
    requires op.node in w.chain.nodes && !op.Delegate? && !op.Check?
    ensures Settles(w.chain, Step(hash, w, op).chain)
  {
    hide Committed, DecisionFields, KillFields, Subtree, AgentSubtrees, ReportAccepted, PassthroughFields, OutcomeFields, Resolve,
      DISPOSITIONS, PendingFor, DoneFields;
  }

  /** No node changes its authority, bans and revocations only grow, and only a delegation adds a node. */
  lemma StepNodes(hash: Hasher, w: World, op: Op)
    requires op.node in w.chain.nodes && TreeInv(w.chain)
    ensures var c := Step(hash, w, op).chain;
            Grows(w.chain, c) && w.chain.banned <= c.banned && (op.Delegate? || c.nodes.Keys == w.chain.nodes.Keys)
  {
    hide TreeInv, CheckStep, Grows;
    match op
    case Delegate(_, _, _, _, _, _) => DelegateNodes(hash, w, op);
    case Check(node, scope, o, env, cascade) => CheckSettles(hash, w, node, scope, o, env, cascade);
    case _ => OtherSettles(hash, w, op);
  }

  /** Every counted key is of a node of the chain. */
  ghost predicate OwnedKeys(c: ChainState, m: map<string, nat>) {
    forall k {:trigger Count(m, k)} :: Count(m, k) > 0 ==> Owned(c, k)
  }

  ghost predicate Owned(c: ChainState, k: string) {
    exists x, s :: x in c.nodes && k == MeterKeyFor(x, s)
  }

  /** No stored meter passes its limit. */
  ghost predicate WithinLimits(c: ChainState) {
    forall x, l {:trigger LimitKept(c, x, l)} :: LimitKept(c, x, l)
  }

  ghost predicate LimitKept(c: ChainState, x: string, l: Ceiling) {
    x in c.nodes && l in c.nodes[x].authority.ceilings && l.CallLimit? ==>
      Count(c.calls, MeterKeyFor(x, MeterKey(l))) <= AtLeastZero(l.maxCalls)
  }

  /** A check on a node counts under a key only for a limit the node holds, once, and with room for it. */
  lemma FillHasRoom(hash: Hasher, w: World, op: Op, x: string, l: Ceiling)
    requires op.node in w.chain.nodes && ChainOk(w.chain) && x in w.chain.nodes
    requires l in w.chain.nodes[x].authority.ceilings && l.CallLimit?
    ensures var k := MeterKeyFor(x, MeterKey(l));
            Fills(hash, w, op, k) == 0 || (Fills(hash, w, op, k) == 1 && Count(w.chain.calls, k) + 1 <= l.maxCalls)
  {
    hide Authorize, Commits, OptionsAccepted, MeterKey, CtxField, Valid, IsNarrower, NodeOk, RevocationClosed, BansHold, IsBuiltinAuthority, Occurrences;
    if op.Check? && OptionsAccepted(w, op.options) && Authorize(w, op.node, op.scope, op.options, op.env.now).Some? {
      var a := Authorize(w, op.node, op.scope, op.options, op.env.now).value;
      if a.decision.allowed { AllowHasRoom(w, op.node, op.scope, op.options, op.env.now, x, l); }
      assert Occurrences(op.node, [], MeterKeyFor(x, MeterKey(l))) == 0 by { NoOccurrence(op.node, MeterKeyFor(x, MeterKey(l))); }
    } else {
      NoOccurrence(op.node, MeterKeyFor(x, MeterKey(l)));
    }
  }

  lemma NoOccurrence(node: string, k: string)
    ensures Occurrences(node, [], k) == 0
  {
  }

  lemma AllowHasRoom(w: World, node: string, scope: string, o: CheckOptions, now: int, x: string, l: Ceiling)
    requires node in w.chain.nodes && ChainOk(w.chain) && x in w.chain.nodes
    requires l in w.chain.nodes[x].authority.ceilings && l.CallLimit?
    requires Authorize(w, node, scope, o, now).Some? && Authorize(w, node, scope, o, now).value.decision.allowed
    ensures var k := MeterKeyFor(x, MeterKey(l));
            var n := Occurrences(node, Authorize(w, node, scope, o, now).value.metering.filled, k);
            n == 0 || (n == 1 && Count(w.chain.calls, k) + 1 <= l.maxCalls)
  {
    hide MeterKey, CtxField, IsNarrower, NodeOk, RevocationClosed, BansHold, Grants, Occurrences, AutoMeter, Evaluate, WellFormed, IsBuiltin, ValidScopes, PairKeyOf;
    var m := Authorize(w, node, scope, o, now).value.metering;
    var a := w.chain.nodes[node].authority;
    var k := MeterKeyFor(x, MeterKey(l));
    AuthorizedIsGranted(w, node, scope, o, now);
    AllowedIsMetered(w, node, scope, o, now);
    CallLimitsDistinct(a);
    AutoMeterDeclares(w.chain.calls, node, CallLimits(a), scope, o.context);
    var c := CountedOnce(node, m.filled, k);
    if c.Some? {
      assert Numbered(w.chain, x) && Numbered(w.chain, node);
      NodeKeyInjective(w.chain, node, x, MeterKey(c.value), MeterKey(l));
      SameMeterSamePattern(c.value, l);
      OneLimitPerKey(a, c.value, l);
      GrantedHasRoom(a, w.chain.calls, node, scope, m.ctx, c.value);
    }
  }

  lemma AllowedIsMetered(w: World, node: string, scope: string, o: CheckOptions, now: int)
    requires node in w.chain.nodes && Authorize(w, node, scope, o, now).Some? && Authorize(w, node, scope, o, now).value.decision.allowed
    ensures Authorize(w, node, scope, o, now).value.metering
            == AutoMeter(w.chain.calls, node, CallLimits(w.chain.nodes[node].authority), scope, o.context)
  {
    hide AutoMeter, Evaluate, CallLimits;
  }

  lemma OneLimitPerKey(a: Authority, c: Ceiling, d: Ceiling)
    requires Valid(a) && a.profile.P01? && c in a.ceilings && d in a.ceilings && KeyOf(c) == KeyOf(d)
    ensures c == d
  {
    hide KeyOf, WellFormed, ValidScopes;
    var i :| 0 <= i < |a.ceilings| && a.ceilings[i] == c;
    var j :| 0 <= j < |a.ceilings| && a.ceilings[j] == d;
    assert PairKeyOf(a.profile, a.ceilings[i]) == PairKeyOf(a.profile, a.ceilings[j]);
  }

  // ---- strikes ------------------------------------------------------------

  /** What one denial may do to the strikes: nothing, or one more under the node's own key. */
  ghost predicate StrikesNext(c: ChainState, c': ChainState, p: StrikePolicy, node: string, scope: string) {
    c'.strikes == c.strikes ||
    (var key := StrikeKey(p, node, scope);
     && c'.strikes == c.strikes[key := Count(c.strikes, key) + 1]
     && (Count(c.strikes, key) + 1 < p.n || node in c'.revoked || node !in c'.nodes))
  }

  ghost predicate StrikesMove(c: ChainState, c': ChainState, policy: Option<StrikePolicy>, op: Op) {
    c'.strikes == c.strikes || (op.Check? && policy.Some? && StrikesNext(c, c', policy.value, op.node, op.scope))
  }

  lemma OwnSubtree(c: ChainState, node: string)
    requires node in c.nodes
    ensures node in Subtree(c, node)
  {
  }

  lemma StrikeStrikes(hash: Hasher, w: World, node: string, scope: string, d: Decision, killPersists: bool, cascade: seq<string>)
    requires node in w.chain.nodes
    ensures var c := StrikeStep(hash, w, node, scope, d, killPersists, cascade).0.chain;
            c.strikes == w.chain.strikes || (w.cfg.strikes.Some? && StrikesNext(w.chain, c, w.cfg.strikes.value, node, scope))
  {
    hide Committed, KillFields, StrikeKey, Subtree;
    forall c: ChainState | node in c.nodes ensures node in Subtree(c, node) { OwnSubtree(c, node); }
  }

  lemma CommittedStrikes(hash: Hasher, w: World, node: string, scope: string, o: CheckOptions, d: Decision, env: Environment, cascade: seq<string>)
    requires node in w.chain.nodes
    ensures var c := CommittedStep(hash, w, node, scope, o, d, env, cascade).0.chain;
            c.strikes == w.chain.strikes || (w.cfg.strikes.Some? && StrikesNext(w.chain, c, w.cfg.strikes.value, node, scope))
  {
    hide StrikeStep, Register, StrikeKey, CaptureUsed;
    StrikeStrikes(hash, Registered(w, node, o, d), node, scope, d, env.killPersists, cascade);
  }

  lemma CheckStrikes(hash: Hasher, w: World, node: string, scope: string, o: CheckOptions, env: Environment, cascade: seq<string>)
    requires node in w.chain.nodes
    ensures var c := CheckStep(hash, w, node, scope, o, env, cascade).0.chain;
            c.strikes == w.chain.strikes || (w.cfg.strikes.Some? && StrikesNext(w.chain, c, w.cfg.strikes.value, node, scope))
  {
    hide Authorize, OptionsAccepted, CheckFields, Append, CommittedStep, UncommittedStep, Counted, Restored, EventOfDecision, IdAvailable, StrikeKey;
    var a := Authorize(w, node, scope, o, env.now);
    if OptionsAccepted(w, o) && a.Some? {
      var counted := WithCalls(w, Counted(w, node, a.value));
      var d := a.value.decision.(callId := IdFor(w, env.callId));
      var fields := CheckFields(counted, node, scope, o, a.value.metering.ctx, d);
      AppendSameTree(hash, counted, EventOfDecision(d), fields);
      var w1 := Append(hash, counted, EventOfDecision(d), fields).0;
      CommittedStrikes(hash, w1, node, scope, o, d, env, cascade);
      UncommittedKeepsMeters(hash, WithCalls(w1, Restored(w, node, a.value)), node, scope, o, a.value.metering.ctx, env);
    }
  }

  lemma OtherStrikes(hash: Hasher, w: World, op: Op)
    requires op.node in w.chain.nodes && !op.Check?
    ensures Step(hash, w, op).chain.strikes == w.chain.strikes
  {
    hide Committed, DecisionFields, KillFields, Subtree, AgentSubtrees, ReportAccepted, PassthroughFields, OutcomeFields, Resolve,
      DISPOSITIONS, PendingFor, DoneFields, Meet, IsNarrower, SpawnFields, SpawnDeniedFields, NodeId, DelegationError;
  }

  lemma StepStrikes(hash: Hasher, w: World, op: Op)
    requires op.node in w.chain.nodes
    ensures StrikesMove(w.chain, Step(hash, w, op).chain, w.cfg.strikes, op)
  {
    hide CheckStep, StrikesNext;
    match op
    case Check(node, scope, o, env, cascade) => CheckStrikes(hash, w, node, scope, o, env, cascade);
    case _ => OtherStrikes(hash, w, op);
  }

  /** An unrevoked node is below the policy's limit under each of its keys. */
  ghost predicate BelowLimit(c: ChainState, p: StrikePolicy) {
    forall x, scope {:trigger StrikeKey(p, x, scope)} ::
      x in c.nodes && x !in c.revoked ==> Count(c.strikes, StrikeKey(p, x, scope)) < p.n
  }

  // ---- the invariant over runs --------------------------------------------

  ghost predicate MeterInv(w: World) {
    && OwnedKeys(w.chain, w.chain.calls) && OwnedKeys(w.chain, w.chain.strikes)
    && WithinLimits(w.chain)
    && (w.cfg.strikes.Some? && w.cfg.strikes.value.n >= 1 ==> BelowLimit(w.chain, w.cfg.strikes.value))
  }

  /** A key of a node that is not on the chain has not been counted. */
  lemma NewKeyIsUncounted(c: ChainState, c': ChainState, m: map<string, nat>, x: string, s: string)
    requires OwnedKeys(c, m) && x !in c.nodes && x in c'.nodes && c.nodes.Keys <= c'.nodes.Keys
    requires forall id {:trigger Numbered(c', id)} :: id in c'.nodes ==> Numbered(c', id)
    ensures Count(m, MeterKeyFor(x, s)) == 0
  {
    hide Numbered;
    var k := MeterKeyFor(x, s);
    if Count(m, k) > 0 {
      assert Owned(c, k);
      var y, t :| y in c.nodes && k == MeterKeyFor(y, t);
      assert Numbered(c', x) && Numbered(c', y);
      NodeKeyInjective(c', x, y, s, t);
    }
  }

  lemma {:induction false} OccurrenceIsOwned(node: string, filled: seq<Ceiling>, k: string)
    requires Occurrences(node, filled, k) > 0
    ensures exists s :: k == MeterKeyFor(node, s)
  {
    if MeterKeyFor(node, MeterKey(filled[0])) != k { OccurrenceIsOwned(node, filled[1..], k); }
  }

  lemma FillIsOwned(hash: Hasher, w: World, op: Op, k: string)
    requires op.node in w.chain.nodes && Fills(hash, w, op, k) > 0
    ensures Owned(w.chain, k)
  {
    hide CheckFills, Occurrences;
    OccurrenceIsOwned(op.node, CheckFills(hash, w, op.node, op.scope, op.options, op.env), k);
  }

  lemma CallKeysStayOwned(hash: Hasher, w: World, op: Op)
    requires op.node in w.chain.nodes && OwnedKeys(w.chain, w.chain.calls) && Grows(w.chain, Step(hash, w, op).chain)
    ensures var c := Step(hash, w, op).chain; OwnedKeys(c, c.calls)
  {
    hide Step, Fills;
    var c := Step(hash, w, op).chain;
    forall k | Count(c.calls, k) > 0 ensures Owned(c, k) {
      StepMeters(hash, w, op, k);
      if Fills(hash, w, op, k) > 0 { FillIsOwned(hash, w, op, k); }
      assert Owned(w.chain, k);
    }
  }

  lemma StrikeKeysStayOwned(c: ChainState, c': ChainState, policy: Option<StrikePolicy>, op: Op)
    requires op.node in c.nodes && OwnedKeys(c, c.strikes) && Grows(c, c') && StrikesMove(c, c', policy, op)
    ensures OwnedKeys(c', c'.strikes)
  {
    forall k | Count(c'.strikes, k) > 0 ensures Owned(c', k) {
      if c'.strikes == c.strikes || k != StrikeKey(policy.value, op.node, op.scope) {
        assert Count(c.strikes, k) > 0 && Owned(c, k);
      } else {
        var s := if policy.value.sameScope then op.scope else "*";
        assert op.node in c'.nodes && k == MeterKeyFor(op.node, s);
      }
    }
  }

  lemma LimitsStayKept(hash: Hasher, w: World, op: Op)
    requires op.node in w.chain.nodes && ChainOk(w.chain) && OwnedKeys(w.chain, w.chain.calls) && WithinLimits(w.chain)
    requires var c := Step(hash, w, op).chain; Grows(w.chain, c) && LinksInv(c) && (op.Delegate? || c.nodes.Keys == w.chain.nodes.Keys)
    ensures WithinLimits(Step(hash, w, op).chain)
  {
    hide Step, ChainOk, Fills, OwnedKeys, MeterKey, NodeOk, Numbered;
    var c := Step(hash, w, op).chain;
    forall x, l ensures LimitKept(c, x, l) {
      if x in c.nodes && l in c.nodes[x].authority.ceilings && l.CallLimit? {
        var k := MeterKeyFor(x, MeterKey(l));
        StepMeters(hash, w, op, k);
        if x in w.chain.nodes {
          assert LimitKept(w.chain, x, l);
          FillHasRoom(hash, w, op, x, l);
        } else {
          NewKeyIsUncounted(w.chain, c, w.chain.calls, x, MeterKey(l));
          DelegationFillsNothing(hash, w, op, k);
        }
      }
    }
  }

  lemma DelegationFillsNothing(hash: Hasher, w: World, op: Op, k: string)
    requires op.node in w.chain.nodes && op.Delegate?
    ensures Fills(hash, w, op, k) == 0
  {
  }

  lemma StaysBelowLimit(c: ChainState, c': ChainState, p: StrikePolicy, op: Op)
    requires op.node in c.nodes && OwnedKeys(c, c.strikes) && BelowLimit(c, p) && p.n >= 1 && Grows(c, c') && LinksInv(c')
    requires StrikesMove(c, c', Some(p), op)
    ensures BelowLimit(c', p)
  {
    hide OwnedKeys, NodeOk, Numbered, StrikesMove, StrikeKey, LinksInv, Grows;
    forall x, scope | x in c'.nodes && x !in c'.revoked ensures Count(c'.strikes, StrikeKey(p, x, scope)) < p.n {
      StrikeStaysBelow(c, c', p, op, x, scope);
    }
  }

  lemma StrikeKeyIsNodeKey(p: StrikePolicy, x: string, scope: string)
    ensures StrikeKey(p, x, scope) == x + " " + (if p.sameScope then scope else "*")
  {
    assert x + " *" == x + " " + "*";
  }

  lemma StrikeStaysBelow(c: ChainState, c': ChainState, p: StrikePolicy, op: Op, x: string, scope: string)
    requires op.node in c.nodes && OwnedKeys(c, c.strikes) && BelowLimit(c, p) && p.n >= 1 && Grows(c, c') && LinksInv(c')
    requires StrikesMove(c, c', Some(p), op) && x in c'.nodes && x !in c'.revoked
    ensures Count(c'.strikes, StrikeKey(p, x, scope)) < p.n
  {
    hide NodeOk, Numbered, OwnedKeys, StrikeKey;
    assert Numbered(c', x) && Numbered(c', op.node);
    var s := if p.sameScope then scope else "*";
    StrikeKeyIsNodeKey(p, x, scope);
    if x !in c.nodes { NewKeyIsUncounted(c, c', c.strikes, x, s); }
    if op.Check? {
      StrikeKeyIsNodeKey(p, op.node, op.scope);
      if StrikeKey(p, x, scope) == StrikeKey(p, op.node, op.scope) {
        NodeKeyInjective(c', x, op.node, s, if p.sameScope then op.scope else "*");
      }
    }
  }

  lemma StepKeepsMeters(hash: Hasher, w: World, op: Op)
    requires RunInv(hash, w) && Callable(w, op) && MeterInv(w)
    ensures MeterInv(Step(hash, w, op))
  {
    hide Step, CallInv, LegalCalls, IsCascade, Valid, LogOk, EntriesOk, DefinitionsTied, KillsTied, OwnedKeys, WithinLimits, BelowLimit,
      StrikesMove, Grows, NodeOk, Numbered, Attenuated, AllBuiltin, RevocationClosed, BansHold, DefinedBefore;
    StepKeepsRun(hash, w, op);
    StepNodes(hash, w, op);
    StepStrikes(hash, w, op);
    CallKeysStayOwned(hash, w, op);
    LimitsStayKept(hash, w, op);
    var c := Step(hash, w, op).chain;
    StrikeKeysStayOwned(w.chain, c, w.cfg.strikes, op);
    if w.cfg.strikes.Some? && w.cfg.strikes.value.n >= 1 { StaysBelowLimit(w.chain, c, w.cfg.strikes.value, op); }
  }

  lemma {:induction false} ReplayKeepsMeters(hash: Hasher, w: World, ops: seq<Op>)
    requires RunInv(hash, w) && MeterInv(w) && LegalRun(hash, w, ops)
    ensures MeterInv(Replay(hash, w, ops))
    decreases |ops|
  {
    hide RunInv, MeterInv, Step, LegalCalls, IsCascade, Valid, DefinedBefore;
    if ops != [] {
      StepKeepsRun(hash, w, ops[0]);
      StepKeepsMeters(hash, w, ops[0]);
      ReplayKeepsMeters(hash, Step(hash, w, ops[0]), ops[1..]);
    }
  }

  lemma IssueKeepsMeters(hash: Hasher, s: Setup)
    requires IssueStep(hash, s).Some?
    ensures MeterInv(IssueStep(hash, s).value)
  {
    hide Committed, RootFields, NodeId, MeterKey, StrikeKey;
    AppendSameTree(hash, Fresh(s), EventRoot, RootFields(s.chainId, NodeId(s.chainId, 0), s.agent, s.authority, s.cfg));
  }

  lemma ReachableMeters(hash: Hasher, s: Setup, w: World)
    requires Reachable(hash, s, w)
    ensures MeterInv(w) && RunInv(hash, w) && w.cfg == s.cfg
  {
    hide Issuable, IssueStep, RunInv, MeterInv, LegalRun, Replay;
    ReachableKeeps(hash, s, w);
    IssueStarts(hash, s);
    IssueKeepsMeters(hash, s);
    var ops :| EndsAt(hash, IssueStep(hash, s).value, ops, w);
    ReplayKeepsMeters(hash, IssueStep(hash, s).value, ops);
  }

  // ---- the main results ---------------------------------------------------

  /** In every reachable state the stored meter of a held call limit is at most max(0, limit). */
  lemma MetersNeverExceed(hash: Hasher, s: Setup, w: World, node: string, l: Ceiling)
    requires Reachable(hash, s, w) && node in w.chain.nodes && l in w.chain.nodes[node].authority.ceilings && l.CallLimit?
    ensures Count(w.chain.calls, MeterKeyFor(node, MeterKey(l))) <= AtLeastZero(l.maxCalls)
  {
    hide Reachable, RunInv, OwnedKeys, BelowLimit, MeterKey;
    ReachableMeters(hash, s, w);
    assert LimitKept(w.chain, node, l);
  }

  /** With an enabled strike policy no unrevoked node ever has `n` or more counted denials under one key. */
  lemma StrikesNeverReach(hash: Hasher, s: Setup, w: World, node: string, scope: string)
    requires Reachable(hash, s, w) && s.cfg.strikes.Some? && s.cfg.strikes.value.n >= 1
    requires node in w.chain.nodes && node !in w.chain.revoked
    ensures Count(w.chain.strikes, StrikeKey(s.cfg.strikes.value, node, scope)) < s.cfg.strikes.value.n
  {
    hide Reachable, RunInv, OwnedKeys, WithinLimits, StrikeKey;
    ReachableMeters(hash, s, w);
  }

  lemma {:induction false} BansGrow(hash: Hasher, w: World, ops: seq<Op>)
    requires RunInv(hash, w) && LegalRun(hash, w, ops)
    ensures w.chain.banned <= Replay(hash, w, ops).chain.banned
    decreases |ops|
  {
    hide Step, CallInv, LegalCalls, IsCascade, Valid, LogOk, EntriesOk, DefinitionsTied, KillsTied, Grows, LinksInv, Attenuated, AllBuiltin,
      RevocationClosed, BansHold, DefinedBefore;
    if ops != [] {
      StepKeepsRun(hash, w, ops[0]);
      StepNodes(hash, w, ops[0]);
      BansGrow(hash, Step(hash, w, ops[0]), ops[1..]);
    }
  }

  lemma {:induction false} BannedByRun(hash: Hasher, w: World, ops: seq<Op>, i: nat)
    requires RunInv(hash, w) && LegalRun(hash, w, ops) && i < |ops| && ops[i].RevokeAgent?
    ensures ops[i].agent in Replay(hash, w, ops).chain.banned
    decreases |ops|
  {
    hide Step, RunInv, LegalCalls, IsCascade, Valid, DefinedBefore;
    StepKeepsRun(hash, w, ops[0]);
    if i == 0 {
      RevokeAgentBans(hash, w, ops[0]);
      BansGrow(hash, Step(hash, w, ops[0]), ops[1..]);
    } else {
      BannedByRun(hash, Step(hash, w, ops[0]), ops[1..], i - 1);
    }
  }

  /** Once a run has called `revokeAgent(a)`, no state it reaches has an unrevoked node held by `a`. */
  lemma BanIsForever(hash: Hasher, s: Setup, ops: seq<Op>, i: nat, w: World, node: string)
    requires Issuable(s) && IssueStep(hash, s).Some? && EndsAt(hash, IssueStep(hash, s).value, ops, w)
    requires i < |ops| && ops[i].RevokeAgent? && node in w.chain.nodes && w.chain.nodes[node].agent == ops[i].agent
    ensures node in w.chain.revoked
  {
    hide Issuable, IssueStep, RunInv, LegalRun, Replay;
    IssueStarts(hash, s);
    ReplayKeeps(hash, IssueStep(hash, s).value, ops);
    BannedByRun(hash, IssueStep(hash, s).value, ops, i);
    BansHoldIn(hash, w, ops[i].agent, node);
  }

  lemma RevokeAgentBans(hash: Hasher, w: World, op: Op)
    requires op.node in w.chain.nodes && op.RevokeAgent?
    ensures op.agent in Step(hash, w, op).chain.banned
  {
    hide Committed, KillFields, AgentSubtrees;
  }

  lemma BansHoldIn(hash: Hasher, w: World, agent: string, node: string)
    requires RunInv(hash, w) && agent in w.chain.banned && node in w.chain.nodes && w.chain.nodes[node].agent == agent
    ensures node in w.chain.revoked
  {
    hide CallInv, LogOk, EntriesOk, DefinitionsTied, KillsTied, LinksInv, Attenuated, AllBuiltin, RevocationClosed;
  }
}
