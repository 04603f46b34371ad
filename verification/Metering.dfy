/**
 * What the meters count over a run (src/guard.ts, src/chain.ts): the stored meter of a held call limit is the number
 * of gated allow entries the guard wrote on its node for calls the limit applies to and the caller left uncounted.
 * First what a step appends, then what one check counts, then whole runs.
 */
module Metering {
  import opened Results
  import opened PlainJson
  import opened Scopes
  import opened Ceilings
  import opened Authorities
  import opened AuthorityWire
  import opened Reasons
  import opened Meets
  import opened Chains
  import opened Audit
  import opened Ledger
  import opened GuardSteps
  import opened EvidenceRules
  import opened Evidence
  import opened Honest
  import opened Runs
  import opened RunCalls
  import opened Completeness
  import opened RunMeters

  // ---- a step only appends ------------------------------------------------

  predicate Extends(x: seq<Entry>, y: seq<Entry>) {
    |x| <= |y| && y[..|x|] == x
  }

  lemma ExtendsFurther(x: seq<Entry>, y: seq<Entry>, z: seq<Entry>)
    requires Extends(x, y) && Extends(y, z)
    ensures Extends(x, z)
  {
    assert z[..|x|] == z[..|y|][..|x|];
  }

  lemma StrikeExtends(hash: Hasher, w: World, node: string, scope: string, d: Decision, killPersists: bool, cascade: seq<string>)
    ensures Extends(w.entries, StrikeStep(hash, w, node, scope, d, killPersists, cascade).0.entries)
  {
    hide Committed, KillFields, Subtree, StrikeKey;
  }

  lemma CommittedExtends(hash: Hasher, w: World, node: string, scope: string, o: CheckOptions, d: Decision, env: Environment, cascade: seq<string>)
    ensures Extends(w.entries, CommittedStep(hash, w, node, scope, o, d, env, cascade).0.entries)
  {
    hide StrikeStep, Register;
    StrikeExtends(hash, Registered(w, node, o, d), node, scope, d, env.killPersists, cascade);
  }

  /** What a call of `check` may append when it does not append its decision: a denial. */
  lemma UncommittedExtends(hash: Hasher, w: World, node: string, scope: string, o: CheckOptions, ctx: Context, env: Environment)
    ensures var x := UncommittedStep(hash, w, node, scope, o, ctx, env).0.entries;
            Extends(w.entries, x) && (|x| > |w.entries| ==> EventOf(x[|w.entries|]) == Some(EventDeny))
  {
    hide Append, DecisionFields, Canonicalizable, DISPOSITIONS, CALL_FIELDS;
    if !Canonicalizable(JObj(ctx)) && IdAvailable(w, env.fallbackId) {
      var d := Denied(Reason(NoAuthority, Some("context"))).(callId := IdFor(w, env.fallbackId));
      var extra := match d.callId case Some(id) => map[FCallId := JStr(id)] case None => map[];
      var fields := DecisionFields(w.chain.chainId, node, d, scope, o.tool, [], Some("unresolved")) + extra;
      CallIdIsCallField();
      DecisionNotFraming(w.chain.chainId, node, d, scope, o.tool, [], Some("unresolved"), extra);
      AppendWrites(hash, w, EventDeny, fields);
    }
  }

  /** A committed append writes one entry of its event and fields. */
  lemma AppendWrites(hash: Hasher, w: World, event: EventKind, fields: Entry)
    requires fields.Keys !! FRAMING
    ensures var (w', committed) := Append(hash, w, event, fields);
            && Extends(w.entries, w'.entries) && |w'.entries| == |w.entries| + (if committed then 1 else 0)
            && (committed ==> Carries(w, event, fields, w'.entries[|w.entries|]))
  {
    hide Append, Carries, FRAMING;
    var c := Appended(hash, w, event, fields);
  }

  // ---- what a check writes ------------------------------------------------

  /** The call's first entry is an allow on the node that the chain authorized. */
  predicate WritesAllow(w: World, w': World, node: string) {
    |w'.entries| > |w.entries| && IsGated(w'.entries[|w.entries|]) && TextOf(w'.entries[|w.entries|], FNode) == Some(node)
  }

  /** A check that authorizes and commits writes a gated allow on its node. */
  predicate CommitsAllow(hash: Hasher, w: World, node: string, scope: string, o: CheckOptions, env: Environment)
    requires node in w.chain.nodes
  {
    OptionsAccepted(w, o) &&
    match Authorize(w, node, scope, o, env.now)
    case None => false
    case Some(a) => a.decision.allowed && Commits(hash, w, node, scope, o, a, env)
  }

  lemma DecisionEntry(w: World, node: string, scope: string, o: CheckOptions, ctx: Context, d: Decision, e: Entry)
    requires Carries(w, EventOfDecision(d), CheckFields(w, node, scope, o, ctx, d), e)
    ensures IsGated(e) == d.allowed && TextOf(e, FNode) == Some(node) && TextOf(e, FScope) == Some(scope)
  {
    var fields := CheckFields(w, node, scope, o, ctx, d);
    CheckNotFraming(w, node, scope, o, ctx, d);
    DecisionHasNoCall(w.chain.chainId, node, d, scope, o.tool, ctx, o.disposition);
    CallFieldsAre(w, d, o, d.callId);
    hide CheckFields, DecisionFields, CallFields, EventOf;
    FramingIsDisjoint();
    NoPolicyIn(w, node, scope, o, ctx, d);
  }

  lemma NoPolicyIn(w: World, node: string, scope: string, o: CheckOptions, ctx: Context, d: Decision)
    ensures var fields := CheckFields(w, node, scope, o, ctx, d);
            FPolicy !in fields && TextOf(fields, FNode) == Some(node) && TextOf(fields, FScope) == Some(scope)
  {
    CheckNotFraming(w, node, scope, o, ctx, d);
    DecisionHasNoCall(w.chain.chainId, node, d, scope, o.tool, ctx, o.disposition);
    DecisionFieldsAre(w.chain.chainId, node, d, scope, o.tool, ctx, o.disposition);
    CallFieldsAre(w, d, o, d.callId);
    hide DecisionFields, CallFields;
  }

  lemma CheckWrites(hash: Hasher, w: World, node: string, scope: string, o: CheckOptions, env: Environment, cascade: seq<string>)
    requires node in w.chain.nodes
    ensures var w' := CheckStep(hash, w, node, scope, o, env, cascade).0;
            Extends(w.entries, w'.entries) && (WritesAllow(w, w', node) <==> CommitsAllow(hash, w, node, scope, o, env))
            && (WritesAllow(w, w', node) ==> TextOf(w'.entries[|w.entries|], FScope) == Some(scope))
            && forall x :: x != node ==> !WritesAllow(w, w', x)
  {
    hide Authorize, OptionsAccepted, CheckFields, Append, CommittedStep, UncommittedStep, CountAll, UncountAll, IdAvailable, Carries, IsGated, EventOf;
    var a := Authorize(w, node, scope, o, env.now);
    if OptionsAccepted(w, o) && a.Some? && IdAvailable(w, env.callId) {
      var counted := WithCalls(w, Counted(w, node, a.value));
      var d := a.value.decision.(callId := IdFor(w, env.callId));
      var fields := CheckFields(counted, node, scope, o, a.value.metering.ctx, d);
      CheckNotFraming(counted, node, scope, o, a.value.metering.ctx, d);
      AppendWrites(hash, counted, EventOfDecision(d), fields);
      var w1 := Append(hash, counted, EventOfDecision(d), fields).0;
      CommittedExtends(hash, w1, node, scope, o, d, env, cascade);
      UncommittedExtends(hash, WithCalls(w1, Restored(w, node, a.value)), node, scope, o, a.value.metering.ctx, env);
      if Append(hash, counted, EventOfDecision(d), fields).1 {
        DecisionEntry(counted, node, scope, o, a.value.metering.ctx, d, w1.entries[|w.entries|]);
        FirstStays(w.entries, w1.entries, CommittedStep(hash, w1, node, scope, o, d, env, cascade).0.entries);
      } else {
        DenyIsNotGated(UncommittedStep(hash, WithCalls(w1, Restored(w, node, a.value)), node, scope, o, a.value.metering.ctx, env).0.entries, |w.entries|);
      }
    }
  }

  lemma DenyIsNotGated(x: seq<Entry>, n: nat)
    ensures n < |x| && EventOf(x[n]) == Some(EventDeny) ==> !IsGated(x[n])
  {
  }

  lemma FirstStays(x: seq<Entry>, y: seq<Entry>, z: seq<Entry>)
    requires Extends(x, y) && |y| == |x| + 1 && Extends(y, z)
    ensures Extends(x, z) && |z| > |x| && z[|x|] == y[|x|]
  {
    ExtendsFurther(x, y, z);
    assert z[..|y|][|x|] == y[|x|];
  }

  lemma StepExtends(hash: Hasher, w: World, op: Op)
    requires op.node in w.chain.nodes
    ensures Extends(w.entries, Step(hash, w, op).entries)
  {
    hide CheckStep, Committed, DecisionFields, KillFields, Meet, IsNarrower, Subtree, AgentSubtrees, ReportAccepted,
      PassthroughFields, OutcomeFields, SpawnFields, SpawnDeniedFields, Resolve, NodeId, DelegationError, DISPOSITIONS, PendingFor, DoneFields;
    match op
    case Check(node, scope, o, env, cascade) => CheckWrites(hash, w, node, scope, o, env, cascade);
    case _ =>
  }

  // ---- one check, one count -----------------------------------------------

  /** A limit is filled exactly when it applies and the caller did not declare its count. */
  lemma {:induction false} AutoMeterFills(calls: map<string, nat>, node: string, limits: seq<Ceiling>, scope: string, ctx: Context, c: Ceiling)
    requires FieldsDistinct(limits) && c in limits
    ensures c in AutoMeter(calls, node, limits, scope, ctx).filled <==> AppliesToScope(c, scope) && Declared(ctx, CtxField(c)).None?
  {
    hide CtxField, AppliesToScope, MeterKey, Own, With;
    var first, rest := limits[0], limits[1..];
    var ctx' := Filled(calls, node, first, scope, ctx);
    assert forall i :: 0 <= i < |rest| ==> rest[i] == limits[i + 1];
    AutoMeterDeclares(calls, node, rest, scope, ctx');
    if c in rest {
      var i :| 0 <= i < |rest| && rest[i] == c;
      assert CtxField(limits[0]) != CtxField(limits[i + 1]);
      OwnWith(ctx, CtxField(first), JNum(Count(calls, MeterKeyFor(node, MeterKey(first))) + if AppliesToScope(first, scope) then 1 else 0), CtxField(c));
      AutoMeterFills(calls, node, rest, scope, ctx', c);
    } else {
      assert forall d :: d in AutoMeter(calls, node, rest, scope, ctx').filled ==> d in rest;
    }
  }

  /** The limit's key is counted exactly when the limit was filled. */
  lemma FilledIsCounted(w: World, node: string, scope: string, o: CheckOptions, now: int, l: Ceiling)
    requires node in w.chain.nodes && ChainOk(w.chain) && l in w.chain.nodes[node].authority.ceilings && l.CallLimit?
    requires Authorize(w, node, scope, o, now).Some? && Authorize(w, node, scope, o, now).value.decision.allowed
    ensures Occurrences(node, Authorize(w, node, scope, o, now).value.metering.filled, MeterKeyFor(node, MeterKey(l)))
            == if AppliesToScope(l, scope) && Declared(o.context, CtxField(l)).None? then 1 else 0
  {
    hide MeterKey, CtxField, IsNarrower, NodeOk, RevocationClosed, BansHold, Grants, Occurrences, AutoMeter, Evaluate, WellFormed, IsBuiltin,
      ValidScopes, PairKeyOf, AppliesToScope, Declared, Authorize;
    var a := w.chain.nodes[node].authority;
    var limits := CallLimits(a);
    AuthorizedIsGranted(w, node, scope, o, now);
    AllowedIsMetered(w, node, scope, o, now);
    CallLimitsDistinct(a);
    AutoMeterDeclares(w.chain.calls, node, limits, scope, o.context);
    AutoMeterFills(w.chain.calls, node, limits, scope, o.context, l);
    OccursIff(a, node, Authorize(w, node, scope, o, now).value.metering.filled, l);
  }

  lemma OccursIff(a: Authority, node: string, filled: seq<Ceiling>, l: Ceiling)
    requires Valid(a) && a.profile.P01? && l in a.ceilings && l.CallLimit?
    requires FieldsDistinct(filled) && forall c :: c in filled ==> c in a.ceilings && c.CallLimit?
    ensures Occurrences(node, filled, MeterKeyFor(node, MeterKey(l))) == if l in filled then 1 else 0
  {
    hide MeterKey, CtxField, WellFormed, ValidScopes, Occurrences, PairKeyOf;
    var k := MeterKeyFor(node, MeterKey(l));
    assert forall c :: c in filled ==> WellFormed(c);
    var c := CountedOnce(node, filled, k);
    if c.Some? {
      assert MeterKey(c.value) == k[|node| + 1..] && MeterKey(l) == k[|node| + 1..];
      SameMeterSamePattern(c.value, l);
      OneLimitPerKey(a, c.value, l);
    }
    if l in filled { OccursIfFilled(node, filled, l); }
  }

  lemma {:induction false} OccursIfFilled(node: string, filled: seq<Ceiling>, l: Ceiling)
    requires l in filled
    ensures Occurrences(node, filled, MeterKeyFor(node, MeterKey(l))) > 0
  {
    hide MeterKey;
    if filled[0] != l { OccursIfFilled(node, filled[1..], l); }
  }

  /** The call is a check on `x` that writes a gated allow there, to which `l` applies and whose count the caller left undeclared. */
  predicate Counts(hash: Hasher, w: World, op: Op, x: string, l: Ceiling)
    requires op.node in w.chain.nodes
  {
    && op.Check? && op.node == x && WritesAllow(w, Step(hash, w, op), x)
    && AppliesToScope(l, op.scope) && Declared(op.options.context, CtxField(l)).None?
  }

  lemma CheckCounts(hash: Hasher, w: World, op: Op, l: Ceiling)
    requires op.Check? && op.node in w.chain.nodes && ChainOk(w.chain) && l in w.chain.nodes[op.node].authority.ceilings && l.CallLimit?
    ensures Fills(hash, w, op, MeterKeyFor(op.node, MeterKey(l))) == if Counts(hash, w, op, op.node, l) then 1 else 0
  {
    hide ChainOk, CheckStep, Authorize, Commits, OptionsAccepted, MeterKey, CtxField, AppliesToScope, Declared, WritesAllow, Occurrences;
    var k := MeterKeyFor(op.node, MeterKey(l));
    CheckWrites(hash, w, op.node, op.scope, op.options, op.env, op.cascade);
    NoOccurrence(op.node, k);
    if CommitsAllow(hash, w, op.node, op.scope, op.options, op.env) {
      FilledIsCounted(w, op.node, op.scope, op.options, op.env.now, l);
    }
  }

  /** A key of one node is not counted by a check on another. */
  lemma OtherCountsNothing(hash: Hasher, w: World, op: Op, x: string, s: string, c: ChainState)
    requires op.node in w.chain.nodes && op.node != x && Numbered(c, op.node) && Numbered(c, x)
    ensures Fills(hash, w, op, MeterKeyFor(x, s)) == 0
  {
    hide CheckFills, Numbered;
    match op
    case Check(node, scope, o, env, _) =>
      if Fills(hash, w, op, MeterKeyFor(x, s)) > 0 {
        OccurrenceIsOwned(node, CheckFills(hash, w, node, scope, o, env), MeterKeyFor(x, s));
        var t :| MeterKeyFor(x, s) == MeterKeyFor(node, t);
        NodeKeyInjective(c, x, node, s, t);
      }
    case _ =>
  }

  /** `c` is a chain the run comes to: `x` holds `l` there. */
  ghost predicate Comes(w: World, c: ChainState, x: string, l: Ceiling) {
    && Grows(w.chain, c) && LinksInv(c) && x in c.nodes && l in c.nodes[x].authority.ceilings && l.CallLimit?
  }

  /** Every call counts under the key of a held limit once or not at all, and once exactly when it writes such an allow. */
  lemma FillsIff(hash: Hasher, w: World, op: Op, c: ChainState, x: string, l: Ceiling)
    requires op.node in w.chain.nodes && ChainOk(w.chain) && Comes(w, c, x, l)
    ensures Fills(hash, w, op, MeterKeyFor(x, MeterKey(l))) == if Counts(hash, w, op, x, l) then 1 else 0
  {
    hide ChainOk, Fills, MeterKey, NodeOk, WritesAllow, Step;
    if op.Check? && op.node == x {
      CheckCounts(hash, w, op, l);
    } else if op.Check? {
      assert Numbered(c, op.node) && Numbered(c, x);
      OtherCountsNothing(hash, w, op, x, MeterKey(l), c);
    } else {
      OnlyChecksCount(hash, w, op, MeterKeyFor(x, MeterKey(l)));
    }
  }

  lemma OnlyChecksCount(hash: Hasher, w: World, op: Op, k: string)
    requires op.node in w.chain.nodes && !op.Check?
    ensures Fills(hash, w, op, k) == 0
  {
  }

  // ---- whole runs ---------------------------------------------------------

  /** Where on the ledger the run's counted allows stand. */
  function CountedAt(hash: Hasher, w: World, ops: seq<Op>, x: string, l: Ceiling): seq<nat>
    requires LegalRun(hash, w, ops)
    decreases |ops|
  {
    if ops == [] then []
    else (if Counts(hash, w, ops[0], x, l) then [|w.entries|] else []) + CountedAt(hash, Step(hash, w, ops[0]), ops[1..], x, l)
  }

  lemma {:induction false} ReplayGrows(hash: Hasher, w: World, ops: seq<Op>)
    requires RunInv(hash, w) && LegalRun(hash, w, ops)
    ensures Grows(w.chain, Replay(hash, w, ops).chain) && Extends(w.entries, Replay(hash, w, ops).entries)
    decreases |ops|
  {
    hide RunInv, Callable, Step, Extends;
    if ops != [] {
      CallableOnNode(w, ops[0]);
      RunIsTree(hash, w);
      StepKeepsRun(hash, w, ops[0]);
      StepNodes(hash, w, ops[0]);
      StepExtends(hash, w, ops[0]);
      var next := Step(hash, w, ops[0]);
      ReplayGrows(hash, next, ops[1..]);
      ExtendsFurther(w.entries, next.entries, Replay(hash, next, ops[1..]).entries);
    } else {
      assert Extends(w.entries, w.entries) by { ExtendsItself(w.entries); }
    }
  }

  lemma ExtendsItself(x: seq<Entry>)
    ensures Extends(x, x)
  {
  }

  lemma RunIsTree(hash: Hasher, w: World)
    requires RunInv(hash, w)
    ensures ChainOk(w.chain) && TreeInv(w.chain) && LinksInv(w.chain)
  {
    hide LogOk, EntriesOk, DefinitionsTied, KillsTied;
  }

  lemma {:induction false} SumOfCounts(hash: Hasher, w: World, ops: seq<Op>, c: ChainState, x: string, l: Ceiling)
    requires RunInv(hash, w) && LegalRun(hash, w, ops) && c == Replay(hash, w, ops).chain && Comes(w, c, x, l)
    ensures TotalFills(hash, w, ops, MeterKeyFor(x, MeterKey(l))) == |CountedAt(hash, w, ops, x, l)|
    decreases |ops|
  {
    hide RunInv, Callable, Step, Fills, Counts, MeterKey, LinksInv, Grows;
    if ops != [] {
      CallableOnNode(w, ops[0]);
      RunIsTree(hash, w);
      StepKeepsRun(hash, w, ops[0]);
      FillsIff(hash, w, ops[0], c, x, l);
      var next := Step(hash, w, ops[0]);
      ReplayGrows(hash, next, ops[1..]);
      SumOfCounts(hash, next, ops[1..], c, x, l);
    }
  }

  /** A gated allow on `x` to which `l` applies. */
  predicate IsAllowUnder(e: Entry, x: string, l: Ceiling) {
    IsGated(e) && TextOf(e, FNode) == Some(x) && TextOf(e, FScope).Some? && AppliesToScope(l, TextOf(e, FScope).value)
  }

  predicate InLedger(at: seq<nat>, from: nat, entries: seq<Entry>, x: string, l: Ceiling) {
    && (forall i :: 0 <= i < |at| ==> from <= at[i] < |entries| && IsAllowUnder(entries[at[i]], x, l))
    && forall i, j :: 0 <= i < j < |at| ==> at[i] < at[j]
  }

  lemma CountsWrites(hash: Hasher, w: World, op: Op, x: string, l: Ceiling)
    requires op.node in w.chain.nodes && Counts(hash, w, op, x, l)
    ensures var y := Step(hash, w, op).entries; |y| > |w.entries| && IsAllowUnder(y[|w.entries|], x, l)
  {
    hide CheckStep, AppliesToScope, IsGated, TextOf;
    CheckWrites(hash, w, op.node, op.scope, op.options, op.env, op.cascade);
  }

  lemma PositionFirst(at: seq<nat>, p: nat, from: nat, entries: seq<Entry>, x: string, l: Ceiling)
    requires p < from && p < |entries| && IsAllowUnder(entries[p], x, l) && InLedger(at, from, entries, x, l)
    ensures InLedger([p] + at, p, entries, x, l)
  {
    hide IsAllowUnder;
  }

  lemma {:induction false} CountedInLedger(hash: Hasher, w: World, ops: seq<Op>, x: string, l: Ceiling)
    requires RunInv(hash, w) && LegalRun(hash, w, ops)
    ensures InLedger(CountedAt(hash, w, ops, x, l), |w.entries|, Replay(hash, w, ops).entries, x, l)
    decreases |ops|
  {
    hide RunInv, Callable, Step, Counts, IsAllowUnder;
    if ops != [] {
      CallableOnNode(w, ops[0]);
      StepKeepsRun(hash, w, ops[0]);
      StepExtends(hash, w, ops[0]);
      var next := Step(hash, w, ops[0]);
      ReplayGrows(hash, next, ops[1..]);
      CountedInLedger(hash, next, ops[1..], x, l);
      if Counts(hash, w, ops[0], x, l) {
        CountsWrites(hash, w, ops[0], x, l);
        var end := Replay(hash, next, ops[1..]).entries;
        assert end[..|next.entries|][|w.entries|] == end[|w.entries|];
        PositionFirst(CountedAt(hash, next, ops[1..], x, l), |w.entries|, |next.entries|, end, x, l);
      }
    }
  }

  /**
   * Over a run the stored meter of a held call limit is the number of calls that counted: checks on the limit's node,
   * left undeclared by the caller, each with its own gated allow on the ledger, to which the limit applies.
   */
  lemma MetersCountAllows(hash: Hasher, s: Setup, ops: seq<Op>, w: World, x: string, l: Ceiling)
    requires Issuable(s) && IssueStep(hash, s).Some? && EndsAt(hash, IssueStep(hash, s).value, ops, w)
    requires x in w.chain.nodes && l in w.chain.nodes[x].authority.ceilings && l.CallLimit?
    ensures var at := CountedAt(hash, IssueStep(hash, s).value, ops, x, l);
            Count(w.chain.calls, MeterKeyFor(x, MeterKey(l))) == |at| && InLedger(at, 0, w.entries, x, l)
  {
    hide Issuable, IssueStep, RunInv, MeterKey, IsAllowUnder, LegalRun, Replay, CountedAt, TotalFills, Grows;
    var start := IssueStep(hash, s).value;
    var k := MeterKeyFor(x, MeterKey(l));
    IssueStarts(hash, s);
    ReplayGrows(hash, start, ops);
    ReplayKeeps(hash, start, ops);
    RunIsTree(hash, w);
    SumOfCounts(hash, start, ops, w.chain, x, l);
    CountedInLedger(hash, start, ops, x, l);
    MeterIsSum(hash, start, ops, k);
    NothingCountedYet(hash, s, k);
  }

  lemma NothingCountedYet(hash: Hasher, s: Setup, k: string)
    requires IssueStep(hash, s).Some?
    ensures Count(IssueStep(hash, s).value.chain.calls, k) == 0
  {
    hide Append, RootFields;
    AppendSameTree(hash, Fresh(s), EventRoot, RootFields(s.chainId, NodeId(s.chainId, 0), s.agent, s.authority, s.cfg));
  }
}
