/** What one check decides, why, and what it may leave behind: stated of the node, the request and the clock. */
module Decisions {
  import opened Results
  import opened PlainJson
  import opened Scopes
  import opened Ceilings
  import opened Authorities
  import opened AuthorityWire
  import opened Reasons
  import opened Chains
  import opened Audit
  import opened Ledger
  import opened GuardSteps
  import opened EvidenceRules
  import opened Honest
  import opened Runs
  import opened RunCalls
  import opened RunMeters
  import opened Metering
  import opened Bounds
  import opened EntryVerdicts

  // ---- the request once its counts are filled in --------------------------

  /** The member a held call limit reads. */
  function CountName(l: Ceiling): string
    requires l.CallLimit?
  {
    match l.appliesTo case Some(pattern) => "calls[" + pattern + "]" case None => "calls"
  }

  /** Does a call of this scope count against the limit? */
  predicate CountsAgainst(l: Ceiling, scope: string)
    requires l.CallLimit?
  {
    match l.appliesTo case Some(pattern) => Covers(P01, pattern, scope) case None => true
  }

  /** The count a limit is evaluated with: the node's stored meter, and the call itself where it counts. */
  function NextCount(w: World, node: string, l: Ceiling, scope: string): int
    requires l.CallLimit?
  {
    Count(w.chain.calls, node + " " + (match l.appliesTo case Some(pattern) => pattern case None => "*")) + if CountsAgainst(l, scope) then 1 else 0
  }

  ghost predicate States(ctx: Context, name: string) { exists v {:trigger Says(ctx, name, v)} :: v != JNull && Says(ctx, name, v) }

  /** The request the evaluation reads. */
  function MeteredRequest(w: World, node: string, scope: string, ctx: Context): Context
    requires node in w.chain.nodes
  {
    AutoMeter(w.chain.calls, node, CallLimits(w.chain.nodes[node].authority), scope, ctx).ctx
  }

  lemma {:induction false} AutoMeterSets(calls: map<string, nat>, node: string, limits: seq<Ceiling>, scope: string, ctx: Context, c: Ceiling)
    requires FieldsDistinct(limits) && c in limits
    ensures Own(AutoMeter(calls, node, limits, scope, ctx).ctx, CtxField(c)) ==
              if Declared(ctx, CtxField(c)).Some? then Own(ctx, CtxField(c))
              else Some(JNum(Count(calls, MeterKeyFor(node, MeterKey(c))) + if AppliesToScope(c, scope) then 1 else 0))
  {
    hide CtxField, AppliesToScope, MeterKey, Own, With;
    var first, rest := limits[0], limits[1..];
    var value := JNum(Count(calls, MeterKeyFor(node, MeterKey(first))) + if AppliesToScope(first, scope) then 1 else 0);
    var ctx' := Filled(calls, node, first, scope, ctx);
    assert forall i :: 0 <= i < |rest| ==> rest[i] == limits[i + 1];
    OwnWith(ctx, CtxField(first), value, CtxField(c));
    if c in rest {
      var i :| 0 <= i < |rest| && rest[i] == c;
      assert CtxField(limits[0]) != CtxField(limits[i + 1]);
      AutoMeterSets(calls, node, rest, scope, ctx', c);
    } else {
      AutoMeterKeeps(calls, node, rest, scope, ctx', CtxField(first));
    }
  }

  lemma LimitNames(l: Ceiling, scope: string)
    requires l.CallLimit?
    ensures CtxField(l) == CountName(l) && AppliesToScope(l, scope) == CountsAgainst(l, scope)
    ensures MeterKey(l) == (match l.appliesTo case Some(pattern) => pattern case None => "*")
  {
  }

  /** The evaluation reads the next count of every held limit the caller left uncounted, and else what the caller states. */
  lemma MeteredReads(w: World, node: string, scope: string, ctx: Context, name: string, v: Json)
    requires node in w.chain.nodes && ChainOk(w.chain)
    ensures forall l :: l in w.chain.nodes[node].authority.ceilings && l.CallLimit? && CountName(l) == name && !States(ctx, name) ==>
              (Says(MeteredRequest(w, node, scope, ctx), name, v) <==> v == JNum(NextCount(w, node, l, scope)))
    ensures (forall l :: l in w.chain.nodes[node].authority.ceilings && l.CallLimit? && CountName(l) == name ==> States(ctx, name)) ==>
              (Says(MeteredRequest(w, node, scope, ctx), name, v) <==> Says(ctx, name, v))
  {
    hide Says, Own, CtxField, MeterKey, AppliesToScope, IsNarrower, NodeOk, RevocationClosed, BansHold, WellFormed, IsBuiltin, ValidScopes, PairKeyOf, AutoMeter, CountName;
    var a := w.chain.nodes[node].authority;
    var limits := CallLimits(a);
    var m := MeteredRequest(w, node, scope, ctx);
    CallLimitsDistinct(a);
    OwnIff(m, name, v);
    OwnIff(ctx, name, v);
    StatedIff(ctx, name);
    forall l | l in a.ceilings && l.CallLimit? && CountName(l) == name
      ensures l in limits && Own(m, name) == if States(ctx, name) then Own(ctx, name) else Some(JNum(NextCount(w, node, l, scope)))
    {
      LimitNames(l, scope);
      AutoMeterSets(w.chain.calls, node, limits, scope, ctx, l);
    }
    if forall l :: l in a.ceilings && l.CallLimit? ==> CountName(l) != name {
      forall c | c in limits ensures CtxField(c) != name { LimitNames(c, scope); }
      AutoMeterKeeps(w.chain.calls, node, limits, scope, ctx, name);
    }
  }

  lemma StatedIff(ctx: Context, name: string)
    ensures Declared(ctx, name).Some? <==> States(ctx, name)
  {
    hide Says, Own;
    forall v { OwnIff(ctx, name, v); }
    if Declared(ctx, name).Some? { assert Says(ctx, name, Declared(ctx, name).value); }
  }

  // ---- the decision -------------------------------------------------------

  predicate IsFinished(w: World, node: string)
    requires node in w.chain.nodes
  {
    w.cfg.version == 2 && w.chain.nodes[node].complete
  }

  /** Not finished, not revoked, and its time has not run out. */
  predicate InStanding(w: World, node: string, now: int)
    requires node in w.chain.nodes
  {
    var n := w.chain.nodes[node];
    !IsFinished(w, node) && node !in w.chain.revoked && !RunsOut(n.authority.ttl, n.issuedAt, now)
  }

  /** The member strict metering asks a ceiling's quantity under. */
  function AskedName(c: Ceiling): string {
    match c
    case RowLimit(_) => "rows"
    case SpendCap(_) => "spend"
    case CallLimit(_, _) => CountName(c)
    case EgressRank(_) => "egress"
    case Unknown(key, _) => key
    case Allow(key, _, field) => (match field case Some(name) => if name == "" then key else name case None => key)
    case Deny(key, _, field) => (match field case Some(name) => if name == "" then key else name case None => key)
    case Prefix(key, _, field) => (match field case Some(name) => if name == "" then key else name case None => key)
    case _ => CtxField(c)
  }

  /** A bound whose key begins with "max_", or a "02" bound on a quantity, that the request says nothing of. */
  ghost predicate IsUnmetered(c: Ceiling, request: Context) {
    ("max_" <= KeyOf(c) || c.Max? || c.MaxLifetime? || c.MaxSubtree?) && !States(request, AskedName(c))
  }

  ghost predicate FirstUnmetered(a: Authority, request: Context, i: nat) {
    i < |a.ceilings| && IsUnmetered(a.ceilings[i], request) && forall j :: 0 <= j < i ==> !IsUnmetered(a.ceilings[j], request)
  }

  ghost predicate Fitting(a: Authority, scope: string, request: Context) {
    && (exists k :: 0 <= k < |a.scopes| && Covers(P01, a.scopes[k], scope))
    && forall k :: 0 <= k < |a.ceilings| ==> Suits(a.ceilings[k], scope, request)
  }

  /** Everything a check asks before it allows. */
  ghost predicate MayAct(w: World, node: string, scope: string, o: CheckOptions, now: int)
    requires node in w.chain.nodes
  {
    var a := w.chain.nodes[node].authority;
    var request := MeteredRequest(w, node, scope, o.context);
    && InStanding(w, node, now) && o.totals == []
    && (w.cfg.strict && o.metered ==> forall i: nat :: !FirstUnmetered(a, request, i))
    && Fitting(a, scope, request)
  }

  /** Why it denies, in the order it asks. */
  ghost predicate IsRefusal(w: World, node: string, scope: string, o: CheckOptions, now: int, reasons: seq<Reason>)
    requires node in w.chain.nodes
  {
    var n := w.chain.nodes[node];
    var request := MeteredRequest(w, node, scope, o.context);
    if IsFinished(w, node) then reasons == [Reason(NodeFinalized, None)]
    else if node in w.chain.revoked then reasons == [Reason(Revoked, None)]
    else if RunsOut(n.authority.ttl, n.issuedAt, now) then reasons == [Reason(Expired, None)]
    else if w.cfg.strict && o.metered && exists i: nat :: FirstUnmetered(n.authority, request, i) then
      exists i: nat :: FirstUnmetered(n.authority, request, i) && reasons == [Reason(Unmetered, Some(KeyOf(n.authority.ceilings[i])))]
    else !Fitting(n.authority, scope, request) && reasons == ReasonsOf(n.authority, scope, request, [])
  }

  lemma AskedIff(c: Ceiling, request: Context)
    ensures IsUnmetered(c, request) <==> IsMetered(c) && Declared(request, NamedField(c)).None?
  {
    hide KeyOf, PerActionField, LifetimeField, SubtreeField, Declared, States;
    StatedIff(request, AskedName(c));
    assert NamedField(c) == AskedName(c);
  }

  lemma {:induction false} FirstOfFilter(cs: seq<Ceiling>, keep: Ceiling -> bool, i: nat)
    requires i < |cs| && keep(cs[i]) && forall j :: 0 <= j < i ==> !keep(cs[j])
    ensures Filter(cs, keep) != [] && Filter(cs, keep)[0] == cs[i]
  {
    if i > 0 { FirstOfFilter(cs[1..], keep, i - 1); }
  }

  lemma {:induction false} LeastUnmetered(a: Authority, request: Context, n: nat) returns (i: nat)
    requires n < |a.ceilings| && IsUnmetered(a.ceilings[n], request)
    ensures FirstUnmetered(a, request, i)
  {
    hide IsUnmetered;
    if j: nat :| j < n && IsUnmetered(a.ceilings[j], request) { i := LeastUnmetered(a, request, j); } else { i := n; }
  }

  lemma UndeclaredIff(a: Authority, request: Context)
    ensures Undeclared(a, request) != [] <==> exists i: nat :: FirstUnmetered(a, request, i)
    ensures forall i: nat :: FirstUnmetered(a, request, i) ==> Undeclared(a, request) != [] && Undeclared(a, request)[0] == a.ceilings[i]
  {
    hide IsUnmetered, IsMetered, NamedField, Declared;
    forall c ensures IsUnmetered(c, request) <==> IsMetered(c) && Declared(request, NamedField(c)).None? { AskedIff(c, request); }
    var keep := (c: Ceiling) => IsMetered(c) && Declared(request, NamedField(c)).None?;
    forall i: nat | FirstUnmetered(a, request, i) ensures Undeclared(a, request) != [] && Undeclared(a, request)[0] == a.ceilings[i] {
      FirstOfFilter(a.ceilings, keep, i);
    }
    if Undeclared(a, request) != [] {
      var c := Undeclared(a, request)[0];
      assert c in Undeclared(a, request);
      var n: nat :| n < |a.ceilings| && a.ceilings[n] == c;
      var i := LeastUnmetered(a, request, n);
    }
  }

  lemma FittingIff(a: Authority, scope: string, request: Context)
    requires Valid(a) && a.profile.P01?
    ensures Grants(a, scope, request, []) <==> Fitting(a, scope, request)
  {
    hide Covers, Suits, WellFormed, Admitted;
    GrantsIff(a, scope, request, []);
  }

  /** A check evaluates to a decision that allows exactly when the node may act, and else denies for the first cause. */
  lemma AuthorizeIff(w: World, node: string, scope: string, o: CheckOptions, now: int)
    requires node in w.chain.nodes && Valid(w.chain.nodes[node].authority) && w.chain.nodes[node].authority.profile.P01?
    ensures Authorize(w, node, scope, o, now).None? <==> InStanding(w, node, now) && o.totals != []
    ensures Authorize(w, node, scope, o, now).Some? ==>
              var d := Authorize(w, node, scope, o, now).value.decision;
              && (d.allowed <==> MayAct(w, node, scope, o, now))
              && (!d.allowed ==> IsRefusal(w, node, scope, o, now, d.reasons))
              && (d.allowed ==> d.reasons == []) && d.callId.None?
  {
    hide AutoMeter, CallLimits, Grants, Fitting, Undeclared, KeyOf, FirstUnmetered, WellFormed, ValidScopes, Judge;
    var a := w.chain.nodes[node].authority;
    var request := MeteredRequest(w, node, scope, o.context);
    UndeclaredIff(a, request);
    FittingIff(a, scope, request);
  }

  // ---- the check ----------------------------------------------------------

  /** What a check accepts before it looks at the node. */
  predicate AcceptsOptions(w: World, o: CheckOptions) {
    && (o.disposition.Some? ==> o.disposition.value in {"held_pending_grant", "withheld_tier2", "unresolved", "out_of_authority"})
    && (w.cfg.version != 2 ==> o.params == Omitted && o.capture == None && o.adapter == None)
    && (o.capture.Some? ==>
          o.capture.value in {"wrapper_sync", "wrapper_async", "framework_post_hook", "pre_hook_only"} && o.adapter.Some?)
  }

  lemma OptionsIff(w: World, o: CheckOptions)
    ensures OptionsAccepted(w, o) <==> AcceptsOptions(w, o)
  {
  }

  /** The decision a call ends with, carried by a persistence error or not. */
  function DecisionOf(out: Outcome): Option<Decision> {
    match out case Returned(d) => Some(d) case Unpersisted(d) => Some(d) case Thrown => None
  }

  predicate Allows(out: Outcome) { DecisionOf(out).Some? && DecisionOf(out).value.allowed }

  /** Nothing was appended that an allow of this chain would be. */
  predicate ChargesNothing(w: World, w': World) {
    |w.entries| <= |w'.entries| && forall i :: |w.entries| <= i < |w'.entries| ==> !IsCharged(w'.entries[i])
  }

  /** After the decision's own entry, a check appends at most the kill of its strike policy. */
  lemma StrikeOutcome(hash: Hasher, w: World, node: string, scope: string, d: Decision, killPersists: bool, cascade: seq<string>)
    ensures var (w', out) := StrikeStep(hash, w, node, scope, d, killPersists, cascade);
            && ChargesNothing(w, w') && (out == Returned(d) || out == Unpersisted(d) || out == Thrown)
            && (d.allowed ==> out == Returned(d) && w' == w)
  {
    hide Committed, Subtree, StrikeKey, IsCharged, KillFields, Append;
    if CountsStrike(w, node, d) {
      var p := w.cfg.strikes.value;
      var n := Count(w.chain.strikes, StrikeKey(p, node, scope)) + 1;
      var extra := map[FReason := JStr("strike_policy"), FScope := JStr(scope), FStrikes := JNum(n), FMode := JStr(if p.sameScope then "same_scope" else "total")];
      if n >= p.n {
        var w1 := w.(chain := w.chain.(strikes := w.chain.strikes[StrikeKey(p, node, scope) := n]));
        var w2 := w1.(chain := w1.chain.(revoked := w1.chain.revoked + Subtree(w1.chain, node)));
        KillIsNotCharged(hash, w2, node, cascade, extra);
      }
    }
  }

  lemma KillIsNotCharged(hash: Hasher, w: World, node: string, cascade: seq<string>, extra: Entry)
    requires extra.Keys !! FRAMING
    ensures ChargesNothing(w, Append(hash, w, EventKill, KillFields(w, node, cascade) + extra).0)
  {
    var fields := KillFields(w, node, cascade) + extra;
    assert fields.Keys !! FRAMING by { hide PendingAtKill; }
    hide Append, FRAMING, KillFields, Carries;
    AppendWrites(hash, w, EventKill, fields);
    if Append(hash, w, EventKill, fields).1 {
      var e := Append(hash, w, EventKill, fields).0.entries[|w.entries|];
      CarriesItsEvent(w, EventKill, fields, e);
    }
  }

  lemma CarriesItsEvent(w: World, event: EventKind, fields: Entry, e: Entry)
    requires Carries(w, event, fields, e) && fields.Keys !! FRAMING
    ensures Is(e, EventText(event)) && EventOf(e) == Some(event)
    ensures event != EventAllow ==> !IsCharged(e)
  {
    EventNamedText(event);
    EventTextsDiffer(EventAllow, EventAllow);
    if event != EventAllow && EventText(event) == "allow" { EventTextsDiffer(event, EventAllow); }
  }

  lemma CommittedOutcome(hash: Hasher, w: World, node: string, scope: string, o: CheckOptions, d: Decision, env: Environment, cascade: seq<string>)
    ensures var (w', out) := CommittedStep(hash, w, node, scope, o, d, env, cascade);
            ChargesNothing(w, w') && (out == Returned(d) || out == Unpersisted(d) || out == Thrown) && (d.allowed ==> out != Thrown)
            && (env.persists && d.allowed ==> out == Returned(d))
  {
    hide StrikeStep, Register, IsCharged;
    StrikeOutcome(hash, Registered(w, node, o, d), node, scope, d, env.killPersists, cascade);
  }

  lemma UncommittedOutcome(hash: Hasher, w: World, node: string, scope: string, o: CheckOptions, ctx: Context, env: Environment)
    ensures var (w', out) := UncommittedStep(hash, w, node, scope, o, ctx, env); ChargesNothing(w, w') && !Allows(out)
  {
    hide Append, DecisionFields, Canonicalizable, CALL_FIELDS, IsCharged;
    if !Canonicalizable(JObj(ctx)) && IdAvailable(w, env.fallbackId) {
      var d := Denied(Reason(NoAuthority, Some("context"))).(callId := IdFor(w, env.fallbackId));
      var extra := match d.callId case Some(id) => map[FCallId := JStr(id)] case None => map[];
      var fields := DecisionFields(w.chain.chainId, node, d, scope, o.tool, [], Some("unresolved")) + extra;
      CallIdIsCallField();
      DecisionNotFraming(w.chain.chainId, node, d, scope, o.tool, [], Some("unresolved"), extra);
      AppendWrites(hash, w, EventDeny, fields);
      if Append(hash, w, EventDeny, fields).1 {
        CarriesItsEvent(w, EventDeny, fields, Append(hash, w, EventDeny, fields).0.entries[|w.entries|]);
      }
    }
  }

  lemma ChargesNothingFurther(x: World, y: World, z: World)
    requires Extends(y.entries, z.entries) && ChargesNothing(x, y) && ChargesNothing(y, z)
    ensures ChargesNothing(x, z)
  {
    forall i | |x.entries| <= i < |z.entries| ensures !IsCharged(z.entries[i]) {
      if i < |y.entries| { assert z.entries[..|y.entries|][i] == z.entries[i]; }
    }
  }

  /** What is written before the strike policy: the decision's own entry, charged where it allows. */
  function Decided(hash: Hasher, w: World, node: string, scope: string, o: CheckOptions, a: Authorized, env: Environment): (World, bool) {
    var d := a.decision.(callId := IdFor(w, env.callId));
    var counted := WithCalls(w, Counted(w, node, a));
    Append(hash, counted, EventOfDecision(d), CheckFields(counted, node, scope, o, a.metering.ctx, d))
  }

  lemma CheckUnfolds(hash: Hasher, w: World, node: string, scope: string, o: CheckOptions, env: Environment, cascade: seq<string>)
    requires node in w.chain.nodes && OptionsAccepted(w, o) && Authorize(w, node, scope, o, env.now).Some?
    ensures var a := Authorize(w, node, scope, o, env.now).value;
            var d := a.decision.(callId := IdFor(w, env.callId));
            var (w1, committed) := Decided(hash, w, node, scope, o, a, env);
            && (Commits(hash, w, node, scope, o, a, env) <==> IdAvailable(w, env.callId) && committed)
            && CheckStep(hash, w, node, scope, o, env, cascade) ==
                 if !IdAvailable(w, env.callId) then (WithCalls(w, Restored(w, node, a)), Returned(Denied(Reason(CallIdUnavailable, None))))
                 else if committed then CommittedStep(hash, w1, node, scope, o, d, env, cascade)
                 else UncommittedStep(hash, WithCalls(w1, Restored(w, node, a)), node, scope, o, a.metering.ctx, env)
  {
    hide Authorize, OptionsAccepted, CheckFields, Append, CommittedStep, UncommittedStep, CountAll, UncountAll, EventOfDecision;
  }

  lemma DecidedWrites(hash: Hasher, w: World, node: string, scope: string, o: CheckOptions, a: Authorized, env: Environment)
    ensures var (w1, committed) := Decided(hash, w, node, scope, o, a, env);
            && Extends(w.entries, w1.entries) && |w1.entries| == |w.entries| + (if committed then 1 else 0)
            && (!a.decision.allowed ==> ChargesNothing(w, w1))
  {
    hide CheckFields, Append, CountAll, Carries, IsCharged, EventOf, FRAMING;
    var d := a.decision.(callId := IdFor(w, env.callId));
    var counted := WithCalls(w, Counted(w, node, a));
    var fields := CheckFields(counted, node, scope, o, a.metering.ctx, d);
    CheckNotFraming(counted, node, scope, o, a.metering.ctx, d);
    AppendWrites(hash, counted, EventOfDecision(d), fields);
    if Append(hash, counted, EventOfDecision(d), fields).1 && !d.allowed {
      DeniedEntry(counted, fields, d, Append(hash, counted, EventOfDecision(d), fields).0.entries[|w.entries|]);
    }
  }

  /** What a check does once its options are accepted and the node may or may not act. */
  lemma CheckOutcome(hash: Hasher, w: World, node: string, scope: string, o: CheckOptions, env: Environment, cascade: seq<string>)
    requires node in w.chain.nodes && OptionsAccepted(w, o) && Authorize(w, node, scope, o, env.now).Some?
    ensures var (w', out) := CheckStep(hash, w, node, scope, o, env, cascade);
            var a := Authorize(w, node, scope, o, env.now).value;
            var d := a.decision.(callId := IdFor(w, env.callId));
            && (!a.decision.allowed ==> ChargesNothing(w, w'))
            && (!Commits(hash, w, node, scope, o, a, env) ==> !Allows(out))
            && (!IdAvailable(w, env.callId) ==> w'.entries == w.entries && out == Returned(Denied(Reason(CallIdUnavailable, None))))
            && (Commits(hash, w, node, scope, o, a, env) ==> (DecisionOf(out).Some? ==> DecisionOf(out).value == d) && (d.allowed ==> Allows(out)))
  {
    hide Authorize, OptionsAccepted, Commits, Decided, CommittedStep, UncommittedStep, IsCharged, CheckStep, IdAvailable, Restored;
    CheckUnfolds(hash, w, node, scope, o, env, cascade);
    var a := Authorize(w, node, scope, o, env.now).value;
    var d := a.decision.(callId := IdFor(w, env.callId));
    DecidedWrites(hash, w, node, scope, o, a, env);
    var w1 := Decided(hash, w, node, scope, o, a, env).0;
    CommittedOutcome(hash, w1, node, scope, o, d, env, cascade);
    CommittedExtends(hash, w1, node, scope, o, d, env, cascade);
    var w2 := WithCalls(w1, Restored(w, node, a));
    UncommittedOutcome(hash, w2, node, scope, o, a.metering.ctx, env);
    UncommittedExtends(hash, w2, node, scope, o, a.metering.ctx, env);
    if !a.decision.allowed && IdAvailable(w, env.callId) {
      if Decided(hash, w, node, scope, o, a, env).1 {
        ChargesNothingFurther(w, w1, CommittedStep(hash, w1, node, scope, o, d, env, cascade).0);
      } else {
        ChargesNothingFurther(w, w2, UncommittedStep(hash, w2, node, scope, o, a.metering.ctx, env).0);
      }
    }
  }

  lemma DeniedEntry(w: World, fields: Entry, d: Decision, e: Entry)
    requires !d.allowed && Carries(w, EventOfDecision(d), fields, e) && fields.Keys !! FRAMING
    ensures !IsCharged(e)
  {
    CarriesItsEvent(w, EventDeny, fields, e);
  }

  // ---- the main results ---------------------------------------------------

  lemma HoldsValid(w: World, node: string)
    requires node in w.chain.nodes && ChainOk(w.chain)
    ensures Valid(w.chain.nodes[node].authority) && w.chain.nodes[node].authority.profile.P01?
  {
    hide LinksInv, RevocationClosed, BansHold, IsNarrower, Authorities.Valid, IsBuiltin;
  }

  /** The decision's entry could be written: on a version 2 chain a call id was to be had, and the entry could be hashed. */
  predicate IsWritable(hash: Hasher, w: World, node: string, scope: string, o: CheckOptions, env: Environment)
    requires node in w.chain.nodes
  {
    (w.cfg.version == 2 ==> env.callId.Some?) &&
    match Authorize(w, node, scope, o, env.now) case Some(a) => Decided(hash, w, node, scope, o, a, env).1 case None => false
  }

  /**
   * A check allows a call, and appends the allow it is charged by, exactly when its options are accepted, the node may
   * act on the request now, and the entry could be written.
   */
  lemma AllowsIff(hash: Hasher, w: World, node: string, scope: string, o: CheckOptions, env: Environment, cascade: seq<string>)
    requires node in w.chain.nodes && ChainOk(w.chain)
    ensures var (w', out) := CheckStep(hash, w, node, scope, o, env, cascade);
            && (Allows(out) <==> AcceptsOptions(w, o) && MayAct(w, node, scope, o, env.now) && IsWritable(hash, w, node, scope, o, env))
            && (WritesAllow(w, w', node) <==> Allows(out))
  {
    hide Authorize, OptionsAccepted, AcceptsOptions, MayAct, IsRefusal, InStanding, ChainOk, Authorities.Valid, Decided, CommittedStep, UncommittedStep,
      WritesAllow, Commits;
    HoldsValid(w, node);
    OptionsIff(w, o);
    AuthorizeIff(w, node, scope, o, env.now);
    CheckWrites(hash, w, node, scope, o, env, cascade);
    if OptionsAccepted(w, o) && Authorize(w, node, scope, o, env.now).Some? {
      CheckOutcome(hash, w, node, scope, o, env, cascade);
      CheckUnfolds(hash, w, node, scope, o, env, cascade);
    }
  }

  /** A check on a node that may not act allows nothing, appends nothing it would be charged by, and leaves every meter as it was. */
  lemma RefusedNeverActs(hash: Hasher, w: World, node: string, scope: string, o: CheckOptions, env: Environment, cascade: seq<string>, k: string)
    requires node in w.chain.nodes && ChainOk(w.chain) && !MayAct(w, node, scope, o, env.now)
    ensures var (w', out) := CheckStep(hash, w, node, scope, o, env, cascade);
            !Allows(out) && ChargesNothing(w, w') && Count(w'.chain.calls, k) == Count(w.chain.calls, k)
  {
    hide Authorize, OptionsAccepted, AcceptsOptions, MayAct, IsRefusal, InStanding, ChainOk, Authorities.Valid, Decided, AuthorizedStep, WritesAllow, Commits, IsWritable;
    HoldsValid(w, node);
    AuthorizeIff(w, node, scope, o, env.now);
    AllowsIff(hash, w, node, scope, o, env, cascade);
    CheckMeters(hash, w, node, scope, o, env, cascade, k);
    if OptionsAccepted(w, o) && Authorize(w, node, scope, o, env.now).Some? { CheckOutcome(hash, w, node, scope, o, env, cascade); }
  }

  /** Past its time a node never acts, whatever is asked of it and however the call goes. */
  lemma ExpiredNeverActs(hash: Hasher, w: World, node: string, scope: string, o: CheckOptions, env: Environment, cascade: seq<string>, k: string, t: int)
    requires node in w.chain.nodes && ChainOk(w.chain)
    requires w.chain.nodes[node].authority.ttl == Some(t) && env.now - w.chain.nodes[node].issuedAt > t
    ensures var (w', out) := CheckStep(hash, w, node, scope, o, env, cascade);
            !Allows(out) && ChargesNothing(w, w') && Count(w'.chain.calls, k) == Count(w.chain.calls, k)
  {
    hide MeteredRequest, Fitting, FirstUnmetered, ChainOk, CheckStep, ChargesNothing;
    RefusedNeverActs(hash, w, node, scope, o, env, cascade, k);
  }

  predicate IsJudgement(r: Reason) { r.code == ScopeNotGranted || r.code == CeilingExceeded || r.code == UnknownConstraint }

  lemma ReasonsJudge(a: Authority, scope: string, request: Context)
    ensures forall r :: r in ReasonsOf(a, scope, request, []) ==> IsJudgement(r)
  {
    hide Admitted, CoversAny, KeyOf;
    ReasonsAre(a, scope, request);
    forall r | r in Refusals(a.ceilings, AdmittedBy(a, scope, request)) ensures IsJudgement(r) {}
  }

  /** Each standing of a node has its own reason, given exactly then. */
  lemma ReasonIff(w: World, node: string, scope: string, o: CheckOptions, now: int)
    requires node in w.chain.nodes && ChainOk(w.chain) && Authorize(w, node, scope, o, now).Some?
    ensures var n := w.chain.nodes[node];
            var reasons := Authorize(w, node, scope, o, now).value.decision.reasons;
            && (reasons == [Reason(NodeFinalized, None)] <==> IsFinished(w, node))
            && (reasons == [Reason(Revoked, None)] <==> !IsFinished(w, node) && node in w.chain.revoked)
            && (reasons == [Reason(Expired, None)] <==>
                  !IsFinished(w, node) && node !in w.chain.revoked && n.authority.ttl.Some? && now - n.issuedAt > n.authority.ttl.value)
  {
    hide Authorize, ChainOk, Authorities.Valid, Fitting, FirstUnmetered, Bounds.ReasonsOf, MeteredRequest;
    HoldsValid(w, node);
    AuthorizeIff(w, node, scope, o, now);
    ReasonsJudge(w.chain.nodes[node].authority, scope, MeteredRequest(w, node, scope, o.context));
    var reasons := Authorize(w, node, scope, o, now).value.decision.reasons;
    if reasons == [Reason(NodeFinalized, None)] || reasons == [Reason(Revoked, None)] || reasons == [Reason(Expired, None)] { assert reasons[0] in reasons; }
  }

  /** A denial that was written is the first cause, carried to the caller unless the kill of a strike is not committed. */
  lemma DeniesIff(hash: Hasher, w: World, node: string, scope: string, o: CheckOptions, env: Environment, cascade: seq<string>)
    requires node in w.chain.nodes && ChainOk(w.chain) && AcceptsOptions(w, o) && !MayAct(w, node, scope, o, env.now)
    ensures var out := CheckStep(hash, w, node, scope, o, env, cascade).1;
            && (InStanding(w, node, env.now) && o.totals != [] ==> out == Thrown)
            && (IsWritable(hash, w, node, scope, o, env) && DecisionOf(out).Some? ==>
                  IsRefusal(w, node, scope, o, env.now, DecisionOf(out).value.reasons))
  {
    hide Authorize, OptionsAccepted, AcceptsOptions, MayAct, IsRefusal, InStanding, ChainOk, Authorities.Valid, Decided, AuthorizedStep, Commits;
    HoldsValid(w, node);
    OptionsIff(w, o);
    AuthorizeIff(w, node, scope, o, env.now);
    if Authorize(w, node, scope, o, env.now).Some? {
      CheckOutcome(hash, w, node, scope, o, env, cascade);
      CheckUnfolds(hash, w, node, scope, o, env, cascade);
    }
  }
}
