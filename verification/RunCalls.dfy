/**
 * Every legal call on a schema version 2 chain keeps the runtime and the recorded calls in step: the ids are fresh,
 * adapters are named, and an outcome is reported on the guard that allowed the call. Each kind of call is taken in
 * turn, first the entry it appends and then what it does to the pending and outcomed sets.
 */
module RunCalls {
  import opened Results
  import opened PlainJson
  import opened Authorities
  import opened AuthorityWire
  import opened Reasons
  import opened Chains
  import opened Audit
  import opened Ledger
  import opened GuardSteps
  import opened EvidenceRules
  import opened Evidence
  import opened Honest
  import opened HonestCalls
  import opened Runs

  // ---- what a program must supply -----------------------------------------

  /** A new call id: 16 random bytes in lowercase hex, not yet on the ledger. */
  ghost predicate FreshId(w: World, id: Option<string>) {
    id.Some? ==> IsHex(id.value, 32) && !CallSeenBefore(w.entries, |w.entries|, JStr(id.value))
  }

  predicate IsNamed(a: Adapter) { a.name != "" && a.version != "" && a.hookPath != "" }

  predicate IsDigest(c: Commitment) { c.Hashed? ==> IsHex(c.digest, 64) }

  /** The outcome of a call this node was allowed, with the arguments that were authorized. */
  ghost predicate ReportsAllowed(w: World, node: string, r: OutcomeReport) {
    && IsDigest(r.params)
    && match LastAllow(w.entries, |w.entries|, JStr(r.callId))
       case None => false
       case Some(a) =>
         && OrNull(w.entries[a], FNode) == JStr(node)
         && (r.params.Hashed? && FAuthorizedParamsHash in w.entries[a] ==> w.entries[a][FAuthorizedParamsHash] == JStr(r.params.digest))
  }

  ghost predicate LegalCalls(w: World, op: Op) {
    match op
    case Check(_, _, o, env, _) =>
      && FreshId(w, env.callId) && FreshId(w, env.fallbackId) && IsDigest(o.params)
      && (o.adapter.Some? ==> IsNamed(o.adapter.value))
    case RecordDenial(_, _, _, _, _, _, callId, _) => FreshId(w, callId)
    case RecordPassthrough(_, _, _, _, _, callId, _) => FreshId(w, callId)
    case RecordOutcome(node, report, _) => ReportsAllowed(w, node, report)
    case _ => true
  }

  // ---- the entries a guard appends ----------------------------------------

  /** The entry is the fields, framing aside. */
  ghost predicate Agrees(e: Entry, fields: Entry) {
    forall f :: !IsFraming(f) ==> (f in e <==> f in fields) && (f in fields ==> e[f] == fields[f])
  }

  lemma CarriesAgrees(w: World, event: EventKind, fields: Entry, e: Entry)
    requires Carries(w, event, fields, e) && fields.Keys !! FRAMING
    ensures Agrees(e, fields)
  {
    hide EventOf;
  }

  lemma CallFieldsAreNotFraming()
    ensures forall f :: f in CALL_FIELDS || f in OUTCOME_FIELDS || f in KILL_FIELDS || f == FPolicy ==> !IsFraming(f)
  {
  }

  lemma SameValidity(e: Entry, fields: Entry)
    requires Agrees(e, fields)
    ensures ValidAllow(fields) ==> ValidAllow(e)
    ensures ValidDeny(fields) ==> ValidDeny(e)
    ensures OrNull(e, FCallId) == OrNull(fields, FCallId) && OrNull(e, FCapture) == OrNull(fields, FCapture)
    ensures TextOf(e, FNode) == TextOf(fields, FNode) && OrNull(e, FNode) == OrNull(fields, FNode)
  {
    CallFieldsAreNotFraming();
    FramingIsDisjoint();
    assert !IsFraming(FCallId) && !IsFraming(FCapture) && !IsFraming(FAdapter) && !IsFraming(FPolicy) && !IsFraming(FNode);
    assert !IsFraming(FAuthorizedParamsHash) && !IsFraming(FParamsHashReason);
    hide IsFraming, IsHexText, NonEmptyText;
  }

  lemma SameOutcomeValidity(e: Entry, fields: Entry)
    requires Agrees(e, fields) && ValidOutcome(fields)
    ensures ValidOutcome(e) && OrNull(e, FInvokedParamsHash) == OrNull(fields, FInvokedParamsHash)
    ensures OrNull(e, FCallId) == OrNull(fields, FCallId) && OrNull(e, FNode) == OrNull(fields, FNode)
  {
    CallFieldsAreNotFraming();
    assert forall f :: f in OUTCOME_FIELDS ==> !IsFraming(f);
    assert FCallId in OUTCOME_FIELDS && FBodyState in OUTCOME_FIELDS && FErrorCode in OUTCOME_FIELDS && FDurationMs in OUTCOME_FIELDS;
    assert FInvokedParamsHash in OUTCOME_FIELDS && FParamsHashReason in OUTCOME_FIELDS && FReceipt in OUTCOME_FIELDS && FNode in OUTCOME_FIELDS;
    hide IsFraming, IsHexText, ValidReceipt, OUTCOME_FIELDS, CALL_FIELDS, KILL_FIELDS;
  }

  lemma AdapterIsValid(a: Adapter)
    requires IsNamed(a)
    ensures AdapterToJson(a).JObj?
    ensures var m := AdapterToJson(a).members;
            NonEmptyText(m, "module") && NonEmptyText(m, "version") && NonEmptyText(m, "hook_path")
  {
    var m := AdapterToJson(a).members;
    hide Own;
    OwnAt(m, 0);
    OwnAt(m, 1);
    OwnAt(m, 2);
  }

  lemma CommitmentIsValid(c: Commitment, field: Field, fields: Entry)
    requires IsDigest(c) && field != FParamsHashReason
    requires CommitmentFields(c, field).Keys <= fields.Keys
    requires forall f :: f in CommitmentFields(c, field) ==> fields[f] == CommitmentFields(c, field)[f]
    requires forall f :: (f == field || f == FParamsHashReason) && f in fields ==> f in CommitmentFields(c, field)
    ensures ValidHash(fields, field) && ValidHashReason(fields, field)
  {
  }

  lemma CaptureFieldsAre(callId: string, capture: string, a: Adapter, fields: Entry)
    requires IsHex(callId, 32) && capture in CAPTURES && IsNamed(a)
    requires forall f :: f in CaptureFields(callId, capture, a) ==> f in fields && fields[f] == CaptureFields(callId, capture, a)[f]
    requires FPolicy in fields ==> IsKnownPolicy(Get(fields, FPolicy))
    requires ValidHash(fields, FAuthorizedParamsHash) && ValidHashReason(fields, FAuthorizedParamsHash)
    ensures ValidAllow(fields) && OrNull(fields, FCallId) == JStr(callId) && OrNull(fields, FCapture) == JStr(capture)
  {
    AdapterIsValid(a);
    hide AdapterToJson, NonEmptyText, ValidHash, ValidHashReason, CAPTURES, IsHex, IsKnownPolicy;
    assert FCallId in CaptureFields(callId, capture, a) && FCapture in CaptureFields(callId, capture, a) && FAdapter in CaptureFields(callId, capture, a);
  }

  /** The adapter an allow records: the caller's, or the guard's own. */
  function AdapterUsed(o: CheckOptions): Adapter {
    match (o.capture, o.adapter)
    case (Some(_), Some(a)) => a
    case _ => OwnAdapter("Guard.check")
  }

  /** No member of a call's record. */
  predicate HasNoCall(fields: Entry) {
    && FCallId !in fields && FCapture !in fields && FAdapter !in fields && FAuthorizedParamsHash !in fields && FParamsHashReason !in fields
  }

  lemma DecisionHasNoCall(chainId: string, node: string, d: Decision, scope: string, tool: Option<string>, ctx: Context, disposition: Option<string>)
    ensures HasNoCall(DecisionFields(chainId, node, d, scope, tool, ctx, disposition))
    ensures FPolicy !in DecisionFields(chainId, node, d, scope, tool, ctx, disposition)
  {
    DecisionFieldsAre(chainId, node, d, scope, tool, ctx, disposition);
    hide DecisionFields;
  }

  lemma CapturedIsValid(base: Entry, id: string, capture: string, a: Adapter, c: Commitment)
    requires HasNoCall(base) && (FPolicy in base ==> IsKnownPolicy(Get(base, FPolicy)))
    requires IsHex(id, 32) && capture in CAPTURES && IsNamed(a) && IsDigest(c)
    ensures var fields := base + CaptureFields(id, capture, a) + CommitmentFields(c, FAuthorizedParamsHash);
            ValidAllow(fields) && OrNull(fields, FCallId) == JStr(id) && OrNull(fields, FCapture) == JStr(capture)
  {
    var capturing := CaptureFields(id, capture, a);
    var commitment := CommitmentFields(c, FAuthorizedParamsHash);
    assert commitment.Keys <= {FAuthorizedParamsHash, FParamsHashReason};
    hide AdapterToJson, CAPTURES, IsHex, IsNamed, IsKnownPolicy, ValidAllow, ValidHash, ValidHashReason, OrNull, CommitmentFields;
    LayersKeep(base, capturing, commitment);
    hide CaptureFields;
    CommitmentIsValid(c, FAuthorizedParamsHash, base + capturing + commitment);
    CaptureFieldsAre(id, capture, a, base + capturing + commitment);
  }

  lemma LayersKeep(base: Entry, capturing: Entry, commitment: Entry)
    requires FAuthorizedParamsHash !in base && FParamsHashReason !in base && capturing.Keys == {FCallId, FCapture, FAdapter}
    requires commitment.Keys <= {FAuthorizedParamsHash, FParamsHashReason}
    ensures var fields := base + capturing + commitment;
            && (forall f :: f in capturing ==> f in fields && fields[f] == capturing[f])
            && (forall f :: f in commitment ==> f in fields && fields[f] == commitment[f])
            && commitment.Keys <= fields.Keys
            && (forall f :: (f == FAuthorizedParamsHash || f == FParamsHashReason) && f in fields ==> f in commitment)
            && Get(fields, FPolicy) == Get(base, FPolicy) && (FPolicy in fields <==> FPolicy in base)
  {
    TopLayer(base + capturing, commitment);
    TopLayer(base, capturing);
    assert FCallId !in commitment && FCapture !in commitment && FAdapter !in commitment;
    assert FPolicy !in capturing.Keys && FPolicy !in commitment.Keys;
    assert FAuthorizedParamsHash !in capturing.Keys && FParamsHashReason !in capturing.Keys;
  }

  lemma TopLayer(below: Entry, top: Entry)
    ensures forall f :: f in top ==> f in below + top && (below + top)[f] == top[f]
    ensures forall f :: f !in top ==> Get(below + top, f) == Get(below, f) && (f in below + top <==> f in below)
  {
  }

  lemma CheckAllowIsValid(w: World, node: string, scope: string, o: CheckOptions, ctx: Context, d: Decision)
    requires d.allowed && d.callId.Some? && IsHex(d.callId.value, 32)
    requires (o.capture.Some? ==> o.capture.value in CAPTURES && o.adapter.Some?) && (o.adapter.Some? ==> IsNamed(o.adapter.value)) && IsDigest(o.params)
    ensures var fields := CheckFields(w, node, scope, o, ctx, d);
            && ValidAllow(fields) && OrNull(fields, FCallId) == JStr(d.callId.value)
            && OrNull(fields, FCapture) == JStr(CaptureUsed(o)) && CaptureUsed(o) in CAPTURES
  {
    var id := d.callId.value;
    var base := DecisionFields(w.chain.chainId, node, d, scope, o.tool, ctx, o.disposition);
    DecisionHasNoCall(w.chain.chainId, node, d, scope, o.tool, ctx, o.disposition);
    hide DecisionFields, AdapterToJson, IsHex, HasNoCall, ValidAllow, CommitmentFields, CaptureFields, OrNull;
    assert IsNamed(AdapterUsed(o)) && CaptureUsed(o) in CAPTURES;
    assert CallFields(w, d, o, d.callId) == CaptureFields(id, CaptureUsed(o), AdapterUsed(o)) + CommitmentFields(o.params, FAuthorizedParamsHash);
    hide CallFields, CaptureUsed, AdapterUsed, IsNamed, CAPTURES;
    CapturedIsValid(base, id, CaptureUsed(o), AdapterUsed(o), o.params);
    MergeAssociates(base, CaptureFields(id, CaptureUsed(o), AdapterUsed(o)), CommitmentFields(o.params, FAuthorizedParamsHash));
  }

  lemma MergeAssociates(a: Entry, b: Entry, c: Entry)
    ensures a + (b + c) == a + b + c
  {
  }

  lemma CheckDenyIsValid(w: World, node: string, scope: string, o: CheckOptions, ctx: Context, d: Decision)
    requires !d.allowed && d.callId.Some? && IsHex(d.callId.value, 32)
    ensures var fields := CheckFields(w, node, scope, o, ctx, d); ValidDeny(fields) && OrNull(fields, FCallId) == JStr(d.callId.value)
  {
    DenyFieldsAreValid(w, node, d, scope, o.tool, ctx, o.disposition, d.callId.value);
  }

  lemma DenyFieldsAreValid(w: World, node: string, d: Decision, scope: string, tool: Option<string>, ctx: Context, disposition: Option<string>, id: string)
    requires IsHex(id, 32)
    ensures var fields := DecisionFields(w.chain.chainId, node, d, scope, tool, ctx, disposition) + map[FCallId := JStr(id)];
            ValidDeny(fields) && OrNull(fields, FCallId) == JStr(id)
  {
    DecisionHasNoCall(w.chain.chainId, node, d, scope, tool, ctx, disposition);
    hide DecisionFields, IsHex;
  }

  lemma PassthroughIsValid(w: World, node: string, tool: string, scope: string, ctx: Context, d: Decision)
    requires d.allowed && d.callId.Some? && IsHex(d.callId.value, 32)
    ensures var fields := PassthroughFields(w, node, tool, scope, ctx, UNLISTED, d);
            ValidAllow(fields) && OrNull(fields, FCallId) == JStr(d.callId.value) && OrNull(fields, FCapture) == JStr(PRE_HOOK_ONLY)
  {
    var id := d.callId.value;
    var a := OwnAdapter("Guard.recordPassthrough");
    var base := DecisionFields(w.chain.chainId, node, d, scope, Some(tool), ctx, None);
    DecisionHasNoCall(w.chain.chainId, node, d, scope, Some(tool), ctx, None);
    assert IsNamed(a) && PRE_HOOK_ONLY in CAPTURES;
    hide DecisionFields, AdapterToJson, IsHex, IsNamed, OwnAdapter, CAPTURES, ValidAllow, CaptureFields;
    CapturedIsValid(base + map[FPolicy := JStr(UNLISTED)], id, PRE_HOOK_ONLY, a, Omitted);
    assert PassthroughFields(w, node, tool, scope, ctx, UNLISTED, d)
        == base + map[FPolicy := JStr(UNLISTED)] + CaptureFields(id, PRE_HOOK_ONLY, a) + CommitmentFields(Omitted, FAuthorizedParamsHash);
  }

  lemma ReceiptIsValid(r: Receipt)
    requires r.kind != "" && r.ref != "" && IsHex(r.digest, 64)
    ensures ValidReceipt(ReceiptToJson(r))
  {
    var m := ReceiptToJson(r).members;
    hide Own, IsHex;
    OwnAt(m, 0);
    OwnAt(m, 1);
    OwnAt(m, 2);
  }

  lemma OutcomeMembers(chainId: string, node: string, r: OutcomeReport)
    ensures var fields := OutcomeFields(chainId, node, r);
            && OrNull(fields, FCallId) == JStr(r.callId) && OrNull(fields, FNode) == JStr(node) && FCallId in fields
            && Get(fields, FBodyState) == Some(JStr(r.bodyState)) && Get(fields, FDurationMs) == Some(JNum(r.durationMs))
            && Get(fields, FErrorCode) == (match r.errorCode case Some(code) => Some(JStr(code)) case None => None)
            && Get(fields, FReceipt) == (match r.receipt case Some(x) => Some(ReceiptToJson(x)) case None => None)
            && Get(fields, FInvokedParamsHash) == (if r.params.Hashed? then Some(JStr(r.params.digest)) else None)
            && Get(fields, FParamsHashReason) == (if r.params.Unsupported? then Some(JStr("unsupported")) else None)
  {
    hide ReceiptToJson;
  }

  lemma OutcomeFieldsAreValid(w: World, node: string, r: OutcomeReport)
    requires ReportAccepted(w, r) && IsDigest(r.params) && IsHex(r.callId, 32)
    ensures var fields := OutcomeFields(w.chain.chainId, node, r);
            && ValidOutcome(fields) && OrNull(fields, FCallId) == JStr(r.callId) && OrNull(fields, FNode) == JStr(node)
            && OrNull(fields, FInvokedParamsHash) == (if r.params.Hashed? then JStr(r.params.digest) else JNull)
  {
    OutcomeMembers(w.chain.chainId, node, r);
    if r.receipt.Some? { ReceiptIsValid(r.receipt.value); }
    hide ReceiptToJson, ValidReceipt, IsHex, BODY_STATES, OutcomeFields;
  }

  // ---- appends ------------------------------------------------------------

  lemma SameKillValidity(e: Entry, fields: Entry)
    requires Agrees(e, fields) && ValidKill(fields)
    ensures ValidKill(e)
  {
    CallFieldsAreNotFraming();
    assert FPendingAtKill in KILL_FIELDS;
    hide IsFraming, IsHexText, CALL_FIELDS, OUTCOME_FIELDS, KILL_FIELDS;
  }

  lemma QuietAppend(hash: Hasher, w: World, event: EventKind, fields: Entry)
    requires CallInv(w.chain, w.entries) && fields.Keys !! FRAMING
    requires event.EventSpawn? || event.EventSpawnDenied? || event.EventKill? || event.EventDone?
    requires event.EventKill? ==> ValidKill(fields)
    requires event.EventDone? ==> forall id :: TextOf(fields, FNode) == Some(id) ==> id in w.chain.nodes && w.chain.nodes[id].complete
    ensures CallInv(w.chain, Append(hash, w, event, fields).0.entries) && Append(hash, w, event, fields).0.chain == w.chain
  {
    hide CallInv, Append, ValidKill, Verifies, IsHead, FRAMING, ValidAllow, ValidDeny, EventOf, IsFraming;
    var c := Appended(hash, w, event, fields);
    if c.Some? {
      var e := c.value;
      CarriesAgrees(w, event, fields, e);
      SameValidity(e, fields);
      if event.EventKill? { SameKillValidity(e, fields); }
      hide Carries, Agrees;
      assert OrNull(e, FSeq) == JNum(|w.entries|) && EventOf(e) == Some(event) by { CarriesFraming(w, event, fields, e); }
      hide OrNull;
      QuietExtend(w.chain, w.entries, e);
    }
  }

  lemma CarriesFraming(w: World, event: EventKind, fields: Entry, e: Entry)
    requires Carries(w, event, fields, e)
    ensures OrNull(e, FSeq) == JNum(|w.entries|) && EventOf(e) == Some(event)
  {
    hide EventOf;
  }

  lemma DenyAppend(hash: Hasher, w: World, fields: Entry, id: string)
    requires CallInv(w.chain, w.entries) && fields.Keys !! FRAMING && ValidDeny(fields)
    requires OrNull(fields, FCallId) == JStr(id) && !CallSeenBefore(w.entries, |w.entries|, JStr(id))
    ensures CallInv(w.chain, Append(hash, w, EventDeny, fields).0.entries) && Append(hash, w, EventDeny, fields).0.chain == w.chain
  {
    hide CallInv, Append, Verifies, IsHead, FRAMING, ValidAllow, ValidDeny, EventOf, IsFraming, CallSeenBefore, OrNull;
    var c := Appended(hash, w, EventDeny, fields);
    if c.Some? {
      CarriesAgrees(w, EventDeny, fields, c.value);
      SameValidity(c.value, fields);
      CarriesFraming(w, EventDeny, fields, c.value);
      DenyExtend(w.chain, w.entries, c.value);
    }
  }

  /** The chain once an allow that promises an observation is pending. */
  function WithPending(c: ChainState, node: string, id: string, capture: string): ChainState {
    if capture == PRE_HOOK_ONLY then c else c.(pending := Register(c.pending, node, id))
  }

  lemma AllowAppend(hash: Hasher, w: World, fields: Entry, node: string, id: string, capture: string)
    requires CallInv(w.chain, w.entries) && fields.Keys !! FRAMING && ValidAllow(fields)
    requires OrNull(fields, FCallId) == JStr(id) && TextOf(fields, FNode) == Some(node) && OrNull(fields, FCapture) == JStr(capture)
    requires IsHex(id, 32) && !CallSeenBefore(w.entries, |w.entries|, JStr(id))
    requires capture == PRE_HOOK_ONLY || (node in w.chain.nodes && !w.chain.nodes[node].complete)
    ensures Append(hash, w, EventAllow, fields).0.chain == w.chain
    ensures var (w', committed) := Append(hash, w, EventAllow, fields);
            CallInv(if committed then WithPending(w.chain, node, id, capture) else w.chain, w'.entries)
  {
    hide CallInv, Append, Verifies, IsHead, FRAMING, ValidAllow, ValidDeny, EventOf, IsFraming, CallSeenBefore, OrNull, TextOf, Register, IsHex;
    var c := Appended(hash, w, EventAllow, fields);
    if c.Some? {
      CarriesAgrees(w, EventAllow, fields, c.value);
      SameValidity(c.value, fields);
      CarriesFraming(w, EventAllow, fields, c.value);
      AllowExtend(w.chain, WithPending(w.chain, node, id, capture), w.entries, c.value, node, id);
    }
  }

  lemma OutcomeAppend(hash: Hasher, w: World, node: string, r: OutcomeReport, fields: Entry)
    requires CallInv(w.chain, w.entries) && fields.Keys !! FRAMING && ValidOutcome(fields)
    requires OrNull(fields, FCallId) == JStr(r.callId) && OrNull(fields, FNode) == JStr(node) && r.callId !in w.chain.outcomed
    requires OrNull(fields, FInvokedParamsHash) == (if r.params.Hashed? then JStr(r.params.digest) else JNull)
    requires ReportsAllowed(w, node, r)
    ensures Append(hash, w, EventOutcome, fields).0.chain == w.chain
    ensures var (w', committed) := Append(hash, w, EventOutcome, fields);
            CallInv(if committed then w.chain.(outcomed := w.chain.outcomed + {r.callId}, pending := Resolve(w.chain.pending, r.callId)) else w.chain, w'.entries)
  {
    var a := LastAllow(w.entries, |w.entries|, JStr(r.callId)).value;
    hide CallInv, Append, Verifies, IsHead, FRAMING, ValidOutcome, EventOf, IsFraming, LastAllow, Resolve;
    var c := Appended(hash, w, EventOutcome, fields);
    if c.Some? {
      CarriesAgrees(w, EventOutcome, fields, c.value);
      SameOutcomeValidity(c.value, fields);
      CarriesFraming(w, EventOutcome, fields, c.value);
      assert SameNode(w.entries[a], c.value) && !HashesDiffer(w.entries[a], c.value);
      hide SameNode, HashesDiffer, OrNull;
      OutcomeExtend(w.chain, w.chain.(outcomed := w.chain.outcomed + {r.callId}, pending := Resolve(w.chain.pending, r.callId)), w.entries, c.value, r.callId, a);
    }
  }

  // ---- kills --------------------------------------------------------------

  lemma PendingAtKillIsHex(c: ChainState, entries: seq<Entry>, nodes: seq<string>)
    requires PendingOk(c, entries)
    ensures forall id :: id in PendingAtKill(c.pending, nodes) ==> IsHex(id, 32)
  {
    hide IsHex, CallSeenBefore;
    forall id | id in PendingAtKill(c.pending, nodes) ensures IsHex(id, 32) {
      var n :| n in nodes && id in PendingFor(c.pending, n);
      PendingAmong(c.pending, n);
      assert HeldBy(c.pending, n, id);
    }
  }

  lemma StringsAreHex(items: seq<string>, n: nat)
    requires forall id :: id in items ==> IsHex(id, n)
    ensures forall v :: v in Strings(items).items ==> IsHexText(v, n)
  {
    hide IsHex;
    forall v | v in Strings(items).items ensures IsHexText(v, n) {
      var i :| 0 <= i < |items| && v == Strings(items).items[i];
      assert items[i] in items;
    }
  }

  lemma KillFieldsAreValid(w: World, target: string, cascade: seq<string>, extra: Entry)
    requires PendingOk(w.chain, w.entries) && extra.Keys <= KILL_EXTRAS
    ensures ValidKill(KillFields(w, target, cascade) + extra) && (KillFields(w, target, cascade) + extra).Keys !! FRAMING
  {
    hide KillFields, PendingAtKill, Dedup, IsHex, IsHexText, FRAMING, PendingOk, KILL_FIELDS, KILL_EXTRAS, V2_ONLY;
    KillFieldsAre(w, target, cascade, extra);
    KillKinds();
    var fields := KillFields(w, target, cascade) + extra;
    SubsetDisjoint(fields.Keys, KILL_FIELDS, FRAMING);
    PendingAtKillIsHex(w.chain, w.entries, cascade);
    StringsAreHex(Dedup(PendingAtKill(w.chain.pending, cascade)), 32);
    KillPending(w, target, cascade, extra);
  }

  lemma KillPending(w: World, target: string, cascade: seq<string>, extra: Entry)
    requires extra.Keys <= KILL_EXTRAS
    ensures var fields := KillFields(w, target, cascade) + extra;
            FPendingAtKill in fields ==> fields[FPendingAtKill] == Strings(Dedup(PendingAtKill(w.chain.pending, cascade)))
  {
    hide Strings, PendingAtKill, Dedup;
  }

  lemma KillCalls(hash: Hasher, w: World, target: string, cascade: seq<string>, extra: Entry)
    requires CallInv(w.chain, w.entries) && extra.Keys <= KILL_EXTRAS
    ensures var w' := Append(hash, w, EventKill, KillFields(w, target, cascade) + extra).0; CallInv(w'.chain, w'.entries)
  {
    KillFieldsAreValid(w, target, cascade, extra);
    hide CallInv, ValidKill, KillFields, Append, FRAMING, KILL_EXTRAS;
    QuietAppend(hash, w, EventKill, KillFields(w, target, cascade) + extra);
  }

  /** Revocation, bans, strikes and meters move no call. */
  lemma SideTablesKeepCalls(c: ChainState, c': ChainState, entries: seq<Entry>)
    requires CallInv(c, entries)
    requires c' == c.(revoked := c'.revoked, banned := c'.banned, strikes := c'.strikes, calls := c'.calls)
    ensures CallInv(c', entries)
  {
    hide CallInv;
    SameWorkKeeps(c, c', entries);
  }

  lemma StrikeCalls(hash: Hasher, w: World, node: string, scope: string, d: Decision, killPersists: bool, cascade: seq<string>)
    requires CallInv(w.chain, w.entries)
    ensures var w' := StrikeStep(hash, w, node, scope, d, killPersists, cascade).0; CallInv(w'.chain, w'.entries)
  {
    hide CallInv, KillFields, Append, Subtree, StrikeKey;
    if CountsStrike(w, node, d) {
      var p := w.cfg.strikes.value;
      var n := Count(w.chain.strikes, StrikeKey(p, node, scope)) + 1;
      var w1 := w.(chain := w.chain.(strikes := w.chain.strikes[StrikeKey(p, node, scope) := n]));
      SideTablesKeepCalls(w.chain, w1.chain, w.entries);
      if n >= p.n {
        var w2 := w1.(chain := w1.chain.(revoked := w1.chain.revoked + Subtree(w1.chain, node)));
        SideTablesKeepCalls(w1.chain, w2.chain, w.entries);
        StrikeKillCalls(hash, w2, node, scope, n, p, cascade);
      }
    }
  }

  lemma StrikeKillCalls(hash: Hasher, w: World, node: string, scope: string, n: int, p: StrikePolicy, cascade: seq<string>)
    requires CallInv(w.chain, w.entries)
    ensures var w' := Append(hash, w, EventKill, KillFields(w, node, cascade)
              + map[FReason := JStr("strike_policy"), FScope := JStr(scope), FStrikes := JNum(n), FMode := JStr(if p.sameScope then "same_scope" else "total")]).0;
            CallInv(w'.chain, w'.entries)
  {
    hide CallInv, KillFields, Append;
    KillCalls(hash, w, node, cascade,
      map[FReason := JStr("strike_policy"), FScope := JStr(scope), FStrikes := JNum(n), FMode := JStr(if p.sameScope then "same_scope" else "total")]);
  }

  lemma RevokeCalls(hash: Hasher, w: World, op: Op)
    requires CallInv(w.chain, w.entries) && op.node in w.chain.nodes && (op.Revoke? || op.RevokeAgent?)
    ensures var w' := Step(hash, w, op); CallInv(w'.chain, w'.entries)
  {
    hide CallInv, KillFields, Append, Subtree, AgentSubtrees;
    if op.Revoke? {
      var w1 := w.(chain := w.chain.(revoked := w.chain.revoked + Subtree(w.chain, op.target)));
      SideTablesKeepCalls(w.chain, w1.chain, w.entries);
      KillCalls(hash, w1, op.target, op.cascade, map[]);
      assert KillFields(w1, op.target, op.cascade) + map[] == KillFields(w1, op.target, op.cascade);
    } else {
      var w1 := w.(chain := w.chain.(revoked := w.chain.revoked + AgentSubtrees(w.chain, op.agent), banned := w.chain.banned + {op.agent}));
      SideTablesKeepCalls(w.chain, w1.chain, w.entries);
      KillCalls(hash, w1, op.node, op.cascade, map[FAgent := JStr(op.agent)]);
    }
  }

  // ---- delegation and completion ------------------------------------------

  lemma DenialNotFraming(w: World, op: Op, code: ReasonCode)
    requires op.Delegate?
    ensures SpawnDeniedFields(w.chain.chainId, w.chain.maxDepth, w.chain.maxFanout, op.node, op.agent, op.task, code).Keys !! FRAMING
  {
    hide SpawnDeniedFields, FRAMING;
    DenialFits(w, op, code);
  }

  lemma SpawnNotFraming(chainId: string, parent: string, node: string, agent: string, task: string, requested: Authority, granted: Authority)
    ensures SpawnFields(chainId, parent, node, agent, task, requested, granted).Keys !! FRAMING
  {
    hide SpawnFields, FRAMING, SPAWN_FIELDS;
    SpawnFieldsAre(chainId, parent, node, agent, task, requested, granted);
    SpawnKinds();
  }

  lemma DelegateCalls(hash: Hasher, w: World, op: Op)
    requires CallInv(w.chain, w.entries) && TreeInv(w.chain) && op.node in w.chain.nodes && op.Delegate?
    ensures var w' := Step(hash, w, op); CallInv(w'.chain, w'.entries)
  {
    hide CallInv, SpawnFields, SpawnDeniedFields, Append, AddChild, FRAMING, SameWork, TreeInv;
    match AddChild(w.chain, op.node, op.agent, op.request, op.task, op.now)
    case Err(code) =>
      DenialNotFraming(w, op, code);
      QuietAppend(hash, w, EventSpawnDenied, SpawnDeniedFields(w.chain.chainId, w.chain.maxDepth, w.chain.maxFanout, op.node, op.agent, op.task, code));
    case Ok(c) =>
      var id := NodeId(w.chain.chainId, w.chain.nextId);
      NextIdIsNew(w.chain);
      SpawnSameWork(w.chain, op.node, op.agent, op.request, op.task, op.now);
      SpawnNotFraming(w.chain.chainId, op.node, id, op.agent, op.task, op.request, c.nodes[id].authority);
      SameWorkKeeps(w.chain, c, w.entries);
      QuietAppend(hash, w.(chain := c), EventSpawn, SpawnFields(w.chain.chainId, op.node, id, op.agent, op.task, op.request, c.nodes[id].authority));
  }

  lemma SpawnSameWork(c: ChainState, parent: string, agent: string, request: Authority, task: string, now: int)
    requires AddChild(c, parent, agent, request, task, now).Ok? && NodeId(c.chainId, c.nextId) !in c.nodes
    ensures var c' := AddChild(c, parent, agent, request, task, now).value; SameWork(c, c') && NodeId(c.chainId, c.nextId) in c'.nodes
  {
    hide NodeId, IsNarrower;
  }

  lemma CompleteCalls(hash: Hasher, w: World, node: string, persists: bool)
    requires CallInv(w.chain, w.entries) && IsV2(w) && node in w.chain.nodes
    ensures var w' := CompleteStep(hash, w, node, persists).0; CallInv(w'.chain, w'.entries)
  {
    var n := w.chain.nodes[node];
    if !n.complete && PendingFor(w.chain.pending, node) == [] {
      MarkedKeepsCalls(w, node);
      var fields := DoneFields(w.chain.chainId, node, n.agent);
      assert fields.Keys !! FRAMING && TextOf(fields, FNode) == Some(node);
      hide CallInv, Append, PendingFor, DoneFields, TextOf, FRAMING;
      QuietAppend(hash, Marked(w, node), EventDone, fields);
    }
  }

  // ---- decisions ----------------------------------------------------------

  lemma DecisionNotFraming(chainId: string, node: string, d: Decision, scope: string, tool: Option<string>, ctx: Context, disposition: Option<string>, extra: Entry)
    requires extra.Keys <= CALL_FIELDS
    ensures var fields := DecisionFields(chainId, node, d, scope, tool, ctx, disposition) + extra;
            fields.Keys !! FRAMING && TextOf(fields, FNode) == Some(node)
  {
    hide DecisionFields, DECISION_FIELDS, CALL_FIELDS, FRAMING;
    DecisionFieldsAre(chainId, node, d, scope, tool, ctx, disposition);
    FieldKindsAreDisjoint();
    var base := DecisionFields(chainId, node, d, scope, tool, ctx, disposition);
    assert FNode in base && FNode in DECISION_FIELDS by { assert base.Keys <= DECISION_FIELDS; }
    assert FNode !in extra;
    SubsetDisjoint(base.Keys, DECISION_FIELDS, FRAMING);
    SubsetDisjoint(extra.Keys, CALL_FIELDS, FRAMING);
  }

  lemma RecordDenialCalls(hash: Hasher, w: World, node: string, reason: Reason, scope: string, tool: Option<string>, ctx: Context,
                          disposition: Option<string>, callId: Option<string>, persists: bool)
    requires CallInv(w.chain, w.entries) && IsV2(w) && FreshId(w, callId)
    ensures var w' := RecordDenialStep(hash, w, node, reason, scope, tool, ctx, disposition, callId, persists).0; CallInv(w'.chain, w'.entries)
  {
    hide CallInv, DecisionFields, Append, DISPOSITIONS, IsHex, CallSeenBefore, ValidDeny, FRAMING, CALL_FIELDS, EventOfDecision;
    if callId.Some? {
      var d := Denied(reason).(callId := callId);
      var extra: Entry := map[FCallId := JStr(callId.value)];
      assert extra.Keys <= CALL_FIELDS by { CallIdIsCallField(); }
      DecisionNotFraming(w.chain.chainId, node, d, scope, tool, ctx, disposition, extra);
      DenyFieldsAreValid(w, node, d, scope, tool, ctx, disposition, callId.value);
      DenyAppend(hash, w, DecisionFields(w.chain.chainId, node, d, scope, tool, ctx, disposition) + extra, callId.value);
    }
  }

  lemma CallIdIsCallField()
    ensures FCallId in CALL_FIELDS
  {
  }

  lemma PassthroughCalls(hash: Hasher, w: World, op: Op)
    requires CallInv(w.chain, w.entries) && IsV2(w) && op.RecordPassthrough? && FreshId(w, op.callId) && op.node in w.chain.nodes
    ensures var w' := Step(hash, w, op); CallInv(w'.chain, w'.entries)
  {
    hide CallInv, PassthroughFields, Append, IsHex, CallSeenBefore, ValidAllow, FRAMING;
    if op.callId.Some? && op.policy == UNLISTED {
      var d := Decision(true, [], op.callId);
      PassthroughFits(w, op.node, op.name, op.scope, op.ctx, op.policy, d);
      PassthroughFieldsAre(w, op.node, op.name, op.scope, op.ctx, op.policy, d);
      PassthroughIsValid(w, op.node, op.name, op.scope, op.ctx, d);
      AllowAppend(hash, w, PassthroughFields(w, op.node, op.name, op.scope, op.ctx, op.policy, d), op.node, op.callId.value, PRE_HOOK_ONLY);
    }
  }

  lemma OutcomeCalls(hash: Hasher, w: World, node: string, r: OutcomeReport, persists: bool)
    requires CallInv(w.chain, w.entries) && ReportsAllowed(w, node, r)
    ensures var w' := RecordOutcomeStep(hash, w, node, r, persists).0; CallInv(w'.chain, w'.entries)
  {
    hide CallInv, OutcomeFields, Append, IsHex, ValidOutcome, FRAMING, ReportAccepted, Resolve, ReportsAllowed, OUTCOME_FIELDS;
    if ReportAccepted(w, r) && r.callId !in w.chain.outcomed {
      var fields := OutcomeFields(w.chain.chainId, node, r);
      ReportedIsHex(w, node, r);
      OutcomeFieldsAre(w.chain.chainId, node, r);
      SubsetDisjoint(fields.Keys, OUTCOME_FIELDS, FRAMING);
      OutcomeFieldsAreValid(w, node, r);
      OutcomeAppend(hash, w, node, r, fields);
    }
  }

  lemma ReportedIsHex(w: World, node: string, r: OutcomeReport)
    requires ReportsAllowed(w, node, r)
    ensures IsHex(r.callId, 32) && IsDigest(r.params)
  {
    var a := LastAllow(w.entries, |w.entries|, JStr(r.callId)).value;
    assert HasCallId(w.entries[a]);
  }

  // ---- check --------------------------------------------------------------

  predicate OptionsNamed(o: CheckOptions) {
    IsDigest(o.params) && (o.adapter.Some? ==> IsNamed(o.adapter.value)) && (o.capture.Some? ==> o.capture.value in CAPTURES && o.adapter.Some?)
  }

  lemma CheckNotFraming(w: World, node: string, scope: string, o: CheckOptions, ctx: Context, d: Decision)
    ensures var fields := CheckFields(w, node, scope, o, ctx, d); fields.Keys !! FRAMING && TextOf(fields, FNode) == Some(node)
  {
    hide DecisionFields, CallFields, CALL_FIELDS, FRAMING, TextOf;
    CallFieldsAre(w, d, o, d.callId);
    DecisionNotFraming(w.chain.chainId, node, d, scope, o.tool, ctx, o.disposition, CallFields(w, d, o, d.callId));
  }

  lemma TerminalUnlessPreHook(o: CheckOptions)
    requires CaptureUsed(o) in CAPTURES
    ensures CaptureUsed(o) in TERMINAL_CAPTURES <==> CaptureUsed(o) != PRE_HOOK_ONLY
  {
    hide CaptureUsed;
  }

  /** The append of a decision, with its registration. */
  lemma DecisionAppend(hash: Hasher, w: World, node: string, scope: string, o: CheckOptions, ctx: Context, d: Decision)
    requires CallInv(w.chain, w.entries) && node in w.chain.nodes && OptionsNamed(o)
    requires d.callId.Some? && FreshId(w, d.callId) && (d.allowed ==> !w.chain.nodes[node].complete)
    ensures var (w1, committed) := Append(hash, w, EventOfDecision(d), CheckFields(w, node, scope, o, ctx, d));
            && w1.chain == w.chain
            && (committed ==> CallInv(Registered(w1, node, o, d).chain, w1.entries))
            && (!committed ==> w1.entries == w.entries)
  {
    hide CallInv, CheckFields, Append, IsHex, CallSeenBefore, ValidAllow, ValidDeny, FRAMING, CaptureUsed, CAPTURES, TERMINAL_CAPTURES, Register, IsNamed, TextOf;
    var fields := CheckFields(w, node, scope, o, ctx, d);
    CheckNotFraming(w, node, scope, o, ctx, d);
    AppendSameTree(hash, w, EventOfDecision(d), fields);
    if d.allowed {
      CheckAllowIsValid(w, node, scope, o, ctx, d);
      TerminalUnlessPreHook(o);
      AllowAppend(hash, w, fields, node, d.callId.value, CaptureUsed(o));
    } else {
      CheckDenyIsValid(w, node, scope, o, ctx, d);
      DenyAppend(hash, w, fields, d.callId.value);
    }
  }

  lemma CommitCalls(hash: Hasher, w: World, restored: map<string, nat>, node: string, scope: string, o: CheckOptions, a: Authorized, env: Environment, cascade: seq<string>)
    requires CallInv(w.chain, w.entries) && IsV2(w) && node in w.chain.nodes && OptionsNamed(o) && env.callId.Some?
    requires FreshId(w, env.callId) && FreshId(w, env.fallbackId) && (a.decision.allowed ==> !w.chain.nodes[node].complete)
    ensures var w' := CommitStep(hash, w, restored, node, scope, o, a, env, cascade).0; CallInv(w'.chain, w'.entries)
  {
    hide CallInv, CheckFields, Append, IsHex, CallSeenBefore, OptionsNamed, StrikeStep, RecordDenialStep, Registered, Canonicalizable;
    var d := a.decision.(callId := env.callId);
    DecisionAppend(hash, w, node, scope, o, a.metering.ctx, d);
    var (w1, committed) := Append(hash, w, EventOfDecision(d), CheckFields(w, node, scope, o, a.metering.ctx, d));
    AppendSameTree(hash, w, EventOfDecision(d), CheckFields(w, node, scope, o, a.metering.ctx, d));
    if committed {
      RegisteredKeepsEntries(w1, node, o, d);
      StrikeCalls(hash, Registered(w1, node, o, d), node, scope, d, env.killPersists, cascade);
    } else {
      var back := WithCalls(w1, restored);
      SideTablesKeepCalls(w.chain, back.chain, w.entries);
      RecordDenialCalls(hash, back, node, Reason(NoAuthority, Some("context")), scope, o.tool, [], Some("unresolved"), env.fallbackId, env.fallbackPersists);
    }
  }

  lemma RegisteredKeepsEntries(w: World, node: string, o: CheckOptions, d: Decision)
    ensures Registered(w, node, o, d).entries == w.entries
  {
  }

  lemma CheckCalls(hash: Hasher, w: World, op: Op)
    requires CallInv(w.chain, w.entries) && IsV2(w) && op.Check? && LegalCalls(w, op) && op.node in w.chain.nodes
    ensures var w' := Step(hash, w, op); CallInv(w'.chain, w'.entries)
  {
    hide CallInv, IsHex, CallSeenBefore, CommitStep, Counted, Restored, AutoMeter, Evaluate, IsNamed, CAPTURES, DISPOSITIONS;
    var a := Authorize(w, op.node, op.scope, op.options, op.env.now);
    if OptionsAccepted(w, op.options) && a.Some? {
      var counted := WithCalls(w, Counted(w, op.node, a.value));
      SideTablesKeepCalls(w.chain, WithCalls(w, Restored(w, op.node, a.value)).chain, w.entries);
      SideTablesKeepCalls(w.chain, counted.chain, w.entries);
      if op.env.callId.Some? {
        CommitCalls(hash, counted, Restored(w, op.node, a.value), op.node, op.scope, op.options, a.value, op.env, op.cascade);
      }
    }
  }

  /** Every legal call keeps the runtime and the recorded calls in step. */
  lemma StepKeepsCalls(hash: Hasher, w: World, op: Op)
    requires LedgerInv(hash, w) && CallInv(w.chain, w.entries) && IsV2(w) && Legal(w, op) && LegalCalls(w, op)
    ensures var w' := Step(hash, w, op); CallInv(w'.chain, w'.entries)
  {
    assert TreeInv(w.chain) && op.node in w.chain.nodes;
    hide LedgerInv, CallInv, Legal, FreshId, ReportsAllowed, DelegateStep, CheckStep, RecordDenialStep, RecordPassthroughStep, CompleteStep,
      RecordOutcomeStep, RevokeStep, RevokeAgentStep, IsDigest, IsNamed;
    match op
    case Delegate(_, _, _, _, _, _) => DelegateCalls(hash, w, op);
    case Check(_, _, _, _, _) => CheckCalls(hash, w, op);
    case RecordDenial(node, reason, scope, tool, ctx, disposition, callId, persists) =>
      RecordDenialCalls(hash, w, node, reason, scope, tool, ctx, disposition, callId, persists);
    case RecordPassthrough(_, _, _, _, _, _, _) => PassthroughCalls(hash, w, op);
    case Complete(node, persists) => CompleteCalls(hash, w, node, persists);
    case RecordOutcome(node, report, persists) => OutcomeCalls(hash, w, node, report, persists);
    case Revoke(_, _, _, _) => RevokeCalls(hash, w, op);
    case RevokeAgent(_, _, _, _) => RevokeCalls(hash, w, op);
  }
}
