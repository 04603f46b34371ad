/**
 * What the offline verifier finds in an untrusted ledger (src/evidence.ts), stated of the entries alone:
 * each rule says which finding an entry earns from itself and the entries before it.
 */
module EvidenceRules {
  import opened Results
  import opened PlainJson
  import opened Scopes
  import opened Ceilings
  import opened Authorities
  import opened AuthorityWire
  import opened Audit
  import opened Ledger

  datatype Finding =
    | UnsupportedVersion | MissingRoot | RootVersionMismatch | MixedEntryVersions
    | UnknownLedgerEvent | UnknownLedgerFields | InvalidNode | ExpectedHeadMismatch | ChainIdMismatch | BrokenChain
    | UnreadableAuthority | UnreadableGranted
    | DefinedTwice | NoParentDefined | ParentRevoked | WiderThanParent
    | UnknownNode | AllowAfterRevocation | OutsideAuthority
    | V2FieldOnV1 | InvalidRoot | InvalidKill | DuplicateCallId | InvalidAllow | InvalidDeny | InvalidOutcome
    | DuplicateOutcome | OutcomeWithoutAllow | CrossRef | OutcomeBeforeAllow | ParamsMismatch
    | InvalidPolicy | PolicyOnNonAllow

  /** A finding and the entry it is about; none for a finding about the whole bundle. */
  datatype Failure = Failure(finding: Finding, entry: Option<nat>)

  // ---- nodes and kills ----------------------------------------------------

  predicate IsDefinition(e: Entry) {
    EventOf(e) == Some(EventRoot) || EventOf(e) == Some(EventSpawn)
  }

  predicate Defines(e: Entry, node: string) {
    IsDefinition(e) && TextOf(e, FNode) == Some(node)
  }

  predicate DefinedBefore(entries: seq<Entry>, i: nat, node: string)
    requires i <= |entries|
  {
    exists j :: 0 <= j < i && Defines(entries[j], node)
  }

  predicate Kills(e: Entry, node: string) {
    EventOf(e) == Some(EventKill) && e.Keys >= {FRevoked} && e[FRevoked].JArr? && JStr(node) in e[FRevoked].items
  }

  predicate KilledBefore(entries: seq<Entry>, i: nat, node: string)
    requires i <= |entries|
  {
    exists j :: 0 <= j < i && Kills(entries[j], node)
  }

  /** The entry a node is defined by: the first one below `n`. */
  function FirstDefinition(entries: seq<Entry>, n: nat, node: string): (r: Option<nat>)
    requires n <= |entries|
    ensures r.Some? ==> r.value < n && Defines(entries[r.value], node) && !DefinedBefore(entries, r.value, node)
    ensures r.None? <==> !DefinedBefore(entries, n, node)
  {
    var p := DefinesAt(entries, node);
    assert forall i: nat {:trigger Defines(entries[i], node)} :: i < |entries| ==> p(i) == Defines(entries[i], node);
    First(n, p)
  }

  function DefinesAt(entries: seq<Entry>, node: string): nat -> bool {
    (i: nat) => i < |entries| && Defines(entries[i], node)
  }

  /** The authority a root holds or a spawn grants, read whole from the entry at `at`. */
  function AuthorityIn(e: Entry, at: nat): Option<Authority> {
    ReadAuthority(Get(e, if EventOf(e) == Some(EventRoot) then FAuthority else FGranted), at)
  }

  /** `nodeAuthorities`: the authority a node's definition carries. */
  function AuthorityOf(entries: seq<Entry>, node: string): Option<Authority> {
    match FirstDefinition(entries, |entries|, node)
    case Some(j) => AuthorityIn(entries[j], j)
    case None => None
  }

  // ---- rules about one entry ----------------------------------------------

  function Only(condition: bool, f: Finding): (r: seq<Finding>)
    ensures r == [] <==> !condition
  {
    if condition then [f] else []
  }

  function EventFindings(version: Option<Json>, e: Entry): seq<Finding> {
    var known := EventOf(e).Some? && !(version == Some(JNum(1)) && EventOf(e) == Some(EventOutcome));
    Only(!known, UnknownLedgerEvent) + Only(exists f :: f in e && f.FOther?, UnknownLedgerFields)
  }

  function NodeFindings(e: Entry): seq<Finding> {
    var node := OrNull(e, FNode);
    Only(!IsDefinition(e) && EventOf(e) != Some(EventAllow) && !node.JNull? && !node.JStr?, InvalidNode)
  }

  function DefinitionFindings(entries: seq<Entry>, i: nat): seq<Finding> {
    if i >= |entries| || !IsDefinition(entries[i]) then []
    else
      var e := entries[i];
      var unreadable := if EventOf(e) == Some(EventRoot) then UnreadableAuthority else UnreadableGranted;
      match TextOf(e, FNode)
      case None => [unreadable]
      case Some(node) => Only(!DefinedBefore(entries, i, node) && AuthorityIn(e, i).None?, unreadable)
  }

  /** Every child is within its parent, read in ledger order. */
  function MonotonicityFindings(entries: seq<Entry>, i: nat): seq<Finding> {
    if i >= |entries| || !IsDefinition(entries[i]) || TextOf(entries[i], FNode).None? then []
    else
      var node := TextOf(entries[i], FNode).value;
      if DefinedBefore(entries, i, node) then [DefinedTwice]
      else if EventOf(entries[i]) == Some(EventRoot) then []
      else
        match TextOf(entries[i], FParent)
        case None => [NoParentDefined]
        case Some(parent) =>
          if !DefinedBefore(entries, i, parent) then [NoParentDefined]
          else if KilledBefore(entries, i, parent) then [ParentRevoked]
          else
            match (AuthorityOf(entries, node), AuthorityOf(entries, parent))
            case (Some(child), Some(p)) => Only(!IsNarrower(child, p), WiderThanParent)
            case _ => []
  }

  /** The context an allow was checked against: absent and Python-false values are none. */
  function ContextOf(e: Entry): Option<Context> {
    match OrNull(e, FContext)
    case JNull => Some([])
    case JBool(b) => if b then None else Some([])
    case JNum(n) => if n == 0 then Some([]) else None
    case JStr(s) => if s == "" then Some([]) else None
    case JArr(items) => if items == [] then Some([]) else None
    case JObj(members) => Some(members)
  }

  predicate IsUngated(e: Entry) {
    EventOf(e) == Some(EventAllow) && IsKnownPolicy(Get(e, FPolicy))
  }

  /** An allow the chain authorized. */
  predicate IsGated(e: Entry) {
    EventOf(e) == Some(EventAllow) && !IsKnownPolicy(Get(e, FPolicy))
  }

  /** Every allowed action is within the acting node's authority, and the node is not yet killed. */
  function ContainmentFindings(entries: seq<Entry>, i: nat): seq<Finding> {
    if i >= |entries| || !IsGated(entries[i]) then []
    else
      var e := entries[i];
      match TextOf(e, FNode)
      case None => [UnknownNode]
      case Some(node) =>
        if !DefinedBefore(entries, i, node) || AuthorityOf(entries, node).None? then [UnknownNode]
        else if KilledBefore(entries, i, node) then [AllowAfterRevocation]
        else
          match (TextOf(e, FScope), ContextOf(e))
          case (Some(scope), Some(ctx)) => Only(!Grants(AuthorityOf(entries, node).value, scope, ctx, []), OutsideAuthority)
          case _ => [OutsideAuthority]
  }

  function PolicyFindings(version: Option<Json>, e: Entry): seq<Finding> {
    if FPolicy !in e then []
    else if EventOf(e) == Some(EventAllow) then
      Only(version != Some(JNum(2)) && !IsKnownPolicy(Get(e, FPolicy)), InvalidPolicy)
    else
      Only(!(EventOf(e) == Some(EventDeny) && version == Some(JNum(2))), PolicyOnNonAllow)
  }

  // ---- execution binding --------------------------------------------------

  const V2_ONLY: set<Field> := {
    FCallId, FCapture, FAdapter, FAuthorizedParamsHash, FParamsHashReason, FParamsSalt, FBodyState, FErrorCode,
    FInvokedParamsHash, FDurationMs, FReceipt, FPendingAtKill}

  function LeakFindings(e: Entry): seq<Finding> {
    Only(exists f :: f in e && f in V2_ONLY, V2FieldOnV1)
  }

  predicate IsHexText(v: Json, n: nat) { v.JStr? && IsHex(v.text, n) }

  predicate HasCallId(e: Entry) { FCallId in e && IsHexText(e[FCallId], 32) }

  predicate NonEmptyText(members: seq<Member>, name: string) {
    match Own(members, name) case Some(JStr(s)) => s != "" case _ => false
  }

  predicate ValidHash(e: Entry, f: Field) { f in e ==> IsHexText(e[f], 64) }

  predicate ValidHashReason(e: Entry, f: Field) {
    FParamsHashReason in e ==> e[FParamsHashReason] == JStr("unsupported") && OrNull(e, f).JNull?
  }

  predicate ValidAllow(e: Entry) {
    && HasCallId(e)
    && FCapture in e && e[FCapture].JStr? && e[FCapture].text in CAPTURES
    && FAdapter in e && e[FAdapter].JObj?
    && (var m := e[FAdapter].members; NonEmptyText(m, "module") && NonEmptyText(m, "version") && NonEmptyText(m, "hook_path"))
    && (FPolicy in e ==> IsKnownPolicy(Get(e, FPolicy)))
    && ValidHash(e, FAuthorizedParamsHash) && ValidHashReason(e, FAuthorizedParamsHash)
  }

  predicate ValidDeny(e: Entry) {
    HasCallId(e) && FCapture !in e && FAdapter !in e && FAuthorizedParamsHash !in e && FParamsHashReason !in e && FPolicy !in e
  }

  predicate ValidReceipt(v: Json) {
    v.JObj? && NonEmptyText(v.members, "type") && NonEmptyText(v.members, "ref") &&
    match Own(v.members, "digest") case Some(d) => IsHexText(d, 64) case None => false
  }

  predicate ValidOutcome(e: Entry) {
    && HasCallId(e)
    && FBodyState in e && e[FBodyState].JStr? && e[FBodyState].text in BODY_STATES
    && (if e[FBodyState].text == BODY_RAISED then FErrorCode in e && e[FErrorCode].JStr? && e[FErrorCode].text != "" else FErrorCode !in e)
    && FDurationMs in e && e[FDurationMs].JNum? && e[FDurationMs].number >= 0
    && ValidHash(e, FInvokedParamsHash) && ValidHashReason(e, FInvokedParamsHash)
    && (FReceipt in e ==> ValidReceipt(e[FReceipt]))
  }

  predicate ValidRoot(e: Entry) { FParamsSalt in e && IsHexText(e[FParamsSalt], 32) }

  predicate ValidKill(e: Entry) {
    FPendingAtKill in e ==> e[FPendingAtKill].JArr? && forall c :: c in e[FPendingAtKill].items ==> IsHexText(c, 32)
  }

  predicate IsJudged(e: Entry) { EventOf(e) == Some(EventAllow) || EventOf(e) == Some(EventDeny) }

  /** The call an allow, a deny or an outcome names. */
  predicate NamesCall(e: Entry, cid: Json) { IsKey(cid) && OrNull(e, FCallId) == cid }

  /** A call id a later entry can name again: a list or an object is a key of its own wherever it is read. */
  predicate IsKey(cid: Json) { !cid.JNull? && !IsComposite(cid) }

  predicate CallSeenBefore(entries: seq<Entry>, i: nat, cid: Json)
    requires i <= |entries|
  {
    exists j :: 0 <= j < i && IsJudged(entries[j]) && NamesCall(entries[j], cid)
  }

  predicate IsAllowOf(e: Entry, cid: Json) { EventOf(e) == Some(EventAllow) && ValidAllow(e) && NamesCall(e, cid) }

  predicate IsOutcomeOf(e: Entry, cid: Json) { EventOf(e) == Some(EventOutcome) && ValidOutcome(e) && NamesCall(e, cid) }

  predicate OutcomeBefore(entries: seq<Entry>, i: nat, cid: Json)
    requires i <= |entries|
  {
    exists j :: 0 <= j < i && IsOutcomeOf(entries[j], cid)
  }

  /** What an entry earns in the first pass of `executionBinding`. */
  function RecordFindings(entries: seq<Entry>, i: nat): seq<Finding> {
    if i >= |entries| then []
    else
      var e := entries[i];
      match EventOf(e)
      case Some(EventRoot) => Only(!ValidRoot(e), InvalidRoot)
      case Some(EventKill) => Only(!ValidKill(e), InvalidKill)
      case Some(EventAllow) => Only(CallSeenBefore(entries, i, OrNull(e, FCallId)), DuplicateCallId) + Only(!ValidAllow(e), InvalidAllow)
      case Some(EventDeny) => Only(CallSeenBefore(entries, i, OrNull(e, FCallId)), DuplicateCallId) + Only(!ValidDeny(e), InvalidDeny)
      case Some(EventOutcome) =>
        if !ValidOutcome(e) then [InvalidOutcome] else Only(OutcomeBefore(entries, i, OrNull(e, FCallId)), DuplicateOutcome)
      case _ => []
  }

  function AllowsAt(entries: seq<Entry>, cid: Json): nat -> bool {
    (i: nat) => i < |entries| && IsAllowOf(entries[i], cid)
  }

  /** The allow an outcome is bound against: the last valid one of its call below `n`. */
  function LastAllow(entries: seq<Entry>, n: nat, cid: Json): (r: Option<nat>)
    requires n <= |entries|
    ensures r.Some? ==> r.value < n && IsAllowOf(entries[r.value], cid)
    ensures r.Some? ==> forall k :: r.value < k < n ==> !IsAllowOf(entries[k], cid)
    ensures r.None? ==> forall k :: 0 <= k < n ==> !IsAllowOf(entries[k], cid)
  {
    var p := AllowsAt(entries, cid);
    assert forall k: nat {:trigger IsAllowOf(entries[k], cid)} :: k < |entries| ==> p(k) == IsAllowOf(entries[k], cid);
    Last(n, p)
  }

  function OutcomesAt(entries: seq<Entry>, cid: Json): nat -> bool {
    (i: nat) => i < |entries| && IsOutcomeOf(entries[i], cid)
  }

  function FirstOutcome(entries: seq<Entry>, n: nat, cid: Json): (r: Option<nat>)
    requires n <= |entries|
    ensures r.Some? ==> r.value < n && IsOutcomeOf(entries[r.value], cid) && !OutcomeBefore(entries, r.value, cid)
    ensures r.None? <==> !OutcomeBefore(entries, n, cid)
  {
    var p := OutcomesAt(entries, cid);
    assert forall k: nat {:trigger IsOutcomeOf(entries[k], cid)} :: k < |entries| ==> p(k) == IsOutcomeOf(entries[k], cid);
    First(n, p)
  }

  /** Strict equality: an absent node is not a null one, and a list or an object equals none parsed apart from it. */
  predicate SameNode(a: Entry, b: Entry) {
    Get(a, FNode) == Get(b, FNode) && !OrNull(a, FNode).JArr? && !OrNull(a, FNode).JObj?
  }

  predicate SeqAfter(later: Entry, earlier: Entry) {
    OrNull(later, FSeq).JNum? && OrNull(earlier, FSeq).JNum? && OrNull(later, FSeq).number > OrNull(earlier, FSeq).number
  }

  predicate HashesDiffer(allow: Entry, outcome: Entry) {
    var a, b := OrNull(allow, FAuthorizedParamsHash), OrNull(outcome, FInvokedParamsHash);
    !a.JNull? && !b.JNull? && a != b
  }

  /** What a first outcome earns when it is bound to its allow. */
  function BindingFindings(entries: seq<Entry>, i: nat): seq<Finding> {
    if i >= |entries| then []
    else
      var e := entries[i];
      var cid := OrNull(e, FCallId);
      if !IsOutcomeOf(e, cid) || OutcomeBefore(entries, i, cid) then []
      else
        match LastAllow(entries, |entries|, cid)
        case None => [OutcomeWithoutAllow]
        case Some(a) =>
          Only(!SameNode(entries[a], e), CrossRef) + Only(!SeqAfter(e, entries[a]), OutcomeBeforeAllow)
          + Only(HashesDiffer(entries[a], e), ParamsMismatch)
  }

  // ---- per call, per node, aggregate --------------------------------------

  datatype CallState = Observed | Unobserved | Unaccounted

  predicate IsInvalidAllowOf(e: Entry, cid: Json) { EventOf(e) == Some(EventAllow) && !ValidAllow(e) && NamesCall(e, cid) }

  predicate InvalidAllowBefore(entries: seq<Entry>, i: nat, cid: Json)
    requires i <= |entries|
  {
    exists j :: 0 <= j < i && IsInvalidAllowOf(entries[j], cid)
  }

  /** An outcome exists and passed identity and order binding. */
  predicate IsBound(entries: seq<Entry>, cid: Json) {
    match (FirstOutcome(entries, |entries|, cid), LastAllow(entries, |entries|, cid))
    case (Some(o), Some(a)) => SameNode(entries[a], entries[o]) && SeqAfter(entries[o], entries[a])
    case _ => false
  }

  function CallStateOf(entries: seq<Entry>, cid: Json): Option<CallState> {
    match LastAllow(entries, |entries|, cid)
    case None => None
    case Some(a) =>
      if InvalidAllowBefore(entries, |entries|, cid) then None
      else if IsBound(entries, cid) then Some(Observed)
      else if OrNull(entries[a], FCapture) == JStr(PRE_HOOK_ONLY) then Some(Unobserved)
      else Some(Unaccounted)
  }

  datatype Lifecycle = Finalized | InProgress | RevokedClean | RevokedWithPending

  predicate IsUnaccountedOn(entries: seq<Entry>, cid: Json, node: string) {
    CallStateOf(entries, cid) == Some(Unaccounted)
    && TextOf(entries[LastAllow(entries, |entries|, cid).value], FNode) == Some(node)
  }

  /** A call of the node promised an observation and has none. */
  ghost predicate HasUnaccounted(entries: seq<Entry>, node: string) {
    exists cid :: IsUnaccountedOn(entries, cid, node)
  }

  ghost predicate HasUnobserved(entries: seq<Entry>) {
    exists cid :: CallStateOf(entries, cid) == Some(Unobserved)
  }

  predicate Finishes(e: Entry, node: string) { EventOf(e) == Some(EventDone) && TextOf(e, FNode) == Some(node) }

  predicate DoneBefore(entries: seq<Entry>, i: nat, node: string)
    requires i <= |entries|
  {
    exists j :: 0 <= j < i && Finishes(entries[j], node)
  }

  ghost function LifecycleOf(entries: seq<Entry>, node: string): Lifecycle {
    if DoneBefore(entries, |entries|, node) then Finalized
    else if KilledBefore(entries, |entries|, node) then (if HasUnaccounted(entries, node) then RevokedWithPending else RevokedClean)
    else InProgress
  }

  datatype Aggregate = Clean | Incomplete | Failed

  /** A finished node with a call that never reported. */
  ghost predicate NodeFails(entries: seq<Entry>, node: string) {
    DefinedBefore(entries, |entries|, node) && LifecycleOf(entries, node) == Finalized && HasUnaccounted(entries, node)
  }

  ghost predicate NodeIsOpen(entries: seq<Entry>, node: string) {
    DefinedBefore(entries, |entries|, node)
    && (LifecycleOf(entries, node) == InProgress || LifecycleOf(entries, node) == RevokedWithPending)
  }

  ghost function AggregateOf(entries: seq<Entry>, failures: seq<Failure>): Aggregate {
    if failures != [] || exists n :: NodeFails(entries, n) then Failed
    else if (exists n :: NodeIsOpen(entries, n)) || HasUnobserved(entries) then Incomplete
    else Clean
  }

  // ---- collecting ---------------------------------------------------------

  function At(findings: seq<Finding>, i: nat): seq<Failure> {
    Map(findings, f => Failure(f, Some(i)))
  }

  /** The positions below `n` where `p` holds. */
  function Indices(n: nat, p: nat -> bool): (r: seq<nat>)
    ensures forall i: nat {:trigger i in r} :: i in r <==> i < n && p(i)
  {
    if n == 0 then [] else if p(n - 1) then Indices(n - 1, p) + [n - 1] else Indices(n - 1, p)
  }

  lemma {:induction false} NoIndex(n: nat, p: nat -> bool)
    requires forall i: nat :: i < n ==> !p(i)
    ensures Indices(n, p) == []
  {
    if n > 0 { NoIndex(n - 1, p); }
  }

  lemma {:induction false} OnlyIndex(n: nat, p: nat -> bool, k: nat)
    requires k < n && forall i: nat :: i < n ==> p(i) == (i == k)
    ensures Indices(n, p) == [k]
  {
    if k < n - 1 {
      OnlyIndex(n - 1, p, k);
    } else {
      NoIndex(k, p);
    }
  }

  /** The failures of the entries below `n`, in ledger order. */
  function Collect(n: nat, rule: nat -> seq<Finding>): seq<Failure> {
    if n == 0 then [] else Collect(n - 1, rule) + At(rule(n - 1), n - 1)
  }

  lemma {:induction false} CollectedNothing(n: nat, rule: nat -> seq<Finding>)
    ensures Collect(n, rule) == [] <==> forall i: nat :: i < n ==> rule(i) == []
  {
    if n > 0 {
      CollectedNothing(n - 1, rule);
      assert |At(rule(n - 1), n - 1)| == |rule(n - 1)|;
    }
  }

  /** The failures a rule reports at the listed positions. */
  function CollectAt(at: seq<nat>, rule: nat -> seq<Finding>): seq<Failure> {
    if at == [] then []
    else var i := at[|at| - 1]; CollectAt(at[..|at| - 1], rule) + At(rule(i), i)
  }

  lemma CollectAtNext(at: seq<nat>, k: nat, rule: nat -> seq<Finding>)
    requires k < |at|
    ensures CollectAt(at[..k + 1], rule) == CollectAt(at[..k], rule) + At(rule(at[k]), at[k])
  {
    CollectAtLast(at[..k], at[k], rule);
    assert at[..k + 1] == at[..k] + [at[k]];
  }

  lemma CollectedNone(rule: nat -> seq<Finding>)
    ensures Collect(0, rule) == []
  {
  }

  lemma CollectLast(n: nat, rule: nat -> seq<Finding>)
    ensures Collect(n + 1, rule) == Collect(n, rule) + At(rule(n), n)
    ensures rule(n) == [] ==> Collect(n + 1, rule) == Collect(n, rule)
  {
    assert At([], n) == [];
  }

  lemma CollectAtLast(at: seq<nat>, i: nat, rule: nat -> seq<Finding>)
    ensures CollectAt(at + [i], rule) == CollectAt(at, rule) + At(rule(i), i)
  {
    assert (at + [i])[..|at|] == at;
  }

  /** A rule silent elsewhere reports, walked over those positions alone, what a walk over every entry would. */
  lemma {:induction false} CollectIndices(n: nat, p: nat -> bool, rule: nat -> seq<Finding>)
    requires forall i: nat :: i < n && !p(i) ==> rule(i) == []
    ensures CollectAt(Indices(n, p), rule) == Collect(n, rule)
  {
    if n == 0 {
    } else {
      CollectIndices(n - 1, p, rule);
      CollectLast(n - 1, rule);
      hide Collect, CollectAt, At;
      CollectAtLast(Indices(n - 1, p), n - 1, rule);
    }
  }
}
