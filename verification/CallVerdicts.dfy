/** What the offline verifier reports of calls and their outcomes, read off the entries' members. */
module CallVerdicts {
  import opened Results
  import opened PlainJson
  import opened Ceilings
  import opened Audit
  import opened Ledger
  import opened EvidenceRules
  import opened Evidence
  import opened Bounds
  import opened EntryVerdicts

  // ---- whole records ------------------------------------------------------

  predicate IsHexWord(v: Json, n: nat) {
    v.JStr? && |v.text| == n && forall k :: 0 <= k < n ==> '0' <= v.text[k] <= '9' || 'a' <= v.text[k] <= 'f'
  }

  /** An object names a text that is not empty. */
  ghost predicate IsFilled(members: seq<Member>, name: string) {
    exists s :: s != "" && Says(members, name, JStr(s))
  }

  lemma FilledIff(members: seq<Member>, name: string)
    ensures NonEmptyText(members, name) <==> IsFilled(members, name)
  {
    hide Own, Says;
    forall v { OwnIff(members, name, v); }
  }

  /** A commitment to arguments: 64 digits, or the reason there is none. */
  predicate CommitsOrSays(e: Entry, f: Field) {
    && (f in e ==> IsHexWord(e[f], 64))
    && (FParamsHashReason in e ==> e[FParamsHashReason] == JStr("unsupported") && f !in e)
  }

  predicate HasCall(e: Entry) { FCallId in e && IsHexWord(e[FCallId], 32) }

  ghost predicate IsWholeAllow(e: Entry) {
    && HasCall(e) && FCapture in e
    && e[FCapture] in {JStr("wrapper_sync"), JStr("wrapper_async"), JStr("framework_post_hook"), JStr("pre_hook_only")}
    && FAdapter in e && e[FAdapter].JObj?
    && IsFilled(e[FAdapter].members, "module") && IsFilled(e[FAdapter].members, "version") && IsFilled(e[FAdapter].members, "hook_path")
    && (FPolicy in e ==> e[FPolicy] == JStr("unlisted"))
    && CommitsOrSays(e, FAuthorizedParamsHash)
  }

  predicate IsWholeDeny(e: Entry) {
    HasCall(e) && FCapture !in e && FAdapter !in e && FAuthorizedParamsHash !in e && FParamsHashReason !in e && FPolicy !in e
  }

  ghost predicate IsWholeReceipt(v: Json) {
    && v.JObj? && IsFilled(v.members, "type") && IsFilled(v.members, "ref")
    && exists d :: Says(v.members, "digest", d) && IsHexWord(d, 64)
  }

  ghost predicate IsWholeOutcome(e: Entry) {
    && HasCall(e) && FBodyState in e
    && e[FBodyState] in {JStr("returned"), JStr("raised"), JStr("abandoned"), JStr("deferred")}
    && (e[FBodyState] == JStr("raised") ==> FErrorCode in e && e[FErrorCode].JStr? && e[FErrorCode] != JStr(""))
    && (e[FBodyState] != JStr("raised") ==> FErrorCode !in e)
    && FDurationMs in e && e[FDurationMs].JNum? && e[FDurationMs].number >= 0
    && CommitsOrSays(e, FInvokedParamsHash)
    && (FReceipt in e ==> IsWholeReceipt(e[FReceipt]))
  }

  predicate IsWholeRoot(e: Entry) { FParamsSalt in e && IsHexWord(e[FParamsSalt], 32) }

  predicate IsWholeKill(e: Entry) {
    FPendingAtKill in e ==>
      e[FPendingAtKill].JArr? && forall k :: 0 <= k < |e[FPendingAtKill].items| ==> IsHexWord(e[FPendingAtKill].items[k], 32)
  }

  lemma AllowIff(e: Entry)
    ensures ValidAllow(e) <==> IsWholeAllow(e)
  {
    hide NonEmptyText, IsFilled;
    if FAdapter in e && e[FAdapter].JObj? {
      FilledIff(e[FAdapter].members, "module");
      FilledIff(e[FAdapter].members, "version");
      FilledIff(e[FAdapter].members, "hook_path");
    }
  }

  lemma ReceiptIff(v: Json)
    ensures ValidReceipt(v) <==> IsWholeReceipt(v)
  {
    hide NonEmptyText, IsFilled, Own, Says;
    if v.JObj? {
      FilledIff(v.members, "type");
      FilledIff(v.members, "ref");
      forall d { OwnIff(v.members, "digest", d); }
    }
  }

  lemma OutcomeIff(e: Entry)
    ensures ValidOutcome(e) <==> IsWholeOutcome(e)
  {
    hide ValidReceipt, IsWholeReceipt;
    if FReceipt in e { ReceiptIff(e[FReceipt]); }
  }

  lemma OtherRecordsIff(e: Entry)
    ensures ValidDeny(e) <==> IsWholeDeny(e)
    ensures ValidRoot(e) <==> IsWholeRoot(e)
    ensures ValidKill(e) <==> IsWholeKill(e)
  {
    if FPendingAtKill in e && e[FPendingAtKill].JArr? { HexWordsIff(e[FPendingAtKill].items); }
  }

  lemma HexWordsIff(items: seq<Json>)
    ensures (forall c :: c in items ==> IsHexText(c, 32)) <==> forall k :: 0 <= k < |items| ==> IsHexWord(items[k], 32)
  {
    forall c ensures IsHexText(c, 32) <==> IsHexWord(c, 32) {}
    hide IsHexText, IsHexWord;
    if forall k :: 0 <= k < |items| ==> IsHexWord(items[k], 32) {
      forall c | c in items ensures IsHexText(c, 32) { var k :| 0 <= k < |items| && items[k] == c; }
    }
  }

  // ---- which call ---------------------------------------------------------

  /** Both name one call: a member that is neither null nor a list or an object. */
  predicate ShareCall(e: Entry, f: Entry) {
    FCallId in e && FCallId in f && e[FCallId] == f[FCallId] && e[FCallId] != JNull && !IsComposite(e[FCallId])
  }

  predicate JudgedBefore(entries: seq<Entry>, i: nat)
    requires i < |entries|
  {
    exists j :: 0 <= j < i && (Is(entries[j], "allow") || Is(entries[j], "deny")) && ShareCall(entries[j], entries[i])
  }

  ghost predicate AnsweredBefore(entries: seq<Entry>, i: nat)
    requires i < |entries|
  {
    exists j :: 0 <= j < i && Is(entries[j], "outcome") && IsWholeOutcome(entries[j]) && ShareCall(entries[j], entries[i])
  }

  /** A whole outcome, the first of its call. */
  ghost predicate IsAnswer(entries: seq<Entry>, i: nat)
    requires i < |entries|
  {
    Is(entries[i], "outcome") && IsWholeOutcome(entries[i]) && !AnsweredBefore(entries, i)
  }

  /** A whole allow, the last of the call the entry at `i` names. */
  ghost predicate Authorizes(entries: seq<Entry>, a: nat, i: nat)
    requires i < |entries|
  {
    && a < |entries| && Is(entries[a], "allow") && IsWholeAllow(entries[a]) && ShareCall(entries[a], entries[i])
    && forall k :: a < k < |entries| ==> !(Is(entries[k], "allow") && IsWholeAllow(entries[k]) && ShareCall(entries[k], entries[i]))
  }

  /** One node: no node on either, or one that is neither a list nor an object on both. */
  predicate ShareNode(e: Entry, f: Entry) {
    if FNode in e then FNode in f && e[FNode] == f[FNode] && !IsComposite(e[FNode]) else FNode !in f
  }

  predicate Follows(later: Entry, earlier: Entry) {
    FSeq in later && FSeq in earlier && later[FSeq].JNum? && earlier[FSeq].JNum? && later[FSeq].number > earlier[FSeq].number
  }

  /** Both commit to arguments, and not to the same. */
  predicate ParamsDiffer(a: Entry, o: Entry) {
    FAuthorizedParamsHash in a && a[FAuthorizedParamsHash] != JNull && FInvokedParamsHash in o && o[FInvokedParamsHash] != JNull
    && a[FAuthorizedParamsHash] != o[FInvokedParamsHash]
  }

  lemma CallIff(e: Entry, f: Entry)
    ensures NamesCall(e, OrNull(f, FCallId)) <==> ShareCall(e, f)
  {
  }

  lemma BindIff(a: Entry, o: Entry)
    ensures SameNode(a, o) <==> ShareNode(a, o)
    ensures SeqAfter(o, a) <==> Follows(o, a)
    ensures HashesDiffer(a, o) <==> ParamsDiffer(a, o)
  {
  }

  lemma SeenIff(entries: seq<Entry>, i: nat)
    requires i < |entries|
    ensures CallSeenBefore(entries, i, OrNull(entries[i], FCallId)) <==> JudgedBefore(entries, i)
    ensures OutcomeBefore(entries, i, OrNull(entries[i], FCallId)) <==> AnsweredBefore(entries, i)
  {
    hide EventOf, NamesCall, ShareCall, ValidOutcome, IsWholeOutcome, Is;
    forall j | 0 <= j < i
      ensures NamesCall(entries[j], OrNull(entries[i], FCallId)) <==> ShareCall(entries[j], entries[i])
      ensures ValidOutcome(entries[j]) <==> IsWholeOutcome(entries[j])
      ensures IsJudged(entries[j]) <==> Is(entries[j], "allow") || Is(entries[j], "deny")
      ensures EventOf(entries[j]) == Some(EventOutcome) <==> Is(entries[j], "outcome")
    {
      CallIff(entries[j], entries[i]);
      OutcomeIff(entries[j]);
      EventIff(entries[j]);
    }
  }

  lemma AuthorizesIff(entries: seq<Entry>, a: nat, i: nat)
    requires i < |entries|
    ensures LastAllow(entries, |entries|, OrNull(entries[i], FCallId)) == Some(a) <==> Authorizes(entries, a, i)
  {
    hide EventOf, NamesCall, ShareCall, ValidAllow, IsWholeAllow, Is;
    var cid := OrNull(entries[i], FCallId);
    forall k | 0 <= k < |entries|
      ensures IsAllowOf(entries[k], cid) <==> Is(entries[k], "allow") && IsWholeAllow(entries[k]) && ShareCall(entries[k], entries[i])
    {
      CallIff(entries[k], entries[i]);
      AllowIff(entries[k]);
      EventIff(entries[k]);
    }
  }

  // ---- findings -----------------------------------------------------------

  /** A member only schema version 2 has. */
  predicate CarriesNewer(e: Entry) {
    || FCallId in e || FCapture in e || FAdapter in e || FAuthorizedParamsHash in e || FParamsHashReason in e || FParamsSalt in e
    || FBodyState in e || FErrorCode in e || FInvokedParamsHash in e || FDurationMs in e || FReceipt in e || FPendingAtKill in e
  }

  ghost predicate EarnsByRecord(entries: seq<Entry>, f: Finding, i: nat)
    requires i < |entries|
  {
    var e := entries[i];
    match f
    case InvalidRoot => Is(e, "root") && !IsWholeRoot(e)
    case InvalidKill => Is(e, "kill") && !IsWholeKill(e)
    case DuplicateCallId => (Is(e, "allow") || Is(e, "deny")) && JudgedBefore(entries, i)
    case InvalidAllow => Is(e, "allow") && !IsWholeAllow(e)
    case InvalidDeny => Is(e, "deny") && !IsWholeDeny(e)
    case InvalidOutcome => Is(e, "outcome") && !IsWholeOutcome(e)
    case DuplicateOutcome => Is(e, "outcome") && IsWholeOutcome(e) && AnsweredBefore(entries, i)
    case OutcomeWithoutAllow => IsAnswer(entries, i) && forall a: nat :: !Authorizes(entries, a, i)
    case CrossRef => IsAnswer(entries, i) && exists a: nat :: Authorizes(entries, a, i) && !ShareNode(entries[a], e)
    case OutcomeBeforeAllow => IsAnswer(entries, i) && exists a: nat :: Authorizes(entries, a, i) && !Follows(e, entries[a])
    case ParamsMismatch => IsAnswer(entries, i) && exists a: nat :: Authorizes(entries, a, i) && ParamsDiffer(entries[a], e)
    case _ => false
  }

  lemma LeakIff(e: Entry, f: Finding)
    ensures f in LeakFindings(e) <==> f == V2FieldOnV1 && CarriesNewer(e)
  {
    assert FCallId in V2_ONLY && FCapture in V2_ONLY && FAdapter in V2_ONLY && FAuthorizedParamsHash in V2_ONLY;
    assert FParamsHashReason in V2_ONLY && FParamsSalt in V2_ONLY && FBodyState in V2_ONLY && FErrorCode in V2_ONLY;
    assert FInvokedParamsHash in V2_ONLY && FDurationMs in V2_ONLY && FReceipt in V2_ONLY && FPendingAtKill in V2_ONLY;
  }

  predicate IsBinding(f: Finding) {
    f == OutcomeWithoutAllow || f == CrossRef || f == OutcomeBeforeAllow || f == ParamsMismatch
  }

  /** The findings of the first pass, one by one. */
  lemma RecordMember(entries: seq<Entry>, f: Finding, i: nat)
    requires i < |entries|
    ensures f in RecordFindings(entries, i) <==>
              var e := entries[i];
              match f
              case InvalidRoot => EventOf(e) == Some(EventRoot) && !ValidRoot(e)
              case InvalidKill => EventOf(e) == Some(EventKill) && !ValidKill(e)
              case DuplicateCallId => IsJudged(e) && CallSeenBefore(entries, i, OrNull(e, FCallId))
              case InvalidAllow => EventOf(e) == Some(EventAllow) && !ValidAllow(e)
              case InvalidDeny => EventOf(e) == Some(EventDeny) && !ValidDeny(e)
              case InvalidOutcome => EventOf(e) == Some(EventOutcome) && !ValidOutcome(e)
              case DuplicateOutcome => EventOf(e) == Some(EventOutcome) && ValidOutcome(e) && OutcomeBefore(entries, i, OrNull(e, FCallId))
              case _ => false
  {
    hide EventOf, ValidAllow, ValidDeny, ValidOutcome, ValidRoot, ValidKill, CallSeenBefore, OutcomeBefore;
  }

  lemma RecordIff(entries: seq<Entry>, f: Finding, i: nat)
    requires i < |entries|
    ensures f in RecordFindings(entries, i) <==> !IsBinding(f) && EarnsByRecord(entries, f, i)
  {
    RecordMember(entries, f, i);
    RecordFormsIff(entries, f, i);
  }

  lemma RecordFormsIff(entries: seq<Entry>, f: Finding, i: nat)
    requires i < |entries|
    ensures var e := entries[i];
            && (EventOf(e) == Some(EventRoot) <==> Is(e, "root")) && (ValidRoot(e) <==> IsWholeRoot(e))
            && (EventOf(e) == Some(EventKill) <==> Is(e, "kill")) && (ValidKill(e) <==> IsWholeKill(e))
            && (EventOf(e) == Some(EventAllow) <==> Is(e, "allow")) && (ValidAllow(e) <==> IsWholeAllow(e))
            && (EventOf(e) == Some(EventDeny) <==> Is(e, "deny")) && (ValidDeny(e) <==> IsWholeDeny(e))
            && (EventOf(e) == Some(EventOutcome) <==> Is(e, "outcome")) && (ValidOutcome(e) <==> IsWholeOutcome(e))
            && (CallSeenBefore(entries, i, OrNull(e, FCallId)) <==> JudgedBefore(entries, i))
            && (OutcomeBefore(entries, i, OrNull(e, FCallId)) <==> AnsweredBefore(entries, i))
  {
    EventIff(entries[i]);
    AllowIff(entries[i]);
    OutcomeIff(entries[i]);
    OtherRecordsIff(entries[i]);
    SeenIff(entries, i);
  }

  /** The findings of the second pass, one by one, against the allow at `a`. */
  lemma BindingMember(entries: seq<Entry>, f: Finding, i: nat, a: nat)
    requires i < |entries| && IsOutcomeOf(entries[i], OrNull(entries[i], FCallId)) && !OutcomeBefore(entries, i, OrNull(entries[i], FCallId))
    requires LastAllow(entries, |entries|, OrNull(entries[i], FCallId)) == Some(a)
    ensures f in BindingFindings(entries, i) <==>
              match f
              case CrossRef => !SameNode(entries[a], entries[i])
              case OutcomeBeforeAllow => !SeqAfter(entries[i], entries[a])
              case ParamsMismatch => HashesDiffer(entries[a], entries[i])
              case _ => false
  {
    hide IsOutcomeOf, OutcomeBefore, LastAllow, SameNode, SeqAfter, HashesDiffer;
  }

  lemma AnswerIff(entries: seq<Entry>, i: nat)
    requires i < |entries|
    ensures IsOutcomeOf(entries[i], OrNull(entries[i], FCallId)) && !OutcomeBefore(entries, i, OrNull(entries[i], FCallId)) <==> IsAnswer(entries, i)
  {
    var e := entries[i];
    EventIff(e);
    OutcomeIff(e);
    SeenIff(entries, i);
    WholeNamesCall(e);
    hide EventOf, Is, ValidOutcome, IsWholeOutcome, OutcomeBefore, AnsweredBefore, NamesCall;
  }

  lemma WholeNamesCall(e: Entry)
    ensures ValidOutcome(e) ==> NamesCall(e, OrNull(e, FCallId))
  {
  }

  lemma BindingIff(entries: seq<Entry>, f: Finding, i: nat)
    requires i < |entries|
    ensures f in BindingFindings(entries, i) <==> IsBinding(f) && EarnsByRecord(entries, f, i)
  {
    hide Is, IsAnswer, IsOutcomeOf, OutcomeBefore, Authorizes, LastAllow, SameNode, SeqAfter, HashesDiffer, ShareNode, Follows, ParamsDiffer,
      IsWholeRoot, IsWholeKill, IsWholeAllow, IsWholeDeny, IsWholeOutcome, JudgedBefore, AnsweredBefore;
    AnswerIff(entries, i);
    forall a: nat ensures LastAllow(entries, |entries|, OrNull(entries[i], FCallId)) == Some(a) <==> Authorizes(entries, a, i) { AuthorizesIff(entries, a, i); }
    var last := LastAllow(entries, |entries|, OrNull(entries[i], FCallId));
    if !IsAnswer(entries, i) {
      assert BindingFindings(entries, i) == [];
    } else if last.None? {
      assert BindingFindings(entries, i) == [OutcomeWithoutAllow];
    } else {
      BindIff(entries[last.value], entries[i]);
      BindingMember(entries, f, i, last.value);
      OneAuthorizer(entries, i, last.value);
    }
  }

  lemma OneAuthorizer(entries: seq<Entry>, i: nat, a: nat)
    requires i < |entries| && Authorizes(entries, a, i)
    ensures forall k: nat :: Authorizes(entries, k, i) ==> k == a
  {
    hide Is, IsWholeAllow, ShareCall;
  }
}
