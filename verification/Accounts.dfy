/** How the offline verifier scores calls, nodes and a whole version 2 ledger, read off the entries' members. */
module Accounts {
  import opened Results
  import opened PlainJson
  import opened Audit
  import opened Ledger
  import opened EvidenceRules
  import opened Evidence
  import opened EntryVerdicts
  import opened CallVerdicts

  /** A whole allow that stands for its call: the last one, with no broken allow of the same call anywhere. */
  ghost predicate Governs(entries: seq<Entry>, a: nat) {
    && a < |entries| && Authorizes(entries, a, a)
    && forall k :: 0 <= k < |entries| && Is(entries[k], "allow") && ShareCall(entries[k], entries[a]) ==> IsWholeAllow(entries[k])
  }

  /** The first whole outcome of the call came later and from the same node. */
  ghost predicate IsAnswered(entries: seq<Entry>, a: nat)
    requires a < |entries|
  {
    exists o: nat :: o < |entries| && IsAnswer(entries, o) && ShareCall(entries[o], entries[a])
                     && ShareNode(entries[a], entries[o]) && Follows(entries[o], entries[a])
  }

  predicate PromisesNothing(e: Entry) { Reads(e, FCapture, "pre_hook_only") }

  /** The call promised an observation of its end, and there is none. */
  ghost predicate IsOwed(entries: seq<Entry>, a: nat) {
    a < |entries| && Governs(entries, a) && !IsAnswered(entries, a) && !PromisesNothing(entries[a])
  }

  ghost predicate IsUnseen(entries: seq<Entry>, a: nat) {
    a < |entries| && Governs(entries, a) && !IsAnswered(entries, a) && PromisesNothing(entries[a])
  }

  lemma GovernsIff(entries: seq<Entry>, a: nat)
    requires a < |entries|
    ensures Governs(entries, a) <==>
              var cid := OrNull(entries[a], FCallId); LastAllow(entries, |entries|, cid) == Some(a) && !InvalidAllowBefore(entries, |entries|, cid)
  {
    hide Authorizes, LastAllow, NamesCall, ShareCall, ValidAllow, IsWholeAllow, EventOf, Is;
    AuthorizesIff(entries, a, a);
    forall k | 0 <= k < |entries|
      ensures IsInvalidAllowOf(entries[k], OrNull(entries[a], FCallId)) <==> Is(entries[k], "allow") && !IsWholeAllow(entries[k]) && ShareCall(entries[k], entries[a])
    {
      CallIff(entries[k], entries[a]);
      AllowIff(entries[k]);
      EventIff(entries[k]);
    }
  }

  lemma AnsweredIff(entries: seq<Entry>, a: nat)
    requires a < |entries| && LastAllow(entries, |entries|, OrNull(entries[a], FCallId)) == Some(a)
    ensures IsBound(entries, OrNull(entries[a], FCallId)) <==> IsAnswered(entries, a)
  {
    hide LastAllow, IsAnswer, ShareCall, ShareNode, Follows, SameNode, SeqAfter, OutcomeBefore, FirstOutcome;
    var cid := OrNull(entries[a], FCallId);
    forall o: nat | o < |entries|
      ensures FirstOutcome(entries, |entries|, cid) == Some(o) <==> IsAnswer(entries, o) && ShareCall(entries[o], entries[a])
      ensures SameNode(entries[a], entries[o]) <==> ShareNode(entries[a], entries[o])
      ensures SeqAfter(entries[o], entries[a]) <==> Follows(entries[o], entries[a])
    {
      FirstAnswerIff(entries, a, o);
      BindIff(entries[a], entries[o]);
    }
    FirstOutcomeBelow(entries, cid);
  }

  lemma FirstOutcomeBelow(entries: seq<Entry>, cid: Json)
    ensures var o := FirstOutcome(entries, |entries|, cid); o.Some? ==> o.value < |entries|
  {
  }

  lemma FirstAnswerIff(entries: seq<Entry>, a: nat, o: nat)
    requires a < |entries| && o < |entries|
    ensures FirstOutcome(entries, |entries|, OrNull(entries[a], FCallId)) == Some(o) <==> IsAnswer(entries, o) && ShareCall(entries[o], entries[a])
  {
    hide ValidOutcome, EventOf, Is, IsAnswer, IsWholeOutcome, AnsweredBefore;
    var cid := OrNull(entries[a], FCallId);
    CallIff(entries[o], entries[a]);
    AnswerIff(entries, o);
    if NamesCall(entries[o], cid) {
      assert OrNull(entries[o], FCallId) == cid;
      if IsOutcomeOf(entries[o], cid) && !OutcomeBefore(entries, o, cid) { assert OutcomeBefore(entries, |entries|, cid); }
    }
  }

  /** The score of a call some allow stands for; a call no allow stands for has none. */
  lemma CallStateIff(entries: seq<Entry>, a: nat)
    requires a < |entries| && Governs(entries, a)
    ensures CallStateOf(entries, OrNull(entries[a], FCallId)) ==
              Some(if IsAnswered(entries, a) then Observed else if PromisesNothing(entries[a]) then Unobserved else Unaccounted)
  {
    hide Governs, IsAnswered, IsBound, LastAllow, InvalidAllowBefore;
    GovernsIff(entries, a);
    AnsweredIff(entries, a);
  }

  lemma ScoredIsGoverned(entries: seq<Entry>, cid: Json) returns (a: nat)
    requires CallStateOf(entries, cid).Some?
    ensures a < |entries| && Governs(entries, a) && OrNull(entries[a], FCallId) == cid && LastAllow(entries, |entries|, cid) == Some(a)
  {
    hide Governs, IsBound, InvalidAllowBefore, ValidAllow, EventOf;
    a := LastAllow(entries, |entries|, cid).value;
    GovernsIff(entries, a);
  }

  ghost predicate Owes(entries: seq<Entry>, node: string) {
    exists a: nat :: IsOwed(entries, a) && Reads(entries[a], FNode, node)
  }

  lemma OwesIff(entries: seq<Entry>, node: string)
    ensures HasUnaccounted(entries, node) <==> Owes(entries, node)
  {
    hide CallStateOf, Governs, IsAnswered, PromisesNothing;
    if HasUnaccounted(entries, node) {
      var cid :| IsUnaccountedOn(entries, cid, node);
      var a := ScoredIsGoverned(entries, cid);
      CallStateIff(entries, a);
      assert IsOwed(entries, a) && Reads(entries[a], FNode, node);
    }
    if Owes(entries, node) {
      var a: nat :| IsOwed(entries, a) && Reads(entries[a], FNode, node);
      OwedIsUnaccounted(entries, a, node);
    }
  }

  lemma OwedIsUnaccounted(entries: seq<Entry>, a: nat, node: string)
    requires IsOwed(entries, a) && Reads(entries[a], FNode, node)
    ensures IsUnaccountedOn(entries, OrNull(entries[a], FCallId), node)
  {
    hide CallStateOf, Governs, IsAnswered, LastAllow;
    CallStateIff(entries, a);
    GovernsIff(entries, a);
  }

  lemma UnseenIff(entries: seq<Entry>)
    ensures HasUnobserved(entries) <==> exists a: nat :: IsUnseen(entries, a)
  {
    hide CallStateOf, Governs, IsAnswered, PromisesNothing;
    if cid :| CallStateOf(entries, cid) == Some(Unobserved) {
      var a := ScoredIsGoverned(entries, cid);
      CallStateIff(entries, a);
      assert IsUnseen(entries, a);
    }
    if a: nat :| IsUnseen(entries, a) { CallStateIff(entries, a); }
  }

  predicate IsDone(entries: seq<Entry>, node: string) {
    exists j :: 0 <= j < |entries| && Is(entries[j], "done") && Reads(entries[j], FNode, node)
  }

  lemma DoneIff(entries: seq<Entry>, node: string)
    ensures DoneBefore(entries, |entries|, node) <==> IsDone(entries, node)
  {
    hide EventOf, Is;
    forall j | 0 <= j < |entries| ensures EventOf(entries[j]) == Some(EventDone) <==> Is(entries[j], "done") { EventIff(entries[j]); }
    if j :| 0 <= j < |entries| && Is(entries[j], "done") && Reads(entries[j], FNode, node) { assert Finishes(entries[j], node); }
    if j :| 0 <= j < |entries| && Finishes(entries[j], node) { assert Reads(entries[j], FNode, node); }
  }

  lemma LifecycleIff(entries: seq<Entry>, node: string)
    ensures LifecycleOf(entries, node) ==
              if IsDone(entries, node) then Finalized
              else if !RevokedBefore(entries, |entries|, node) then InProgress
              else if Owes(entries, node) then RevokedWithPending else RevokedClean
  {
    hide IsDone, DoneBefore, KilledBefore, RevokedBefore, Owes, HasUnaccounted;
    DoneIff(entries, node);
    BeforeIff(entries, |entries|, node);
    OwesIff(entries, node);
  }

  predicate IsClosed(entries: seq<Entry>, node: string) { IsDone(entries, node) || RevokedBefore(entries, |entries|, node) }

  /**
   * The aggregate: "failed" on any finding, and where a finished node is owed an outcome; "clean" where every opened
   * node is finished or revoked and owed nothing, and every call that promised nothing was observed all the same.
   */
  lemma AggregateIff(entries: seq<Entry>, failures: seq<Failure>)
    ensures AggregateOf(entries, failures) == Failed <==>
              failures != [] || exists node :: OpenedBefore(entries, |entries|, node) && IsDone(entries, node) && Owes(entries, node)
    ensures AggregateOf(entries, failures) == Clean <==>
              && failures == []
              && (forall node :: OpenedBefore(entries, |entries|, node) ==> IsClosed(entries, node) && !Owes(entries, node))
              && forall a: nat :: !IsUnseen(entries, a)
  {
    hide IsDone, DoneBefore, KilledBefore, RevokedBefore, Owes, HasUnaccounted, HasUnobserved, IsUnseen, DefinedBefore, OpenedBefore, LifecycleOf;
    UnseenIff(entries);
    forall node
      ensures NodeFails(entries, node) <==> OpenedBefore(entries, |entries|, node) && IsDone(entries, node) && Owes(entries, node)
      ensures NodeIsOpen(entries, node) <==>
                OpenedBefore(entries, |entries|, node) && !IsDone(entries, node) && (!RevokedBefore(entries, |entries|, node) || Owes(entries, node))
    {
      LifecycleIff(entries, node);
      OwesIff(entries, node);
      BeforeIff(entries, |entries|, node);
    }
  }
}
