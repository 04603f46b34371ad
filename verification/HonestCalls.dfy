/**
 * Execution binding at run time (schema version 2): the guard's pending and outcomed sets, the completion of
 * nodes, and the calls the ledger records, kept in step so that the verifier finds nothing to report. The
 * invariant is stated once, and each kind of entry is shown to extend it.
 */
module HonestCalls {
  import opened Results
  import opened PlainJson
  import opened Chains
  import opened Audit
  import opened Ledger
  import opened GuardSteps
  import opened EvidenceRules
  import opened Evidence
  import opened Soundness

  // ---- the invariant ------------------------------------------------------

  /** The verifier's call rules find nothing at `i`. */
  predicate RecordOk(entries: seq<Entry>, i: nat) {
    RecordFindings(entries, i) == [] && BindingFindings(entries, i) == []
  }

  ghost predicate RecordsOk(entries: seq<Entry>) {
    && (forall i: nat {:trigger RecordOk(entries, i)} :: i < |entries| ==> RecordOk(entries, i))
    && (forall i: nat {:trigger OrNull(entries[i], FSeq)} :: i < |entries| ==> OrNull(entries[i], FSeq) == JNum(i))
  }

  /** Every pending call is on the ledger, on one node only. */
  ghost predicate PendingOk(c: ChainState, entries: seq<Entry>) {
    && (forall i, j :: 0 <= i < j < |c.pending| ==> c.pending[i].node != c.pending[j].node)
    && (forall i, j, id :: 0 <= i < j < |c.pending| && id in c.pending[i].calls ==> id !in c.pending[j].calls)
    && (forall i, id :: 0 <= i < |c.pending| && id in c.pending[i].calls ==> IsHex(id, 32) && CallSeenBefore(entries, |entries|, JStr(id)))
  }

  ghost predicate OutcomesTied(c: ChainState, entries: seq<Entry>) {
    forall id :: OutcomeBefore(entries, |entries|, JStr(id)) ==> id in c.outcomed
  }

  /** An allow that promised an observation and has none yet. */
  predicate IsOpen(entries: seq<Entry>, i: nat)
    requires i < |entries|
  {
    && EventOf(entries[i]) == Some(EventAllow) && OrNull(entries[i], FCapture) != JStr(PRE_HOOK_ONLY)
    && !OutcomeBefore(entries, |entries|, OrNull(entries[i], FCallId))
  }

  /** The call of the allow at `i` is pending on its node. */
  ghost predicate IsPending(c: ChainState, e: Entry) {
    && OrNull(e, FCallId).JStr? && TextOf(e, FNode).Some?
    && OrNull(e, FCallId).text in PendingFor(c.pending, TextOf(e, FNode).value)
  }

  ghost predicate OpenCallsPend(c: ChainState, entries: seq<Entry>) {
    forall i: nat {:trigger IsOpen(entries, i)} :: i < |entries| && IsOpen(entries, i) ==> IsPending(c, entries[i])
  }

  /** A completed node never has a pending call. */
  ghost predicate CompletedAreIdle(c: ChainState) {
    forall id :: id in c.nodes && c.nodes[id].complete ==> PendingFor(c.pending, id) == []
  }

  ghost predicate DoneTied(c: ChainState, entries: seq<Entry>) {
    forall id :: DoneBefore(entries, |entries|, id) ==> id in c.nodes && c.nodes[id].complete
  }

  ghost predicate CallInv(c: ChainState, entries: seq<Entry>) {
    && RecordsOk(entries) && PendingOk(c, entries) && OutcomesTied(c, entries)
    && OpenCallsPend(c, entries) && CompletedAreIdle(c) && DoneTied(c, entries)
  }

  /** Whatever the run, the aggregate is never "failed". */
  lemma NeverFailed(w: World, failures: seq<Failure>)
    requires CallInv(w.chain, w.entries) && failures == []
    ensures AggregateOf(w.entries, failures) != Failed
  {
    hide CallStateOf, HasUnaccounted, LifecycleOf, PendingOk, OutcomesTied;
    forall n ensures !NodeFails(w.entries, n) {
      if NodeFails(w.entries, n) { FinishedIsAccounted(w.chain, w.entries, n); }
    }
  }

  lemma FinishedIsAccounted(c: ChainState, entries: seq<Entry>, node: string)
    requires CallInv(c, entries) && LifecycleOf(entries, node) == Finalized
    ensures !HasUnaccounted(entries, node)
  {
    hide PendingOk, OutcomesTied, RecordsOk, PendingFor, CallStateOf;
    assert PendingFor(c.pending, node) == [];
    forall cid ensures !IsUnaccountedOn(entries, cid, node) {
      if CallStateOf(entries, cid) == Some(Unaccounted) { UnaccountedPends(c, entries, cid); }
    }
  }

  lemma UnaccountedPends(c: ChainState, entries: seq<Entry>, cid: Json)
    requires CallInv(c, entries) && CallStateOf(entries, cid) == Some(Unaccounted)
    ensures IsPending(c, entries[LastAllow(entries, |entries|, cid).value])
  {
    hide PendingOk, OutcomesTied, PendingFor, EventOf, ValidAllow, ValidOutcome, InvalidAllowBefore, IsBound;
    var a := LastAllow(entries, |entries|, cid).value;
    if OutcomeBefore(entries, |entries|, cid) { OutcomeIsBound(entries, cid); }
    assert IsOpen(entries, a);
  }

  /** An outcome the rules find nothing about is bound to its allow. */
  lemma OutcomeIsBound(entries: seq<Entry>, cid: Json)
    requires RecordsOk(entries) && OutcomeBefore(entries, |entries|, cid)
    ensures LastAllow(entries, |entries|, cid).Some? && IsBound(entries, cid)
  {
    hide EventOf, ValidAllow, ValidOutcome, RecordFindings;
    var o := FirstOutcome(entries, |entries|, cid).value;
    assert RecordOk(entries, o);
  }

  // ---- what an append leaves unchanged ------------------------------------

  lemma CallsBeforeStable(entries: seq<Entry>, e: Entry, i: nat, cid: Json)
    requires i <= |entries|
    ensures CallSeenBefore(entries + [e], i, cid) == CallSeenBefore(entries, i, cid)
    ensures OutcomeBefore(entries + [e], i, cid) == OutcomeBefore(entries, i, cid)
  {
    hide IsJudged, IsOutcomeOf, NamesCall;
    assert forall j :: 0 <= j < i ==> (entries + [e])[j] == entries[j];
  }

  lemma CallsBeforeNext(entries: seq<Entry>, e: Entry, cid: Json)
    ensures CallSeenBefore(entries + [e], |entries| + 1, cid) <==> CallSeenBefore(entries, |entries|, cid) || (IsJudged(e) && NamesCall(e, cid))
    ensures OutcomeBefore(entries + [e], |entries| + 1, cid) <==> OutcomeBefore(entries, |entries|, cid) || IsOutcomeOf(e, cid)
  {
    CallsBeforeStable(entries, e, |entries|, cid);
    hide IsJudged, IsOutcomeOf, NamesCall;
    var x := entries + [e];
    assert x[|entries|] == e;
  }

  lemma LastAllowStable(entries: seq<Entry>, e: Entry, cid: Json)
    requires !IsAllowOf(e, cid)
    ensures LastAllow(entries + [e], |entries| + 1, cid) == LastAllow(entries, |entries|, cid)
  {
    hide IsAllowOf;
    var x := entries + [e];
    assert x[|entries|] == e && forall i: nat :: i < |entries| ==> x[i] == entries[i];
    LastAgrees(|entries|, AllowsAt(entries, cid), AllowsAt(x, cid));
  }

  /** A new allow never re-uses a call. */
  predicate FreshIfAllow(entries: seq<Entry>, e: Entry) {
    EventOf(e) == Some(EventAllow) ==> !CallSeenBefore(entries, |entries|, OrNull(e, FCallId))
  }

  lemma RecordStays(entries: seq<Entry>, e: Entry, i: nat)
    requires i < |entries| && RecordOk(entries, i) && FreshIfAllow(entries, e)
    ensures RecordOk(entries + [e], i)
  {
    hide EventOf, ValidAllow, ValidDeny, ValidOutcome, ValidRoot, ValidKill;
    var cid := OrNull(entries[i], FCallId);
    assert (entries + [e])[i] == entries[i];
    CallsBeforeStable(entries, e, i, cid);
    var allow := LastAllow(entries, |entries|, cid);
    if allow.Some? {
      SeenByAllow(entries, allow.value, cid);
      assert !IsAllowOf(e, cid);
      LastAllowStable(entries, e, cid);
      assert (entries + [e])[allow.value] == entries[allow.value];
    }
  }

  lemma SeenByAllow(entries: seq<Entry>, a: nat, cid: Json)
    requires a < |entries| && IsAllowOf(entries[a], cid)
    ensures CallSeenBefore(entries, |entries|, cid)
  {
    hide EventOf, ValidAllow;
    assert IsJudged(entries[a]) && NamesCall(entries[a], cid);
  }

  lemma RecordsExtend(entries: seq<Entry>, e: Entry)
    requires RecordsOk(entries) && FreshIfAllow(entries, e)
    requires RecordOk(entries + [e], |entries|) && OrNull(e, FSeq) == JNum(|entries|)
    ensures RecordsOk(entries + [e])
  {
    hide RecordOk, FreshIfAllow;
    var x := entries + [e];
    forall i: nat | i < |x| ensures RecordOk(x, i) && OrNull(x[i], FSeq) == JNum(i) {
      if i < |entries| {
        assert RecordOk(entries, i) && OrNull(entries[i], FSeq) == JNum(i);
        RecordStays(entries, e, i);
      }
    }
  }

  lemma OutcomesExtend(c: ChainState, c': ChainState, entries: seq<Entry>, e: Entry)
    requires OutcomesTied(c, entries) && c.outcomed <= c'.outcomed && forall id :: IsOutcomeOf(e, JStr(id)) ==> id in c'.outcomed
    ensures OutcomesTied(c', entries + [e])
  {
    hide IsOutcomeOf, OutcomeBefore;
    forall id | OutcomeBefore(entries + [e], |entries + [e]|, JStr(id)) ensures id in c'.outcomed {
      CallsBeforeNext(entries, e, JStr(id));
    }
  }

  lemma OpenExtend(c: ChainState, c': ChainState, entries: seq<Entry>, e: Entry)
    requires OpenCallsPend(c, entries)
    requires forall i: nat {:trigger IsOpen(entries, i)} :: i < |entries| && IsOpen(entries, i) && IsPending(c, entries[i]) ==>
               IsOutcomeOf(e, OrNull(entries[i], FCallId)) || IsPending(c', entries[i])
    requires EventOf(e) == Some(EventAllow) && OrNull(e, FCapture) != JStr(PRE_HOOK_ONLY) ==> IsPending(c', e)
    ensures OpenCallsPend(c', entries + [e])
  {
    hide IsPending, EventOf, IsOutcomeOf, OutcomeBefore;
    var x := entries + [e];
    forall i: nat | i < |x| && IsOpen(x, i) ensures IsPending(c', x[i]) {
      CallsBeforeNext(entries, e, OrNull(x[i], FCallId));
      assert i < |entries| ==> x[i] == entries[i] && IsOpen(entries, i);
    }
  }

  lemma PendingExtend(c: ChainState, entries: seq<Entry>, e: Entry)
    requires PendingOk(c, entries)
    ensures PendingOk(c, entries + [e])
  {
    hide CallSeenBefore, IsHex;
    forall i, id | 0 <= i < |c.pending| && id in c.pending[i].calls ensures CallSeenBefore(entries + [e], |entries + [e]|, JStr(id)) {
      CallsBeforeNext(entries, e, JStr(id));
    }
  }

  lemma DoneExtend(c: ChainState, entries: seq<Entry>, e: Entry)
    requires DoneTied(c, entries) && forall id :: Finishes(e, id) ==> id in c.nodes && c.nodes[id].complete
    ensures DoneTied(c, entries + [e])
  {
    hide Finishes;
    var x := entries + [e];
    forall id | DoneBefore(x, |x|, id) ensures id in c.nodes && c.nodes[id].complete {
      var j :| 0 <= j < |x| && Finishes(x[j], id);
      assert j < |entries| ==> x[j] == entries[j];
    }
  }

  /** A record of no call: a delegation, its refusal, a kill or a completion. */
  lemma QuietExtend(c: ChainState, entries: seq<Entry>, e: Entry)
    requires CallInv(c, entries) && OrNull(e, FSeq) == JNum(|entries|)
    requires !IsJudged(e) && EventOf(e) != Some(EventOutcome) && EventOf(e) != Some(EventRoot)
    requires EventOf(e) == Some(EventKill) ==> ValidKill(e)
    requires forall id :: Finishes(e, id) ==> id in c.nodes && c.nodes[id].complete
    ensures CallInv(c, entries + [e])
  {
    hide EventOf, ValidKill, Finishes, RecordsOk, PendingOk, OutcomesTied, CompletedAreIdle, DoneTied, IsPending, OpenCallsPend;
    assert (entries + [e])[|entries|] == e;
    RecordsExtend(entries, e);
    OutcomesExtend(c, c, entries, e);
    OpenExtend(c, c, entries, e);
    PendingExtend(c, entries, e);
    DoneExtend(c, entries, e);
  }

  // ---- calls --------------------------------------------------------------

  lemma DenyExtend(c: ChainState, entries: seq<Entry>, e: Entry)
    requires CallInv(c, entries) && OrNull(e, FSeq) == JNum(|entries|)
    requires EventOf(e) == Some(EventDeny) && ValidDeny(e) && !CallSeenBefore(entries, |entries|, OrNull(e, FCallId))
    ensures CallInv(c, entries + [e])
  {
    CallsBeforeStable(entries, e, |entries|, OrNull(e, FCallId));
    hide EventOf, ValidDeny, RecordsOk, PendingOk, OutcomesTied, CompletedAreIdle, DoneTied, IsPending, OpenCallsPend, CallSeenBefore;
    assert (entries + [e])[|entries|] == e;
    RecordsExtend(entries, e);
    OutcomesExtend(c, c, entries, e);
    OpenExtend(c, c, entries, e);
    PendingExtend(c, entries, e);
    DoneExtend(c, entries, e);
  }

  lemma {:induction false} RegisterShape(pending: seq<PendingSet>, node: string, id: string) returns (k: nat)
    ensures k <= |pending| && forall i :: 0 <= i < k ==> pending[i].node != node
    ensures k < |pending| ==> pending[k].node == node && Register(pending, node, id) == pending[k := PendingSet(node, AddTo(pending[k].calls, id))]
    ensures k == |pending| ==> Register(pending, node, id) == pending + [PendingSet(node, [id])]
  {
    if pending == [] || pending[0].node == node { return 0; }
    k := RegisterShape(pending[1..], node, id);
    k := k + 1;
  }

  lemma {:induction false} HolderAt(pending: seq<PendingSet>, id: string) returns (k: nat)
    ensures k <= |pending| && forall i :: 0 <= i < k ==> id !in pending[i].calls
    ensures k < |pending| ==> id in pending[k].calls
  {
    if pending == [] || id in pending[0].calls { return 0; }
    k := HolderAt(pending[1..], id);
    k := k + 1;
  }

  lemma ResolveShape(pending: seq<PendingSet>, id: string) returns (k: nat)
    ensures k <= |pending| && forall i :: 0 <= i < k ==> id !in pending[i].calls
    ensures k < |pending| ==>
      id in pending[k].calls && Resolve(pending, id) == pending[k := PendingSet(pending[k].node, Filter(pending[k].calls, c => c != id))]
    ensures k == |pending| ==> Resolve(pending, id) == pending
  {
    k := HolderAt(pending, id);
    ResolvedAt(pending, id, k);
  }

  lemma RegisterKeeps(c: ChainState, entries: seq<Entry>, node: string, id: string)
    requires PendingOk(c, entries) && IsHex(id, 32) && CallSeenBefore(entries, |entries|, JStr(id))
    requires forall i :: 0 <= i < |c.pending| ==> id !in c.pending[i].calls
    ensures PendingOk(c.(pending := Register(c.pending, node, id)), entries)
  {
    var k := RegisterShape(c.pending, node, id);
    hide Register, IsHex, CallSeenBefore;
  }

  lemma ResolveKeeps(c: ChainState, entries: seq<Entry>, id: string, outcomed: set<string>)
    requires PendingOk(c, entries)
    ensures PendingOk(c.(pending := Resolve(c.pending, id), outcomed := outcomed), entries)
  {
    var k := ResolveShape(c.pending, id);
    hide Resolve, IsHex, CallSeenBefore;
  }

  lemma AllowRecordOk(entries: seq<Entry>, e: Entry, id: string)
    requires EventOf(e) == Some(EventAllow) && ValidAllow(e) && OrNull(e, FCallId) == JStr(id)
    requires !CallSeenBefore(entries, |entries|, JStr(id))
    ensures RecordOk(entries + [e], |entries|) && FreshIfAllow(entries, e)
    ensures CallSeenBefore(entries + [e], |entries| + 1, JStr(id))
    ensures forall n :: !Finishes(e, n)
    ensures forall cid :: !IsOutcomeOf(e, cid)
  {
    CallsBeforeStable(entries, e, |entries|, JStr(id));
    CallsBeforeNext(entries, e, JStr(id));
    hide EventOf, ValidAllow, CallSeenBefore;
    assert (entries + [e])[|entries|] == e;
  }

  lemma RegisteredPends(c: ChainState, node: string, id: string)
    requires CompletedAreIdle(c) && node in c.nodes && !c.nodes[node].complete
    ensures var c' := c.(pending := Register(c.pending, node, id));
            && CompletedAreIdle(c') && id in PendingFor(c'.pending, node)
            && forall e :: IsPending(c, e) ==> IsPending(c', e)
  {
    forall n { RegisterAt(c.pending, node, id, n); }
    hide Register, PendingFor, OrNull, TextOf;
  }

  /** An allow on a node, with the call it registers when it promises an observation. */
  lemma AllowExtend(c: ChainState, c': ChainState, entries: seq<Entry>, e: Entry, node: string, id: string)
    requires CallInv(c, entries) && OrNull(e, FSeq) == JNum(|entries|)
    requires EventOf(e) == Some(EventAllow) && ValidAllow(e) && OrNull(e, FCallId) == JStr(id) && TextOf(e, FNode) == Some(node)
    requires IsHex(id, 32) && !CallSeenBefore(entries, |entries|, JStr(id))
    requires c' == if OrNull(e, FCapture) == JStr(PRE_HOOK_ONLY) then c else c.(pending := Register(c.pending, node, id))
    requires OrNull(e, FCapture) == JStr(PRE_HOOK_ONLY) || (node in c.nodes && !c.nodes[node].complete)
    ensures CallInv(c', entries + [e])
  {
    hide EventOf, ValidAllow, RecordsOk, OutcomesTied, DoneBefore, OpenCallsPend, CallSeenBefore, IsHex, CompletedAreIdle,
      PendingOk, PendingFor, Register, IsOutcomeOf, Finishes, RecordOk, FreshIfAllow;
    AllowRecordOk(entries, e, id);
    RecordsExtend(entries, e);
    OutcomesExtend(c, c', entries, e);
    PendingExtend(c, entries, e);
    DoneExtend(c', entries, e);
    if OrNull(e, FCapture) != JStr(PRE_HOOK_ONLY) {
      FreshIsNotPending(c, entries, id);
      RegisterKeeps(c, entries + [e], node, id);
      RegisteredPends(c, node, id);
    }
    OpenExtend(c, c', entries, e);
  }

  lemma FreshIsNotPending(c: ChainState, entries: seq<Entry>, id: string)
    requires PendingOk(c, entries) && !CallSeenBefore(entries, |entries|, JStr(id))
    ensures forall i :: 0 <= i < |c.pending| ==> id !in c.pending[i].calls
  {
    hide CallSeenBefore, IsHex;
  }

  lemma {:induction false} NoneLeft(pending: seq<PendingSet>, id: string, n: string)
    requires PendingFor(pending, n) == []
    ensures PendingFor(Resolve(pending, id), n) == []
  {
    if pending != [] && pending[0].node != n {
      if id in pending[0].calls {
        assert Resolve(pending, id)[1..] == pending[1..];
      } else {
        NoneLeft(pending[1..], id, n);
        assert Resolve(pending, id)[1..] == Resolve(pending[1..], id);
      }
    }
  }

  lemma ResolvedPends(c: ChainState, entries: seq<Entry>, c': ChainState, id: string)
    requires PendingOk(c, entries) && CompletedAreIdle(c)
    requires c' == c.(outcomed := c'.outcomed, pending := Resolve(c.pending, id))
    ensures CompletedAreIdle(c')
    ensures forall e :: IsPending(c, e) ==> OrNull(e, FCallId) == JStr(id) || IsPending(c', e)
  {
    forall n { ResolveAt(c.pending, id, n); }
    forall n | PendingFor(c.pending, n) == [] ensures PendingFor(c'.pending, n) == [] { NoneLeft(c.pending, id, n); }
    hide Resolve, PendingFor, OrNull, TextOf, IsHex, CallSeenBefore;
  }

  /** The first outcome of an allowed call, reported on its node with the arguments that were authorized. */
  lemma OutcomeExtend(c: ChainState, c': ChainState, entries: seq<Entry>, e: Entry, id: string, a: nat)
    requires CallInv(c, entries) && OrNull(e, FSeq) == JNum(|entries|)
    requires EventOf(e) == Some(EventOutcome) && ValidOutcome(e) && OrNull(e, FCallId) == JStr(id) && id !in c.outcomed
    requires LastAllow(entries, |entries|, JStr(id)) == Some(a) && SameNode(entries[a], e) && !HashesDiffer(entries[a], e)
    requires c' == c.(outcomed := c.outcomed + {id}, pending := Resolve(c.pending, id))
    ensures CallInv(c', entries + [e])
  {
    hide EventOf, ValidOutcome, RecordsOk, OutcomesTied, DoneBefore, OpenCallsPend, CallSeenBefore, CompletedAreIdle,
      PendingOk, PendingFor, Resolve, IsOutcomeOf, Finishes, RecordOk, FreshIfAllow, HashesDiffer, SameNode, LastAllow;
    OutcomeRecordOk(c, entries, e, id, a);
    RecordsExtend(entries, e);
    OutcomesExtend(c, c', entries, e);
    PendingExtend(c, entries, e);
    ResolveKeeps(c, entries + [e], id, c'.outcomed);
    DoneExtend(c', entries, e);
    ResolvedPends(c, entries, c', id);
    OpenExtend(c, c', entries, e);
  }

  lemma OutcomeRecordOk(c: ChainState, entries: seq<Entry>, e: Entry, id: string, a: nat)
    requires RecordsOk(entries) && OutcomesTied(c, entries) && OrNull(e, FSeq) == JNum(|entries|)
    requires EventOf(e) == Some(EventOutcome) && ValidOutcome(e) && OrNull(e, FCallId) == JStr(id) && id !in c.outcomed
    requires LastAllow(entries, |entries|, JStr(id)) == Some(a) && SameNode(entries[a], e) && !HashesDiffer(entries[a], e)
    ensures RecordOk(entries + [e], |entries|) && FreshIfAllow(entries, e)
    ensures forall n :: !Finishes(e, n)
    ensures forall cid :: IsOutcomeOf(e, cid) <==> cid == JStr(id)
  {
    hide EventOf, ValidOutcome, ValidAllow, HashesDiffer, SameNode, OutcomeBefore, CallSeenBefore;
    var cid := JStr(id);
    CallsBeforeStable(entries, e, |entries|, cid);
    LastAllowStable(entries, e, cid);
    hide LastAllow;
    assert (entries + [e])[|entries|] == e && (entries + [e])[a] == entries[a];
    assert OrNull(entries[a], FSeq) == JNum(a);
  }

  // ---- changes of the chain alone -----------------------------------------

  /** No pending call moves, no node completes, and new nodes are not complete. */
  ghost predicate SameWork(c: ChainState, c': ChainState) {
    && c'.pending == c.pending && c'.outcomed == c.outcomed
    && (forall id :: id in c.nodes ==> id in c'.nodes && c'.nodes[id].complete == c.nodes[id].complete)
    && forall id :: id in c'.nodes && id !in c.nodes ==> !c'.nodes[id].complete
  }

  lemma SameSets(c: ChainState, c': ChainState, entries: seq<Entry>)
    requires PendingOk(c, entries) && OutcomesTied(c, entries) && OpenCallsPend(c, entries)
    requires c'.pending == c.pending && c'.outcomed == c.outcomed
    ensures PendingOk(c', entries) && OutcomesTied(c', entries) && OpenCallsPend(c', entries)
  {
    hide OutcomeBefore, PendingFor, IsOpen, IsHex, CallSeenBefore;
  }

  lemma SameWorkKeeps(c: ChainState, c': ChainState, entries: seq<Entry>)
    requires CallInv(c, entries) && SameWork(c, c')
    ensures CallInv(c', entries)
  {
    hide RecordsOk, DoneBefore, PendingFor, PendingOk, OutcomesTied, OpenCallsPend;
    SameSets(c, c', entries);
  }

  /** A node without pending calls can be marked complete. */
  lemma MarkedKeepsCalls(w: World, node: string)
    requires CallInv(w.chain, w.entries) && node in w.chain.nodes && PendingFor(w.chain.pending, node) == []
    ensures CallInv(Marked(w, node).chain, w.entries)
  {
    hide RecordsOk, DoneBefore, PendingFor, PendingOk, OutcomesTied, OpenCallsPend;
    SameSets(w.chain, Marked(w, node).chain, w.entries);
  }
}
