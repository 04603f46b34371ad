/** What a clean verification of an arbitrary, untrusted ledger proves (src/evidence.ts). */
module Soundness {
  import opened Results
  import opened PlainJson
  import opened Authorities
  import opened AuthorityWire
  import opened Audit
  import opened Ledger
  import opened EvidenceRules
  import opened Evidence

  // ---- the delegation tree a ledger records -------------------------------

  /** The parent the definition at `i` names; a root has none. */
  function ParentAt(entries: seq<Entry>, i: nat): Option<string>
    requires i < |entries|
  {
    if EventOf(entries[i]) == Some(EventSpawn) then TextOf(entries[i], FParent) else None
  }

  /** `node` is `ancestor` or below it, by the definitions among the first `n` entries. */
  predicate Below(entries: seq<Entry>, n: nat, node: string, ancestor: string)
    requires n <= |entries|
    decreases n
  {
    match FirstDefinition(entries, n, node)
    case None => false
    case Some(j) => node == ancestor || (match ParentAt(entries, j) case Some(p) => Below(entries, j, p, ancestor) case None => false)
  }

  /** Every link from `node` up was made while no kill had named its parent. */
  predicate LinksLive(entries: seq<Entry>, n: nat, node: string)
    requires n <= |entries|
    decreases n
  {
    match FirstDefinition(entries, n, node)
    case None => false
    case Some(j) => (match ParentAt(entries, j) case Some(p) => !KilledBefore(entries, j, p) && LinksLive(entries, j, p) case None => IsRoot(entries[j]))
  }

  /** Parent and child authorities paired under one key read the same context field. */
  ghost predicate FieldsAgreeAlong(entries: seq<Entry>) {
    forall j: nat :: j < |entries| ==> FieldsAgreeAt(entries, j)
  }

  ghost predicate FieldsAgreeAt(entries: seq<Entry>, j: nat)
    requires j < |entries|
  {
    match (TextOf(entries[j], FNode), ParentAt(entries, j))
    case (Some(node), Some(parent)) =>
      (match (AuthorityOf(entries, node), AuthorityOf(entries, parent))
       case (Some(child), Some(p)) => FieldsMatch(child, p)
       case _ => true)
    case _ => true
  }

  lemma FirstDefinitionStable(entries: seq<Entry>, m: nat, n: nat, node: string)
    requires m <= n <= |entries| && FirstDefinition(entries, m, node).Some?
    ensures FirstDefinition(entries, n, node) == FirstDefinition(entries, m, node)
  {
    FirstStable(m, n, DefinesAt(entries, node));
  }

  ghost predicate TreeClean(entries: seq<Entry>) {
    && (forall i: nat {:trigger DefinitionFindings(entries, i)} :: i < |entries| ==> DefinitionFindings(entries, i) == [])
    && (forall i: nat {:trigger MonotonicityFindings(entries, i)} :: i < |entries| ==> MonotonicityFindings(entries, i) == [])
  }

  lemma AcceptedIsTreeClean(hash: Hasher, b: Bundle, expected: Option<Head>)
    requires Accepts(hash, b, expected)
    ensures TreeClean(b.entries)
  {
    AcceptsIff(hash, b, expected);
    forall i: nat | i < |b.entries| ensures DefinitionFindings(b.entries, i) == [] && MonotonicityFindings(b.entries, i) == [] {
      assert RulesClean(b, i) && Definitions(b)(i) == [] && Monotonicity(b)(i) == [];
    }
  }

  /** A defined node has a readable authority, and a spawned one is within a parent defined earlier. */
  lemma LinkIsNarrower(entries: seq<Entry>, n: nat, node: string)
    requires TreeClean(entries) && n <= |entries| && FirstDefinition(entries, n, node).Some?
    ensures AuthorityOf(entries, node).Some?
    ensures var j := FirstDefinition(entries, n, node).value;
            EventOf(entries[j]) == Some(EventSpawn) ==>
              && ParentAt(entries, j).Some?
              && FirstDefinition(entries, j, ParentAt(entries, j).value).Some?
              && AuthorityOf(entries, ParentAt(entries, j).value).Some?
              && IsNarrower(AuthorityOf(entries, node).value, AuthorityOf(entries, ParentAt(entries, j).value).value)
  {
    var j := FirstDefinition(entries, n, node).value;
    FirstDefinitionStable(entries, n, |entries|, node);
    assert DefinitionFindings(entries, j) == [];
    if EventOf(entries[j]) == Some(EventSpawn) {
      assert MonotonicityFindings(entries, j) == [];
      var p := TextOf(entries[j], FParent).value;
      var k := FirstDefinition(entries, j, p).value;
      FirstDefinitionStable(entries, j, |entries|, p);
      assert DefinitionFindings(entries, k) == [];
    }
  }

  /** What a node's authority grants, every ancestor's grants. */
  lemma {:induction false} AncestorsGrant(entries: seq<Entry>, n: nat, node: string, ancestor: string, scope: string, ctx: Context)
    requires TreeClean(entries) && FieldsAgreeAlong(entries)
    requires n <= |entries| && Below(entries, n, node, ancestor)
    requires AuthorityOf(entries, node).Some? && Grants(AuthorityOf(entries, node).value, scope, ctx, [])
    ensures AuthorityOf(entries, ancestor).Some? && Grants(AuthorityOf(entries, ancestor).value, scope, ctx, [])
    decreases n
  {
    if node != ancestor {
      LinkIsNarrower(entries, n, node);
      var j := FirstDefinition(entries, n, node).value;
      var p := ParentAt(entries, j).value;
      assert FieldsAgreeAt(entries, j);
      NarrowerIsSound(AuthorityOf(entries, node).value, AuthorityOf(entries, p).value, scope, ctx, []);
      AncestorsGrant(entries, j, p, ancestor, scope, ctx);
    }
  }

  /** Every link of a defined node's path is live. */
  lemma {:induction false} PathIsLive(entries: seq<Entry>, n: nat, node: string)
    requires TreeClean(entries) && n <= |entries| && FirstDefinition(entries, n, node).Some?
    ensures LinksLive(entries, n, node)
    decreases n
  {
    hide AuthorityOf, IsNarrower;
    var j := FirstDefinition(entries, n, node).value;
    if !IsRoot(entries[j]) {
      LinkIsNarrower(entries, n, node);
      assert MonotonicityFindings(entries, j) == [];
      PathIsLive(entries, j, ParentAt(entries, j).value);
    }
  }

  /** Every defined node is below a root. */
  lemma {:induction false} ReachesRoot(entries: seq<Entry>, n: nat, node: string) returns (root: nat)
    requires TreeClean(entries) && n <= |entries| && FirstDefinition(entries, n, node).Some?
    ensures root < n && IsRoot(entries[root])
    ensures TextOf(entries[root], FNode).Some? && Below(entries, n, node, TextOf(entries[root], FNode).value)
    decreases n
  {
    var j := FirstDefinition(entries, n, node).value;
    if IsRoot(entries[j]) { return j; }
    LinkIsNarrower(entries, n, node);
    root := ReachesRoot(entries, j, ParentAt(entries, j).value);
  }

  /** The bundle's one root entry. */
  lemma SingleRoot(hash: Hasher, b: Bundle, expected: Option<Head>, i: nat, j: nat)
    requires Accepts(hash, b, expected)
    requires i < |b.entries| && j < |b.entries| && IsRoot(b.entries[i]) && IsRoot(b.entries[j])
    ensures i == j
  {
    hide Accepts, HeadMatches, Verifies, OnChain, RulesClean, BindingClean, VersionOk;
    var roots := RootsIn(b.entries, |b.entries|);
    assert i in roots && j in roots;
    AcceptsIff(hash, b, expected);
  }

  /**
   * Offline soundness. If the verifier reports nothing, every allow without a recognised policy is granted by
   * its node's authority and by every ancestor's, the ancestors end in the single root, no earlier kill names the
   * node, and no link of its path was made after a kill of the parent.
   */
  lemma OfflineSoundness(hash: Hasher, b: Bundle, expected: Option<Head>, i: nat, root: nat)
    requires Accepts(hash, b, expected) && FieldsAgreeAlong(b.entries)
    requires i < |b.entries| && IsGated(b.entries[i])
    requires root < |b.entries| && IsRoot(b.entries[root])
    ensures var e := b.entries[i];
            && TextOf(e, FNode).Some? && TextOf(e, FScope).Some? && ContextOf(e).Some?
            && var node := TextOf(e, FNode).value;
            && !KilledBefore(b.entries, i, node) && LinksLive(b.entries, i, node)
            && TextOf(b.entries[root], FNode).Some? && Below(b.entries, i, node, TextOf(b.entries[root], FNode).value)
            && forall a :: Below(b.entries, i, node, a) ==>
                 && AuthorityOf(b.entries, a).Some?
                 && Grants(AuthorityOf(b.entries, a).value, TextOf(e, FScope).value, ContextOf(e).value, [])
  {
    AcceptedIsTreeClean(hash, b, expected);
    GatedAllow(hash, b, expected, i);
    var e := b.entries[i];
    var node := TextOf(e, FNode).value;
    PathIsLive(b.entries, i, node);
    var found := ReachesRoot(b.entries, i, node);
    SingleRoot(hash, b, expected, found, root);
    forall a | Below(b.entries, i, node, a)
      ensures AuthorityOf(b.entries, a).Some?
      ensures Grants(AuthorityOf(b.entries, a).value, TextOf(e, FScope).value, ContextOf(e).value, [])
    {
      AncestorsGrant(b.entries, i, node, a, TextOf(e, FScope).value, ContextOf(e).value);
    }
  }

  lemma GatedAllow(hash: Hasher, b: Bundle, expected: Option<Head>, i: nat)
    requires Accepts(hash, b, expected) && i < |b.entries| && IsGated(b.entries[i])
    ensures var e := b.entries[i];
            && TextOf(e, FNode).Some? && TextOf(e, FScope).Some? && ContextOf(e).Some?
            && FirstDefinition(b.entries, i, TextOf(e, FNode).value).Some?
            && !KilledBefore(b.entries, i, TextOf(e, FNode).value)
            && AuthorityOf(b.entries, TextOf(e, FNode).value).Some?
            && Grants(AuthorityOf(b.entries, TextOf(e, FNode).value).value, TextOf(e, FScope).value, ContextOf(e).value, [])
  {
    AcceptsIff(hash, b, expected);
    assert RulesClean(b, i) && Containment(b)(i) == [];
    assert ContainmentFindings(b.entries, i) == [];
  }

  // ---- a retained head ----------------------------------------------------

  /** A bundle accepted against the head of a ledger that verifies carries that ledger, entry for canonical entry. */
  lemma HeadPinsLedger(hash: Hasher, b: Bundle, honest: seq<Entry>, head: string)
    requires IsInjective(hash) && Verifies(hash, honest) && honest != [] && OrNull(honest[|honest| - 1], FHash) == JStr(head)
    requires Accepts(hash, b, Some(Head(|honest| - 1, head))) && AreObjects(b.entries) && AreObjects(honest)
    ensures SameLedger(b.entries, honest)
  {
    AcceptsIff(hash, b, Some(Head(|honest| - 1, head)));
    SameHeadSameLedger(hash, b.entries, honest);
  }

  // ---- clean means accounted ----------------------------------------------

  ghost predicate RecordsClean(entries: seq<Entry>) {
    forall i: nat {:trigger RecordFindings(entries, i)} :: i < |entries| ==> RecordFindings(entries, i) == []
  }

  lemma AcceptedRecords(hash: Hasher, b: Bundle, expected: Option<Head>)
    requires Accepts(hash, b, expected) && b.v == Some(JNum(2))
    ensures RecordsClean(b.entries) && VersionOk(b) && BindingFailures(b) == []
  {
    AcceptsIff(hash, b, expected);
    BindingFailuresNone(b);
    forall i: nat | i < |b.entries| ensures RecordFindings(b.entries, i) == [] {
      assert BindingClean(b, i) && Records(b)(i) == [];
    }
  }

  /** Two allows or denies never share a call, and every one of them names one. */
  lemma CallsAreDistinct(entries: seq<Entry>, i: nat, j: nat)
    requires RecordsClean(entries) && i < j < |entries| && IsJudged(entries[i]) && IsJudged(entries[j])
    ensures OrNull(entries[i], FCallId) != OrNull(entries[j], FCallId) && OrNull(entries[j], FCallId).JStr?
  {
    var cid := OrNull(entries[j], FCallId);
    assert RecordFindings(entries, j) == [];
    assert !CallSeenBefore(entries, j, cid);
    assert cid.JStr? && !NamesCall(entries[i], cid);
  }

  lemma OutcomesAreDistinct(entries: seq<Entry>, i: nat, j: nat)
    requires RecordsClean(entries) && i < j < |entries|
    requires EventOf(entries[i]) == Some(EventOutcome) && EventOf(entries[j]) == Some(EventOutcome)
    ensures OrNull(entries[i], FCallId) != OrNull(entries[j], FCallId)
  {
    assert RecordFindings(entries, i) == [] && RecordFindings(entries, j) == [];
    assert IsOutcomeOf(entries[i], OrNull(entries[i], FCallId));
    assert OutcomeBefore(entries, j, OrNull(entries[i], FCallId)) && !OutcomeBefore(entries, j, OrNull(entries[j], FCallId));
  }

  lemma CleanAllow(entries: seq<Entry>, i: nat)
    requires i < |entries| && RecordFindings(entries, i) == [] && EventOf(entries[i]) == Some(EventAllow)
    ensures IsAllowOf(entries[i], OrNull(entries[i], FCallId))
  {
  }

  /** The call of an allow is bound against that allow. */
  lemma AllowIsItsCalls(entries: seq<Entry>, i: nat)
    requires RecordsClean(entries) && i < |entries| && EventOf(entries[i]) == Some(EventAllow)
    ensures LastAllow(entries, |entries|, OrNull(entries[i], FCallId)) == Some(i)
    ensures !InvalidAllowBefore(entries, |entries|, OrNull(entries[i], FCallId))
  {
    hide ValidAllow, RecordFindings, EventOf, OrNull;
    var cid := OrNull(entries[i], FCallId);
    CleanAllow(entries, i);
    var last := LastAllow(entries, |entries|, cid).value;
    if i < last { CallsAreDistinct(entries, i, last); }
    forall k | 0 <= k < |entries| ensures !IsInvalidAllowOf(entries[k], cid) {
      if EventOf(entries[k]) == Some(EventAllow) { CleanAllow(entries, k); }
    }
  }

  /** An outcome that answers the allow at `i`: the same call, on the same node, at a larger seq. */
  predicate Answers(entries: seq<Entry>, i: nat, o: nat)
    requires i < |entries| && o < |entries|
  {
    && EventOf(entries[o]) == Some(EventOutcome) && OrNull(entries[o], FCallId) == OrNull(entries[i], FCallId)
    && SameNode(entries[i], entries[o]) && SeqAfter(entries[o], entries[i])
  }

  /**
   * Clean means accounted: with no failure and aggregate "clean", every allow on a node the ledger defines has
   * exactly one outcome, on the same node at a larger seq, and every defined node is done or cleanly revoked.
   */
  lemma CleanMeansAccounted(hash: Hasher, b: Bundle, expected: Option<Head>, i: nat) returns (o: nat)
    requires Accepts(hash, b, expected) && b.v == Some(JNum(2))
    requires AggregateOf(b.entries, BindingFailures(b)) == Clean
    requires i < |b.entries| && EventOf(b.entries[i]) == Some(EventAllow)
    requires TextOf(b.entries[i], FNode).Some? && DefinedBefore(b.entries, |b.entries|, TextOf(b.entries[i], FNode).value)
    ensures o < |b.entries| && Answers(b.entries, i, o)
    ensures forall k | 0 <= k < |b.entries| && EventOf(b.entries[k]) == Some(EventOutcome) ::
              OrNull(b.entries[k], FCallId) == OrNull(b.entries[i], FCallId) ==> k == o
  {
    var entries := b.entries;
    var cid := OrNull(entries[i], FCallId);
    AcceptedRecords(hash, b, expected);
    AllowIsItsCalls(entries, i);
    if !IsBound(entries, cid) { UnboundIsNotClean(b, i); }
    o := FirstOutcome(entries, |entries|, cid).value;
    forall k | 0 <= k < |entries| && EventOf(entries[k]) == Some(EventOutcome) && OrNull(entries[k], FCallId) == cid ensures k == o {
      if k < o { OutcomesAreDistinct(entries, k, o); } else if o < k { OutcomesAreDistinct(entries, o, k); }
    }
  }

  lemma UnboundIsNotClean(b: Bundle, i: nat)
    requires i < |b.entries| && RecordsClean(b.entries) && EventOf(b.entries[i]) == Some(EventAllow)
    requires TextOf(b.entries[i], FNode).Some? && DefinedBefore(b.entries, |b.entries|, TextOf(b.entries[i], FNode).value)
    requires !IsBound(b.entries, OrNull(b.entries[i], FCallId))
    ensures AggregateOf(b.entries, BindingFailures(b)) != Clean
  {
    var entries := b.entries;
    var cid := OrNull(entries[i], FCallId);
    var node := TextOf(entries[i], FNode).value;
    AllowIsItsCalls(entries, i);
    if CallStateOf(entries, cid) == Some(Unaccounted) {
      assert IsUnaccountedOn(entries, cid, node);
      assert NodeFails(entries, node) || NodeIsOpen(entries, node);
    }
  }

  lemma CleanNodesAreClosed(b: Bundle, node: string)
    requires AggregateOf(b.entries, BindingFailures(b)) == Clean && DefinedBefore(b.entries, |b.entries|, node)
    ensures DoneBefore(b.entries, |b.entries|, node) || KilledBefore(b.entries, |b.entries|, node)
    ensures !HasUnaccounted(b.entries, node)
  {
    assert !NodeFails(b.entries, node) && !NodeIsOpen(b.entries, node);
  }
}
