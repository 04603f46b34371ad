/**
 * The ledger a guard writes, seen by the verifier: the invariant that ties the live chain to the entries, and
 * the proof that every append a guard makes keeps it. What an entry fits, given the state it is written in, is
 * stated by kind of event; what earlier entries earned is not changed by a later one.
 */
module Honest {
  import opened Results
  import opened PlainJson
  import opened Scopes
  import opened Ceilings
  import opened Authorities
  import opened AuthorityWire
  import opened Chains
  import opened Audit
  import opened Ledger
  import opened GuardSteps
  import opened EvidenceRules
  import opened Evidence

  /** The bundle an auditor is handed. */
  function BundleOf(w: World): Bundle {
    Bundle(Some(JNum(w.cfg.version)), JStr(w.chain.chainId), w.entries)
  }

  // ---- what an append leaves unchanged ------------------------------------

  lemma BeforeStable(entries: seq<Entry>, e: Entry, i: nat, node: string)
    requires i <= |entries|
    ensures DefinedBefore(entries + [e], i, node) == DefinedBefore(entries, i, node)
    ensures KilledBefore(entries + [e], i, node) == KilledBefore(entries, i, node)
  {
    assert forall j :: 0 <= j < i ==> (entries + [e])[j] == entries[j];
  }

  lemma DefinitionStable(entries: seq<Entry>, e: Entry, node: string)
    requires DefinedBefore(entries, |entries|, node)
    ensures AuthorityOf(entries + [e], node) == AuthorityOf(entries, node)
    ensures FirstDefinition(entries + [e], |entries| + 1, node) == FirstDefinition(entries, |entries|, node)
  {
    hide Defines;
    var x := entries + [e];
    assert forall i: nat :: i < |entries| ==> x[i] == entries[i];
    var here := FirstDefinition(entries, |entries|, node);
    FirstAgrees(|entries|, DefinesAt(entries, node), DefinesAt(x, node));
    FirstStable(|entries|, |x|, DefinesAt(x, node));
  }

  lemma RulesStable(entries: seq<Entry>, e: Entry, i: nat)
    requires i < |entries|
    ensures DefinitionFindings(entries + [e], i) == DefinitionFindings(entries, i)
    ensures MonotonicityFindings(entries + [e], i) == MonotonicityFindings(entries, i)
    ensures ContainmentFindings(entries + [e], i) == ContainmentFindings(entries, i)
  {
    hide AuthorityOf, IsNarrower, Grants, EventOf, ContextOf, AuthorityIn, FirstDefinition, KilledBefore, IsKnownPolicy, TextOf;
    var node := TextOf(entries[i], FNode);
    var parent := TextOf(entries[i], FParent);
    if node.Some? {
      BeforeStable(entries, e, i, node.value);
      if IsDefinition(entries[i]) { assert Defines(entries[i], node.value); }
      if DefinedBefore(entries, |entries|, node.value) { DefinitionStable(entries, e, node.value); }
    }
    if parent.Some? {
      BeforeStable(entries, e, i, parent.value);
      if DefinedBefore(entries, |entries|, parent.value) { DefinitionStable(entries, e, parent.value); }
    }
  }

  // ---- the invariant ------------------------------------------------------

  function Version(w: World): Option<Json> { Some(JNum(w.cfg.version)) }

  /** The verifier finds nothing at `i`, execution binding aside; or it finds a grant wider than its parent's. */
  predicate EntryOk(w: World, i: nat)
    requires i < |w.entries|
  {
    var e := w.entries[i];
    && Get(e, FV) == Version(w) && Get(e, FChainId) == Some(JStr(w.chain.chainId))
    && (IsRoot(e) <==> i == 0)
    && EventFindings(Version(w), e) == [] && NodeFindings(e) == [] && PolicyFindings(Version(w), e) == []
    && DefinitionFindings(w.entries, i) == [] && ContainmentFindings(w.entries, i) == []
    && (MonotonicityFindings(w.entries, i) == [] || MonotonicityFindings(w.entries, i) == [WiderThanParent])
    && (w.cfg.version == 1 ==> LeakFindings(e) == [])
  }

  /** No grant is found wider than its parent's. */
  ghost predicate Attenuates(entries: seq<Entry>) {
    forall i: nat {:trigger MonotonicityFindings(entries, i)} :: i < |entries| ==> MonotonicityFindings(entries, i) == []
  }

  ghost predicate AllBuiltin(nodes: map<string, Node>) {
    forall id :: id in nodes ==> IsBuiltinAuthority(nodes[id].authority)
  }

  /** The live tree: its links, revocation closed, attenuation, and authorities the wire can carry. */
  ghost predicate ChainOk(c: ChainState) {
    TreeInv(c) && Attenuated(c.nodes) && AllBuiltin(c.nodes)
  }

  /** What is appended is no wider grant, and no grant is taken back. */
  ghost predicate SameGrants(w: World, w': World) {
    Attenuates(w.entries) <==> Attenuates(w'.entries)
  }

  /** The entry that defines a node carries its authority. */
  ghost predicate CarriesAuthority(entries: seq<Entry>, id: string, a: Authority) {
    match FirstDefinition(entries, |entries|, id)
    case Some(j) => AuthorityOf(entries, id) == Some(RereadAuthority(a, j))
    case None => false
  }

  /** A node the ledger defines is live, and the ledger carries its authority. */
  ghost predicate DefinitionsTied(c: ChainState, entries: seq<Entry>) {
    forall id :: DefinedBefore(entries, |entries|, id) ==>
      id in c.nodes && CarriesAuthority(entries, id, c.nodes[id].authority)
  }

  /** A node the ledger kills is revoked. */
  ghost predicate KillsTied(c: ChainState, entries: seq<Entry>) {
    forall id :: KilledBefore(entries, |entries|, id) ==> id in c.revoked
  }

  ghost predicate EntriesOk(w: World) {
    forall i: nat {:trigger EntryOk(w, i)} :: i < |w.entries| ==> EntryOk(w, i)
  }

  ghost predicate LogOk(hash: Hasher, w: World) {
    w.entries != [] && Verifies(hash, w.entries) && IsHead(w.entries, w.prev)
  }

  ghost predicate LedgerInv(hash: Hasher, w: World) {
    && (w.cfg.version == 1 || w.cfg.version == 2)
    && ChainOk(w.chain) && LogOk(hash, w) && EntriesOk(w)
    && DefinitionsTied(w.chain, w.entries) && KillsTied(w.chain, w.entries)
  }

  /** The live chain may grow and revoke: no node changes its authority, and none is un-revoked. */
  ghost predicate Grows(c: ChainState, c': ChainState) {
    && c'.chainId == c.chainId && c.revoked <= c'.revoked
    && forall id :: id in c.nodes ==> id in c'.nodes && c'.nodes[id].authority == c.nodes[id].authority
  }

  lemma ChainGrows(hash: Hasher, w: World, c: ChainState)
    requires LedgerInv(hash, w) && Grows(w.chain, c) && ChainOk(c)
    ensures LedgerInv(hash, w.(chain := c))
  {
    hide ChainOk, Verifies, DefinedBefore, KilledBefore, AuthorityOf;
    var w' := w.(chain := c);
    forall i: nat | i < |w'.entries| ensures EntryOk(w', i) {
      assert EntryOk(w, i);
      SameEntryOk(w, w', i);
    }
  }

  lemma SameEntryOk(w: World, w': World, i: nat)
    requires i < |w.entries| && EntryOk(w, i)
    requires w'.entries == w.entries && w'.cfg == w.cfg && w'.chain.chainId == w.chain.chainId
    ensures EntryOk(w', i)
  {
  }

  /** When execution binding finds nothing either, a ledger is accepted exactly when its grants read back within their parents'. */
  lemma InvAccepts(hash: Hasher, w: World)
    requires LedgerInv(hash, w)
    requires w.cfg.version == 2 ==>
      forall i: nat :: i < |w.entries| ==> RecordFindings(w.entries, i) == [] && BindingFindings(w.entries, i) == []
    ensures Accepts(hash, BundleOf(w), None) <==> Attenuates(w.entries)
  {
    hide EventFindings, NodeFindings, PolicyFindings, DefinitionFindings, MonotonicityFindings, ContainmentFindings;
    hide LeakFindings, RecordFindings, BindingFindings, IsRoot, Accepts, Verifies;
    var b := BundleOf(w);
    forall i: nat | i < |b.entries|
      ensures (RulesClean(b, i) <==> MonotonicityFindings(b.entries, i) == []) && BindingClean(b, i) && HasVersion(b, b.entries[i]) && OnChain(b, b.entries[i])
    {
      assert EntryOk(w, i);
    }
    OneRoot(w);
    AcceptsIff(hash, b, None);
  }

  lemma OneRoot(w: World)
    requires EntriesOk(w) && w.entries != []
    ensures RootsIn(w.entries, |w.entries|) == [0]
  {
    hide EventFindings, NodeFindings, PolicyFindings, DefinitionFindings, MonotonicityFindings, ContainmentFindings, LeakFindings, EventOf;
    var p := (i: nat) => i < |w.entries| && IsRoot(w.entries[i]);
    forall i: nat | i < |w.entries| ensures p(i) == (i == 0) { assert EntryOk(w, i); }
    OnlyIndex(|w.entries|, p, 0);
  }

  // ---- one append ---------------------------------------------------------

  /** A definition of a live node under a live, unrevoked parent the ledger defines. */
  ghost predicate SpawnFits(w: World, fields: Entry) {
    && TextOf(fields, FNode).Some? && TextOf(fields, FParent).Some?
    && var id, parent := TextOf(fields, FNode).value, TextOf(fields, FParent).value;
    && id in w.chain.nodes && !DefinedBefore(w.entries, |w.entries|, id)
    && w.chain.nodes[id].parent == Some(parent)
    && DefinedBefore(w.entries, |w.entries|, parent) && parent !in w.chain.revoked
    && Get(fields, FGranted) == Some(AuthorityToWire(w.chain.nodes[id].authority))
  }

  /** A recognised un-gated call, or one a live, unrevoked, defined node's authority grants. */
  ghost predicate AllowFits(w: World, fields: Entry) {
    (FPolicy in fields ==> IsKnownPolicy(Get(fields, FPolicy)))
    && (FPolicy !in fields ==>
          && TextOf(fields, FNode).Some? && TextOf(fields, FScope).Some? && FContext in fields && fields[FContext].JObj?
          && var id := TextOf(fields, FNode).value;
          && DefinedBefore(w.entries, |w.entries|, id) && id in w.chain.nodes && id !in w.chain.revoked
          && Grants(w.chain.nodes[id].authority, TextOf(fields, FScope).value, fields[FContext].members, []))
  }

  ghost predicate KillFits(w: World, fields: Entry) {
    FRevoked in fields && fields[FRevoked].JArr? && forall id :: JStr(id) in fields[FRevoked].items ==> id in w.chain.revoked
  }

  /** What the guard hands to `append`. */
  ghost predicate Fits(w: World, event: EventKind, fields: Entry) {
    && fields.Keys !! FRAMING && (forall f :: f in fields ==> !f.FOther?)
    && Get(fields, FChainId) == Some(JStr(w.chain.chainId))
    && (FNode in fields ==> fields[FNode].JStr?)
    && (FPolicy in fields ==> event == EventAllow)
    && (w.cfg.version == 1 ==> event != EventOutcome && fields.Keys !! V2_ONLY)
    && !event.EventRoot?
    && (event.EventSpawn? ==> SpawnFits(w, fields))
    && (event.EventAllow? ==> AllowFits(w, fields))
    && (event.EventKill? ==> KillFits(w, fields))
  }

  predicate IsFraming(f: Field) { f in FRAMING }

  lemma FramingIsDisjoint()
    ensures forall f :: IsFraming(f) ==> !f.FOther? && f != FNode && f != FPolicy && f != FRevoked && f !in V2_ONLY
  {
  }

  /** The committed entry carries the fields and its own framing. */
  predicate Carries(w: World, event: EventKind, fields: Entry, e: Entry) {
    && (forall f :: f in fields ==> f in e && e[f] == fields[f])
    && (forall f :: f in e ==> f in fields || IsFraming(f))
    && EventOf(e) == Some(event) && Get(e, FV) == Version(w) && Get(e, FSeq) == Some(JNum(|w.entries|))
  }

  lemma CommittedCarries(hash: Hasher, w: World, event: EventKind, fields: Entry)
    requires fields.Keys !! FRAMING
    requires Committed(hash, w.cfg.version, w.entries, w.prev, EventText(event), w.clock + 1, fields).Some?
    ensures Carries(w, event, fields, Committed(hash, w.cfg.version, w.entries, w.prev, EventText(event), w.clock + 1, fields).value)
  {
    hide EventText;
    EventNamedText(event);
    var e := Committed(hash, w.cfg.version, w.entries, w.prev, EventText(event), w.clock + 1, fields).value;
    forall f | f in fields ensures f in e && e[f] == fields[f] { assert f !in FRAMING; }
  }

  lemma SpawnIsClean(x: seq<Entry>, n: nat, id: string, parent: string, child: Authority, p: Authority)
    requires n < |x| && EventOf(x[n]) == Some(EventSpawn) && TextOf(x[n], FNode) == Some(id) && TextOf(x[n], FParent) == Some(parent)
    requires !DefinedBefore(x, n, id) && DefinedBefore(x, n, parent) && !KilledBefore(x, n, parent)
    requires AuthorityIn(x[n], n) == Some(child) && AuthorityOf(x, id) == Some(child) && AuthorityOf(x, parent) == Some(p)
    ensures DefinitionFindings(x, n) == [] && MonotonicityFindings(x, n) == Only(!IsNarrower(child, p), WiderThanParent)
  {
    hide IsNarrower, AuthorityIn, AuthorityOf, DefinedBefore, KilledBefore, TextOf, EventOf;
  }

  /** The ledger carries a spawned node's authority. */
  lemma SpawnCarriesGrant(w: World, fields: Entry, e: Entry)
    requires ChainOk(w.chain) && SpawnFits(w, fields) && Carries(w, EventSpawn, fields, e)
    ensures var id := TextOf(fields, FNode).value;
            && TextOf(e, FNode) == Some(id) && TextOf(e, FParent) == TextOf(fields, FParent)
            && AuthorityIn(e, |w.entries|) == Some(RereadAuthority(w.chain.nodes[id].authority, |w.entries|))
            && FirstDefinition(w.entries + [e], |w.entries| + 1, id) == Some(|w.entries|)
            && AuthorityOf(w.entries + [e], id) == AuthorityIn(e, |w.entries|)
  {
    hide Valid, IsBuiltinAuthority, TreeInv, DefinedBefore, RereadAuthority, AuthorityToWire, ReadAuthority, EventOf, Carries, TextOf;
    var id := TextOf(fields, FNode).value;
    CarriedOver(w, fields, e);
    AuthorityRoundTrip(w.chain.nodes[id].authority, |w.entries|);
    NewlyDefined(w.entries, e, id);
  }

  lemma CarriedOver(w: World, fields: Entry, e: Entry)
    requires Carries(w, EventSpawn, fields, e)
    requires TextOf(fields, FNode).Some? && TextOf(fields, FParent).Some? && Get(fields, FGranted).Some?
    ensures EventOf(e) == Some(EventSpawn) && Defines(e, TextOf(fields, FNode).value)
    ensures TextOf(e, FNode) == TextOf(fields, FNode) && TextOf(e, FParent) == TextOf(fields, FParent) && Get(e, FGranted) == Get(fields, FGranted)
  {
  }

  /** A grant reads back within its parent's exactly when no list or object stands in the way. */
  lemma SpawnRulesHold(w: World, fields: Entry, e: Entry)
    requires ChainOk(w.chain) && DefinitionsTied(w.chain, w.entries) && KillsTied(w.chain, w.entries)
    requires SpawnFits(w, fields) && Carries(w, EventSpawn, fields, e)
    ensures var x := w.entries + [e];
            var id, parent := TextOf(fields, FNode).value, TextOf(fields, FParent).value;
            && parent in w.chain.nodes && DefinitionFindings(x, |w.entries|) == []
            && MonotonicityFindings(x, |w.entries|)
               == Only(!ReadsApart(w.chain.nodes[id].authority, w.chain.nodes[parent].authority), WiderThanParent)
  {
    hide IsNarrower, KilledBefore, DefinedBefore, AuthorityIn, AuthorityOf, TreeInv, RereadAuthority, AllBuiltin, WellFormed, ValidScopes, DistinctKeys,
      ReadsApart, FirstDefinition;
    var n, x := |w.entries|, w.entries + [e];
    var id, parent := TextOf(fields, FNode).value, TextOf(fields, FParent).value;
    var child, p := w.chain.nodes[id].authority, w.chain.nodes[parent].authority;
    SpawnCarriesGrant(w, fields, e);
    BeforeStable(w.entries, e, n, id);
    BeforeStable(w.entries, e, n, parent);
    DefinitionStable(w.entries, e, parent);
    var j := FirstDefinition(w.entries, n, parent).value;
    RereadNarrowsIff(child, n, p, j);
    SpawnIsClean(x, n, id, parent, RereadAuthority(child, n), RereadAuthority(p, j));
  }

  lemma NewlyDefined(entries: seq<Entry>, e: Entry, id: string)
    requires !DefinedBefore(entries, |entries|, id) && Defines(e, id)
    ensures FirstDefinition(entries + [e], |entries| + 1, id) == Some(|entries|)
  {
    hide Defines;
    var x := entries + [e];
    assert x[|entries|] == e;
    assert forall i: nat :: i < |entries| ==> x[i] == entries[i];
  }

  lemma AllowIsClean(x: seq<Entry>, n: nat, id: string, scope: string, ctx: Context, a: Authority)
    requires n < |x| && TextOf(x[n], FNode) == Some(id) && TextOf(x[n], FScope) == Some(scope) && OrNull(x[n], FContext) == JObj(ctx)
    requires DefinedBefore(x, n, id) && !KilledBefore(x, n, id) && AuthorityOf(x, id) == Some(a) && Grants(a, scope, ctx, [])
    ensures ContainmentFindings(x, n) == []
  {
    hide Grants, AuthorityOf, DefinedBefore, KilledBefore, TextOf, EventOf, IsKnownPolicy;
  }

  lemma AllowRulesHold(w: World, fields: Entry, e: Entry)
    requires ChainOk(w.chain) && DefinitionsTied(w.chain, w.entries) && KillsTied(w.chain, w.entries)
    requires AllowFits(w, fields) && Carries(w, EventAllow, fields, e)
    ensures ContainmentFindings(w.entries + [e], |w.entries|) == []
  {
    FramingIsDisjoint();
    hide Grants, AuthorityOf, RereadAuthority, DefinedBefore, KilledBefore, EventOf, IsFraming, FirstDefinition, TreeInv, AllBuiltin, WellFormed, IsNarrower;
    var n, x := |w.entries|, w.entries + [e];
    assert x[n] == e;
    if FPolicy in fields {
      assert IsKnownPolicy(Get(e, FPolicy));
    } else {
      var id := TextOf(fields, FNode).value;
      BeforeStable(w.entries, e, n, id);
      DefinitionStable(w.entries, e, id);
      var j := FirstDefinition(w.entries, n, id).value;
      RereadGrantsAlike(w.chain.nodes[id].authority, j, TextOf(fields, FScope).value, fields[FContext].members);
      AllowIsClean(x, n, id, TextOf(fields, FScope).value, fields[FContext].members, RereadAuthority(w.chain.nodes[id].authority, j));
    }
  }

  lemma NoLeak(w: World, event: EventKind, fields: Entry, e: Entry)
    requires Carries(w, event, fields, e) && fields.Keys !! V2_ONLY
    ensures LeakFindings(e) == []
  {
    FramingIsDisjoint();
    hide EventOf, IsFraming;
    forall f | f in e ensures f !in V2_ONLY { assert f in fields || IsFraming(f); }
  }

  /** What an entry earns from its own members. */
  lemma MembersAreClean(w: World, event: EventKind, fields: Entry, e: Entry)
    requires Carries(w, event, fields, e) && (w.cfg.version == 1 ==> !event.EventOutcome?)
    requires forall f :: f in fields ==> !f.FOther?
    requires Get(fields, FChainId) == Some(JStr(w.chain.chainId)) && (FNode in fields ==> fields[FNode].JStr?)
    requires FPolicy in fields ==> event.EventAllow? && IsKnownPolicy(Get(fields, FPolicy))
    ensures EventFindings(Version(w), e) == [] && NodeFindings(e) == [] && PolicyFindings(Version(w), e) == []
    ensures Get(e, FV) == Version(w) && Get(e, FChainId) == Some(JStr(w.chain.chainId)) && (IsRoot(e) <==> event.EventRoot?)
  {
    FramingIsDisjoint();
    hide IsFraming, EventOf, IsKnownPolicy;
    assert forall f :: f in e ==> !f.FOther?;
    assert FNode in e ==> FNode in fields;
    assert FPolicy in e ==> FPolicy in fields && Get(e, FPolicy) == Get(fields, FPolicy);
  }

  lemma PolicyIsKnown(w: World, event: EventKind, fields: Entry)
    requires Fits(w, event, fields)
    ensures FPolicy in fields ==> event.EventAllow? && IsKnownPolicy(Get(fields, FPolicy))
  {
    hide SpawnFits, KillFits;
  }

  /** The verifier finds nothing at the entry a guard appends. */
  lemma NewEntryOk(w: World, event: EventKind, fields: Entry, e: Entry)
    requires w.cfg.version == 1 || w.cfg.version == 2
    requires w.entries != []
    requires ChainOk(w.chain) && DefinitionsTied(w.chain, w.entries) && KillsTied(w.chain, w.entries)
    requires Fits(w, event, fields) && Carries(w, event, fields, e)
    ensures EntryOk(w.(entries := w.entries + [e]), |w.entries|)
  {
    hide ChainOk, SpawnFits, AllowFits, KillFits, EventOf, DefinitionsTied, KillsTied, EventFindings, NodeFindings, PolicyFindings, LeakFindings,
      DefinitionFindings, ContainmentFindings, MonotonicityFindings;
    NewRulesHold(w, event, fields, e);
    PolicyIsKnown(w, event, fields);
    MembersAreClean(w, event, fields, e);
    if w.cfg.version == 1 { NoLeak(w, event, fields, e); }
    assert (w.entries + [e])[|w.entries|] == e;
  }

  lemma NewRulesHold(w: World, event: EventKind, fields: Entry, e: Entry)
    requires ChainOk(w.chain) && DefinitionsTied(w.chain, w.entries) && KillsTied(w.chain, w.entries)
    requires Fits(w, event, fields) && Carries(w, event, fields, e)
    ensures var n, x := |w.entries|, w.entries + [e];
            && DefinitionFindings(x, n) == [] && ContainmentFindings(x, n) == []
            && (MonotonicityFindings(x, n) == [] || MonotonicityFindings(x, n) == [WiderThanParent])
  {
    hide ChainOk, SpawnFits, AllowFits, KillFits, EventOf, DefinitionsTied, KillsTied, ReadsApart;
    assert (w.entries + [e])[|w.entries|] == e;
    if event.EventSpawn? { SpawnRulesHold(w, fields, e); }
    if event.EventAllow? { AllowRulesHold(w, fields, e); }
  }

  lemma {:induction false} OldEntriesOk(w: World, e: Entry, i: nat)
    requires i < |w.entries| && EntryOk(w, i)
    ensures EntryOk(w.(entries := w.entries + [e]), i)
  {
    hide DefinitionFindings, MonotonicityFindings, ContainmentFindings, EventFindings, NodeFindings, PolicyFindings, LeakFindings, IsRoot;
    RulesStable(w.entries, e, i);
    assert (w.entries + [e])[i] == w.entries[i];
  }

  lemma DefinitionsStayTied(w: World, event: EventKind, fields: Entry, e: Entry)
    requires ChainOk(w.chain) && DefinitionsTied(w.chain, w.entries)
    requires Fits(w, event, fields) && Carries(w, event, fields, e)
    ensures DefinitionsTied(w.chain, w.entries + [e])
  {
    hide ChainOk, AuthorityOf, AllowFits, KillFits, SpawnFits, RereadAuthority, EventOf;
    var n, x := |w.entries|, w.entries + [e];
    forall id | DefinedBefore(x, |x|, id)
      ensures id in w.chain.nodes && CarriesAuthority(x, id, w.chain.nodes[id].authority)
    {
      BeforeStable(w.entries, e, n, id);
      if DefinedBefore(w.entries, n, id) {
        DefinitionStable(w.entries, e, id);
      } else {
        assert Defines(x[n], id) && x[n] == e;
        SpawnTied(w, event, fields, e, id);
      }
    }
  }

  lemma SpawnTied(w: World, event: EventKind, fields: Entry, e: Entry, id: string)
    requires ChainOk(w.chain) && Fits(w, event, fields) && Carries(w, event, fields, e) && Defines(e, id)
    ensures id in w.chain.nodes && CarriesAuthority(w.entries + [e], id, w.chain.nodes[id].authority)
  {
    hide ChainOk, AuthorityOf, AllowFits, KillFits, RereadAuthority, AuthorityIn, DefinedBefore;
    SpawnCarriesGrant(w, fields, e);
  }

  lemma KillsStayTied(w: World, event: EventKind, fields: Entry, e: Entry)
    requires KillsTied(w.chain, w.entries) && Fits(w, event, fields) && Carries(w, event, fields, e)
    ensures KillsTied(w.chain, w.entries + [e])
  {
    hide Fits, Carries, Kills;
    var n, x := |w.entries|, w.entries + [e];
    forall id | KilledBefore(x, |x|, id) ensures id in w.chain.revoked {
      BeforeStable(w.entries, e, n, id);
      if !KilledBefore(w.entries, n, id) {
        assert x[n] == e && Kills(e, id);
        KillIsFit(w, event, fields, e, id);
      }
    }
  }

  lemma KillIsFit(w: World, event: EventKind, fields: Entry, e: Entry, id: string)
    requires Fits(w, event, fields) && Carries(w, event, fields, e) && Kills(e, id)
    ensures id in w.chain.revoked
  {
    FramingIsDisjoint();
    hide AllowFits, SpawnFits, EventOf, IsFraming;
    assert FRevoked in fields;
  }

  /** An append either commits one entry that continues the hash chain, or only spends a tick. */
  lemma Appended(hash: Hasher, w: World, event: EventKind, fields: Entry) returns (c: Option<Entry>)
    requires fields.Keys !! FRAMING
    ensures c.None? ==> Append(hash, w, event, fields) == (w.(clock := w.clock + 1), false)
    ensures c.Some? ==>
      && Carries(w, event, fields, c.value) && FHash in c.value && c.value[FHash].JStr?
      && Append(hash, w, event, fields) == (w.(entries := w.entries + [c.value], prev := c.value[FHash].text, clock := w.clock + 1), true)
      && (Verifies(hash, w.entries) && IsHead(w.entries, w.prev) ==>
            Verifies(hash, w.entries + [c.value]) && IsHead(w.entries + [c.value], c.value[FHash].text))
  {
    hide EventText, Verifies, IsHead, FRAMING, Carries;
    c := Committed(hash, w.cfg.version, w.entries, w.prev, EventText(event), w.clock + 1, fields);
    if c.Some? {
      CommittedCarries(hash, w, event, fields);
      if Verifies(hash, w.entries) && IsHead(w.entries, w.prev) {
        AppendVerifies(hash, w.cfg.version, w.entries, w.prev, EventText(event), w.clock + 1, fields);
      }
    }
  }

  lemma ExtendedAttenuates(entries: seq<Entry>, e: Entry)
    ensures Attenuates(entries + [e]) <==> Attenuates(entries) && MonotonicityFindings(entries + [e], |entries|) == []
  {
    hide MonotonicityFindings;
    var x := entries + [e];
    forall i: nat | i < |entries| ensures MonotonicityFindings(x, i) == MonotonicityFindings(entries, i) { RulesStable(entries, e, i); }
    if Attenuates(x) {
      forall i: nat | i < |entries| ensures MonotonicityFindings(entries, i) == [] { assert MonotonicityFindings(x, i) == []; }
    }
  }

  /** A spawn's grant, read back, is found within its parent's. */
  predicate GrantReadsBack(w: World, fields: Entry) {
    match (TextOf(fields, FNode), TextOf(fields, FParent))
    case (Some(id), Some(parent)) =>
      id in w.chain.nodes && parent in w.chain.nodes && ReadsApart(w.chain.nodes[id].authority, w.chain.nodes[parent].authority)
    case _ => false
  }

  /** Only a spawn can be found wider than its parent, and is unless its grant reads back. */
  lemma AppendGrants(hash: Hasher, w: World, event: EventKind, fields: Entry)
    requires LedgerInv(hash, w) && Fits(w, event, fields)
    ensures !event.EventSpawn? ==> SameGrants(w, Append(hash, w, event, fields).0)
    ensures var (w', committed) := Append(hash, w, event, fields);
            event.EventSpawn? ==> (Attenuates(w'.entries) <==> Attenuates(w.entries) && (committed ==> GrantReadsBack(w, fields)))
  {
    hide ChainOk, EntriesOk, DefinitionsTied, KillsTied, Verifies, IsHead, Append, Carries, Attenuates, MonotonicityFindings, ReadsApart,
      AllowFits, KillFits, EventOf;
    assert fields.Keys !! FRAMING;
    var c := Appended(hash, w, event, fields);
    if c.Some? {
      ExtendedAttenuates(w.entries, c.value);
      if event.EventSpawn? { SpawnRulesHold(w, fields, c.value); } else { NotSpawnFindsNothing(w, event, fields, c.value); }
    }
  }

  lemma NotSpawnFindsNothing(w: World, event: EventKind, fields: Entry, e: Entry)
    requires Fits(w, event, fields) && Carries(w, event, fields, e) && !event.EventSpawn?
    ensures MonotonicityFindings(w.entries + [e], |w.entries|) == []
  {
    hide EventOf, SpawnFits, AllowFits, KillFits;
    assert (w.entries + [e])[|w.entries|] == e;
  }

  /** Every append a guard makes keeps the tie between the chain and its ledger. */
  lemma AppendKeeps(hash: Hasher, w: World, event: EventKind, fields: Entry)
    requires LedgerInv(hash, w) && Fits(w, event, fields)
    ensures LedgerInv(hash, Append(hash, w, event, fields).0)
    ensures !event.EventSpawn? ==> SameGrants(w, Append(hash, w, event, fields).0)
  {
    AppendGrants(hash, w, event, fields);
    assert fields.Keys !! FRAMING && Verifies(hash, w.entries) && IsHead(w.entries, w.prev);
    hide LedgerInv, Fits, Append, Verifies, IsHead, SameGrants, GrantReadsBack;
    var c := Appended(hash, w, event, fields);
    if c.Some? { ExtendKeeps(hash, w, event, fields, c.value); } else { ClockTicks(hash, w, w.clock + 1); }
  }

  lemma ClockTicks(hash: Hasher, w: World, clock: int)
    requires LedgerInv(hash, w)
    ensures LedgerInv(hash, w.(clock := clock))
  {
    hide ChainOk, Verifies, IsHead, DefinitionsTied, KillsTied;
    var w' := w.(clock := clock);
    forall i: nat | i < |w'.entries| ensures EntryOk(w', i) {
      assert EntryOk(w, i);
      SameEntryOk(w, w', i);
    }
  }

  lemma ExtendKeeps(hash: Hasher, w: World, event: EventKind, fields: Entry, e: Entry)
    requires LedgerInv(hash, w) && Fits(w, event, fields) && Carries(w, event, fields, e)
    requires Verifies(hash, w.entries + [e]) && FHash in e && e[FHash].JStr? && IsHead(w.entries + [e], e[FHash].text)
    ensures LedgerInv(hash, w.(entries := w.entries + [e], prev := e[FHash].text, clock := w.clock + 1))
  {
    hide ChainOk, Fits, Carries, DefinitionsTied, KillsTied, Verifies, IsHead, EntryOk;
    var grown := w.(entries := w.entries + [e]);
    var w' := grown.(prev := e[FHash].text, clock := w.clock + 1);
    NewEntryOk(w, event, fields, e);
    DefinitionsStayTied(w, event, fields, e);
    KillsStayTied(w, event, fields, e);
    forall i: nat | i < |w'.entries| ensures EntryOk(w', i) {
      if i < |w.entries| {
        assert EntryOk(w, i);
        OldEntriesOk(w, e, i);
      }
      SameEntryOk(grown, w', i);
    }
  }
}
