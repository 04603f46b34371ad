/** The offline verifier's whole answer, stated of the bundle alone: which failures it reports, and when it reports none. */
module Verdicts {
  import opened Results
  import opened PlainJson
  import opened Authorities
  import opened AuthorityWire
  import opened Audit
  import opened Ledger
  import opened EvidenceRules
  import opened Evidence
  import opened Soundness
  import opened Bounds
  import opened EntryVerdicts
  import opened CallVerdicts

  /** One supported version on the bundle and on every entry. */
  predicate IsOfOneVersion(b: Bundle) {
    (b.v == Some(JNum(1)) || b.v == Some(JNum(2))) && forall j :: 0 <= j < |b.entries| ==> HasBundleVersion(b, b.entries[j])
  }

  ghost predicate EarnsAt(hash: Hasher, b: Bundle, f: Finding, i: nat)
    requires i < |b.entries|
  {
    || EarnsAtFirst(hash, b, f, i) || EarnsByShape(b.v, b.entries[i], f)
    || EarnsOnTree(b.entries, f, i) || EarnsByActing(b.entries, f, i)
    || (IsOfOneVersion(b) && if b.v == Some(JNum(1)) then f == V2FieldOnV1 && CarriesNewer(b.entries[i]) else EarnsByRecord(b.entries, f, i))
  }

  /** A failure the bundle earns: one about it as a whole, or one about the entry it names. */
  ghost predicate Earns(hash: Hasher, b: Bundle, expected: Option<Head>, f: Finding, at: Option<nat>) {
    match at
    case None => EarnsAsWhole(b, expected, f)
    case Some(i) => i < |b.entries| && EarnsAt(hash, b, f, i)
  }

  lemma {:induction false} CollectIff(n: nat, rule: nat -> seq<Finding>, f: Finding, at: Option<nat>)
    ensures Failure(f, at) in Collect(n, rule) <==> at.Some? && at.value < n && f in rule(at.value)
  {
    if n > 0 {
      CollectIff(n - 1, rule, f, at);
      AtIff(rule(n - 1), n - 1, f, at);
    }
  }

  lemma AtIff(findings: seq<Finding>, i: nat, f: Finding, at: Option<nat>)
    ensures Failure(f, at) in At(findings, i) <==> at == Some(i) && f in findings
  {
    var all := At(findings, i);
    if at == Some(i) && f in findings {
      var k :| 0 <= k < |findings| && findings[k] == f;
      assert all[k] == Failure(f, at);
    }
  }

  lemma InAll(x: Failure, a: seq<Failure>, b: seq<Failure>, c: seq<Failure>, d: seq<Failure>, e: seq<Failure>,
              f: seq<Failure>, g: seq<Failure>, h: seq<Failure>, i: seq<Failure>)
    ensures x in a + b + c + d + e + f + g + h + i
            <==> x in a || x in b || x in c || x in d || x in e || x in f || x in g || x in h || x in i
  {
  }

  lemma VersionOkIff(b: Bundle)
    ensures VersionOk(b) <==> IsOfOneVersion(b)
  {
  }

  /** What the pass of execution binding reports. */
  lemma CallsIff(b: Bundle, f: Finding, at: Option<nat>)
    ensures Failure(f, at) in BindingFailures(b) <==>
              at.Some? && at.value < |b.entries| && IsOfOneVersion(b)
              && if b.v == Some(JNum(1)) then f == V2FieldOnV1 && CarriesNewer(b.entries[at.value]) else EarnsByRecord(b.entries, f, at.value)
  {
    hide Collect, VersionOk, IsOfOneVersion, LeakFindings, RecordFindings, BindingFindings, CarriesNewer, EarnsByRecord, IsBinding;
    VersionOkIff(b);
    CollectIff(|b.entries|, Leaks(b), f, at);
    CollectIff(|b.entries|, Records(b), f, at);
    CollectIff(|b.entries|, Bindings(b), f, at);
    if at.Some? && at.value < |b.entries| {
      LeakIff(b.entries[at.value], f);
      RecordIff(b.entries, f, at.value);
      BindingIff(b.entries, f, at.value);
    }
  }

  /** What the passes over single entries report. */
  lemma EntriesIff(b: Bundle, f: Finding, at: Option<nat>)
    ensures var n := |b.entries|; var x := Failure(f, at);
            x in Collect(n, Events(b)) || x in Collect(n, Nodes(b)) || x in Collect(n, Policies(b))
            || x in Collect(n, Definitions(b)) || x in Collect(n, Monotonicity(b)) || x in Collect(n, Containment(b))
            <==> at.Some? && at.value < n
                 && (EarnsByShape(b.v, b.entries[at.value], f) || EarnsOnTree(b.entries, f, at.value) || EarnsByActing(b.entries, f, at.value))
  {
    hide Collect, EventFindings, NodeFindings, PolicyFindings, DefinitionFindings, MonotonicityFindings, ContainmentFindings,
      EarnsOnTree, EarnsByActing;
    CollectIff(|b.entries|, Events(b), f, at);
    CollectIff(|b.entries|, Nodes(b), f, at);
    CollectIff(|b.entries|, Policies(b), f, at);
    CollectIff(|b.entries|, Definitions(b), f, at);
    CollectIff(|b.entries|, Monotonicity(b), f, at);
    CollectIff(|b.entries|, Containment(b), f, at);
    if at.Some? && at.value < |b.entries| {
      EventShapeIff(b.v, b.entries[at.value], f);
      NodeShapeIff(b.v, b.entries[at.value], f);
      PolicyShapeIff(b.v, b.entries[at.value], f);
      DefinitionIff(b.entries, f, at.value);
      MonotonicityIff(b.entries, f, at.value);
      ContainmentIff(b.entries, f, at.value);
    }
  }

  /** What the passes over the whole ledger report. */
  lemma LedgerIff(hash: Hasher, b: Bundle, expected: Option<Head>, f: Finding, at: Option<nat>)
    ensures var x := Failure(f, at);
            x in VersionFailures(b) || x in ChainFailures(hash, b, expected)
            <==> match at case None => EarnsAsWhole(b, expected, f) case Some(i) => i < |b.entries| && EarnsAtFirst(hash, b, f, i)
  {
    hide VersionFailures, ChainFailures, OnlyRoot, HasBundleVersion, HasBundleChain, Links, EndsElsewhere;
    VersionIff(b, f, at);
    ChainIff(hash, b, expected, f, at);
  }

  /** The verifier reports a failure exactly when the bundle earns it. */
  lemma ReportedIff(hash: Hasher, b: Bundle, expected: Option<Head>, f: Finding, at: Option<nat>)
    ensures Failure(f, at) in BundleFailures(hash, b, expected) <==> Earns(hash, b, expected, f, at)
  {
    hide Collect, VersionFailures, ChainFailures, BindingFailures, EarnsAsWhole, EarnsAtFirst, EarnsByShape, EarnsOnTree, EarnsByActing, EarnsByRecord,
      CarriesNewer, IsOfOneVersion, Events, Nodes, Policies, Definitions, Monotonicity, Containment;
    var n := |b.entries|;
    InAll(Failure(f, at), VersionFailures(b), Collect(n, Events(b)), Collect(n, Nodes(b)), ChainFailures(hash, b, expected),
          Collect(n, Definitions(b)), Collect(n, Monotonicity(b)), Collect(n, Containment(b)), BindingFailures(b), Collect(n, Policies(b)));
    LedgerIff(hash, b, expected, f, at);
    EntriesIff(b, f, at);
    CallsIff(b, f, at);
  }

  /** It accepts exactly when nothing is earned. */
  lemma AcceptedIff(hash: Hasher, b: Bundle, expected: Option<Head>)
    ensures Accepts(hash, b, expected) <==> forall f, at :: !Earns(hash, b, expected, f, at)
  {
    hide BundleFailures, Earns;
    forall f, at ensures Failure(f, at) in BundleFailures(hash, b, expected) <==> Earns(hash, b, expected, f, at) { ReportedIff(hash, b, expected, f, at); }
    var all := BundleFailures(hash, b, expected);
    if all != [] { assert Failure(all[0].finding, all[0].entry) in all; }
  }

  // ---- links of an accepted ledger ----------------------------------------

  /** On an accepted ledger a spawn opens a new node under one opened earlier and not revoked since, within its authority. */
  lemma SpawnHangs(hash: Hasher, b: Bundle, expected: Option<Head>, i: nat) returns (node: string, parent: string)
    requires Accepts(hash, b, expected) && i < |b.entries| && Is(b.entries[i], "spawn")
    ensures Hangs(b.entries, i, node, parent) && !RevokedBefore(b.entries, i, parent)
    ensures forall a, p :: Holds(b.entries, node, a) && Holds(b.entries, parent, p) ==> IsNarrower(a, p)
  {
    hide Accepts, Earns, Holds, Hangs, OpensFirst, OpenedBefore, RevokedBefore, IsNarrower, EarnsOnTree, Is, Opens;
    AcceptedIff(hash, b, expected);
    forall f ensures !EarnsOnTree(b.entries, f, i) { NotOnTree(hash, b, expected, f, i); }
    node, parent := CleanSpawn(b.entries, i);
  }

  lemma NotOnTree(hash: Hasher, b: Bundle, expected: Option<Head>, f: Finding, i: nat)
    requires i < |b.entries| && !Earns(hash, b, expected, f, Some(i))
    ensures !EarnsOnTree(b.entries, f, i)
  {
    hide EarnsOnTree, EarnsAtFirst, EarnsByShape, EarnsByActing, EarnsByRecord, IsOfOneVersion, CarriesNewer;
  }

  lemma CleanSpawn(entries: seq<Entry>, i: nat) returns (node: string, parent: string)
    requires i < |entries| && Is(entries[i], "spawn") && forall f :: !EarnsOnTree(entries, f, i)
    ensures Hangs(entries, i, node, parent) && !RevokedBefore(entries, i, parent)
    ensures forall a, p :: Holds(entries, node, a) && Holds(entries, parent, p) ==> IsNarrower(a, p)
  {
    hide Holds, OpenedBefore, RevokedBefore, IsNarrower, ReadAuthority, Hangs;
    assert !EarnsOnTree(entries, UnreadableGranted, i) && !EarnsOnTree(entries, DefinedTwice, i) && !EarnsOnTree(entries, NoParentDefined, i);
    node :| Reads(entries[i], FNode, node);
    assert Opens(entries[i], node) && OpensFirst(entries, i, node);
    parent :| Hangs(entries, i, node, parent);
    assert !EarnsOnTree(entries, ParentRevoked, i) && !EarnsOnTree(entries, WiderThanParent, i);
    assert !Widens(entries, node, parent);
  }

  /** `node` hangs from `ancestor` by links each made while its parent was not revoked. */
  ghost predicate LivesUnder(entries: seq<Entry>, n: nat, node: string, ancestor: string)
    requires n <= |entries|
    decreases n, 0
  {
    exists j: nat :: j < n && OpensFirst(entries, j, node) && (node == ancestor || LivesUnderParent(entries, j, ancestor))
  }

  ghost predicate LivesUnderParent(entries: seq<Entry>, j: nat, ancestor: string)
    requires j < |entries|
    decreases j, 1
  {
    Is(entries[j], "spawn") && exists parent :: Reads(entries[j], FParent, parent) && !RevokedBefore(entries, j, parent) && LivesUnder(entries, j, parent, ancestor)
  }

  /** On a tree with live links, descent by definitions is descent by live links. */
  lemma {:induction false} LivesIff(entries: seq<Entry>, n: nat, node: string, ancestor: string)
    requires n <= |entries| && LinksLive(entries, n, node)
    ensures LivesUnder(entries, n, node, ancestor) <==> Below(entries, n, node, ancestor)
    decreases n
  {
    hide Opens, Defines, OpenedBefore, DefinedBefore, EventOf, RevokedBefore, KilledBefore;
    forall j: nat | j < n ensures OpensFirst(entries, j, node) <==> FirstDefinition(entries, n, node) == Some(j) { OpensFirstIff(entries, n, node, j); }
    var j := FirstDefinition(entries, n, node).value;
    EventIff(entries[j]);
    match ParentAt(entries, j)
    case None =>
    case Some(p) =>
      BeforeIff(entries, j, p);
      LivesIff(entries, j, p, ancestor);
      assert Reads(entries[j], FParent, p);
  }

  lemma OpensFirstIff(entries: seq<Entry>, n: nat, node: string, j: nat)
    requires j < n <= |entries|
    ensures OpensFirst(entries, j, node) <==> FirstDefinition(entries, n, node) == Some(j)
  {
    hide Opens, Defines;
    DefinesIff(entries[j], node);
    BeforeIff(entries, j, node);
    if OpensFirst(entries, j, node) { assert DefinedBefore(entries, n, node); }
  }

  /** The authority a node holds grants the scope in the context. */
  ghost predicate IsPermitted(entries: seq<Entry>, node: string, scope: string, ctx: Context) {
    exists a :: Holds(entries, node, a) && Grants(a, scope, ctx, [])
  }

  /**
   * Offline soundness, over the entries alone: every charged allow of an accepted ledger acts on a node that no earlier
   * kill names, that hangs from the one root by links each made while its parent was not revoked, and whose authority,
   * like that of every node on the way, grants the scope in the context it states.
   */
  lemma AllowsAreSound(hash: Hasher, b: Bundle, expected: Option<Head>, i: nat, root: nat)
      returns (node: string, scope: string, ctx: Context, top: string)
    requires Accepts(hash, b, expected) && FieldsAgreeAlong(b.entries)
    requires i < |b.entries| && IsCharged(b.entries[i]) && root < |b.entries| && Is(b.entries[root], "root")
    ensures Reads(b.entries[i], FNode, node) && Reads(b.entries[i], FScope, scope) && StatesContext(b.entries[i], ctx)
    ensures !RevokedBefore(b.entries, i, node) && Reads(b.entries[root], FNode, top) && LivesUnder(b.entries, i, node, top)
    ensures forall a :: LivesUnder(b.entries, i, node, a) ==> IsPermitted(b.entries, a, scope, ctx)
  {
    hide Accepts, FieldsAgreeAlong, LivesUnder, Below, LinksLive, Grants, Holds, AuthorityOf, EventOf, KilledBefore, RevokedBefore, StatesContext, ContextOf;
    var e := b.entries[i];
    EventIff(b.entries[root]);
    ChargedIff(e);
    OfflineSoundness(hash, b, expected, i, root);
    node, scope, ctx, top := TextOf(e, FNode).value, TextOf(e, FScope).value, ContextOf(e).value, TextOf(b.entries[root], FNode).value;
    ContextIff(e, ctx);
    BeforeIff(b.entries, i, node);
    forall a ensures LivesUnder(b.entries, i, node, a) <==> Below(b.entries, i, node, a) { LivesIff(b.entries, i, node, a); }
    forall a | LivesUnder(b.entries, i, node, a) ensures IsPermitted(b.entries, a, scope, ctx) {
      HoldsIff(b.entries, a, AuthorityOf(b.entries, a).value);
    }
  }

  /** On an accepted ledger no node outlives an ancestor given the same time: a bounded ancestor bounds it. */
  lemma {:induction false} AncestorsBoundTtl(entries: seq<Entry>, n: nat, node: string, ancestor: string, a: Authority, p: Authority)
    requires TreeClean(entries) && n <= |entries| && Below(entries, n, node, ancestor)
    requires Holds(entries, node, a) && Holds(entries, ancestor, p) && p.ttl.Some?
    ensures a.ttl.Some? && a.ttl.value <= p.ttl.value
    decreases n
  {
    hide Holds, IsNarrower, AuthorityOf, TreeClean;
    HoldsIff(entries, node, a);
    HoldsIff(entries, ancestor, p);
    if node != ancestor {
      LinkIsNarrower(entries, n, node);
      var j := FirstDefinition(entries, n, node).value;
      var up := ParentAt(entries, j).value;
      var mid := AuthorityOf(entries, up).value;
      HoldsIff(entries, up, mid);
      AncestorsBoundTtl(entries, j, up, ancestor, mid, p);
      NarrowerBoundsTtl(a, mid);
    }
  }

  lemma AcceptedBoundsTtl(hash: Hasher, b: Bundle, expected: Option<Head>, node: string, ancestor: string, a: Authority, p: Authority)
    requires Accepts(hash, b, expected) && LivesUnder(b.entries, |b.entries|, node, ancestor)
    requires Holds(b.entries, node, a) && Holds(b.entries, ancestor, p) && p.ttl.Some?
    ensures a.ttl.Some? && a.ttl.value <= p.ttl.value
  {
    hide Accepts, TreeClean, LivesUnder, Below, Holds;
    AcceptedIsTreeClean(hash, b, expected);
    HoldsIff(b.entries, node, a);
    PathIsLive(b.entries, |b.entries|, node);
    LivesIff(b.entries, |b.entries|, node, ancestor);
    AncestorsBoundTtl(b.entries, |b.entries|, node, ancestor, a, p);
  }
}
