/**
 * Redaction on export (`exportBundle` with `redactTask`, src/evidence.ts): free text is replaced, the chain is
 * hashed again from the genesis, and no verdict changes, as no rule of the verifier reads what redaction rewrites.
 * Each rule is shown to answer alike for entries that agree outside the task and the two hashes.
 */
module Redaction {
  import opened Results
  import opened PlainJson
  import opened Authorities
  import opened AuthorityWire
  import opened Audit
  import opened Ledger
  import opened EvidenceRules
  import opened Evidence

  /** The length-and-hash marker a text is replaced by. */
  type Marker = Json -> string

  /** `redactTask`: a task that says nothing is left as it is. */
  function RedactTask(mark: Marker, task: Json): Json {
    if task in {JNull, JStr(""), JNum(0), JBool(false)} then task else JStr(mark(task))
  }

  function WithTask(mark: Marker, e: Entry): Entry {
    if FTask in e then e[FTask := RedactTask(mark, e[FTask])] else e
  }

  /** The entry as it is hashed again. */
  function Relinked(mark: Marker, prev: string, e: Entry): Entry {
    WithTask(mark, e)[FPrevHash := JStr(prev)]
  }

  /** The ledger that ships; none where an entry cannot be hashed and the export throws. */
  method Redact(hash: Hasher, mark: Marker, source: seq<Entry>) returns (r: Option<seq<Entry>>)
    ensures r.Some? ==> |r.value| == |source| && forall i :: 0 <= i < |source| ==> IsRedaction(mark, source[i], r.value[i])
    ensures r.Some? && IsNumbered(source) ==> Verifies(hash, r.value)
    ensures r.None? ==> exists i, prev :: 0 <= i < |source| && hash(prev, WithoutHash(Relinked(mark, prev, source[i]))).None?
  {
    hide WithTask, Zeros;
    var entries: seq<Entry> := [];
    var prev := GENESIS;
    for i := 0 to |source|
      invariant |entries| == i && IsHead(entries, prev)
      invariant forall j :: 0 <= j < i ==> IsRedaction(mark, source[j], entries[j])
      invariant IsNumbered(source) ==> Verifies(hash, entries)
    {
      var e := Relinked(mark, prev, source[i]);
      var digest := hash(prev, WithoutHash(e));
      if digest.None? { return None; }
      Relinks(hash, mark, prev, source[i], digest.value);
      e := e[FHash := JStr(digest.value)];
      if IsNumbered(source) { Extends(hash, entries, prev, e); }
      entries := entries + [e];
      prev := digest.value;
    }
    return Some(entries);
  }

  /** Every entry carries its position. */
  predicate IsNumbered(entries: seq<Entry>) {
    forall i :: 0 <= i < |entries| ==> Get(entries[i], FSeq) == Some(JNum(i))
  }

  /** Everything but the task and the two hashes is as it was, and a task that says something is its marker. */
  ghost predicate IsRedaction(mark: Marker, e: Entry, f: Entry) {
    && f.Keys == e.Keys + {FPrevHash, FHash}
    && (FTask in e && e[FTask] != JNull && e[FTask] != JStr("") && e[FTask] != JNum(0) && e[FTask] != JBool(false) ==> f[FTask] == JStr(mark(e[FTask])))
    && (FTask in e && e[FTask] in {JNull, JStr(""), JNum(0), JBool(false)} ==> f[FTask] == e[FTask])
    && forall k :: k in e && k !in {FTask, FPrevHash, FHash} ==> f[k] == e[k]
  }

  lemma Relinks(hash: Hasher, mark: Marker, prev: string, e: Entry, digest: string)
    ensures var f := Relinked(mark, prev, e)[FHash := JStr(digest)];
            IsRedaction(mark, e, f) && WithoutHash(f) == WithoutHash(Relinked(mark, prev, e))
            && f[FPrevHash] == JStr(prev) && Get(f, FSeq) == Get(e, FSeq)
  {
  }

  lemma Extends(hash: Hasher, entries: seq<Entry>, prev: string, e: Entry)
    requires Verifies(hash, entries) && IsHead(entries, prev)
    requires Get(e, FSeq) == Some(JNum(|entries|)) && Get(e, FPrevHash) == Some(JStr(prev))
    requires hash(prev, WithoutHash(e)).Some? && Get(e, FHash) == Some(JStr(hash(prev, WithoutHash(e)).value))
    ensures Verifies(hash, entries + [e])
  {
    hide WithoutHash;
    var x := entries + [e];
    forall i | 0 <= i < |x| ensures BreakAt(hash, x, i).None? {
      if i < |entries| {
        PrefixBreaks(hash, x, |entries|, i);
        assert x[..|entries|] == entries;
      }
    }
  }

  // ---- no rule reads what redaction changes -------------------------------

  /** The same members, equal outside the task and the two hashes. */
  ghost predicate Alike(e: Entry, f: Entry) {
    e.Keys == f.Keys && forall k :: k in e && k !in {FTask, FPrevHash, FHash} ==> f[k] == e[k]
  }

  ghost predicate AllAlike(x: seq<Entry>, y: seq<Entry>) {
    |x| == |y| && forall i :: 0 <= i < |x| ==> Alike(x[i], y[i])
  }

  lemma ReadsAlike(e: Entry, f: Entry)
    requires Alike(e, f)
    ensures EventOf(e) == EventOf(f)
    ensures TextOf(e, FNode) == TextOf(f, FNode) && TextOf(e, FParent) == TextOf(f, FParent) && TextOf(e, FScope) == TextOf(f, FScope)
    ensures OrNull(e, FNode) == OrNull(f, FNode) && OrNull(e, FCallId) == OrNull(f, FCallId) && OrNull(e, FSeq) == OrNull(f, FSeq)
    ensures OrNull(e, FV) == OrNull(f, FV) && OrNull(e, FChainId) == OrNull(f, FChainId)
    ensures OrNull(e, FAuthorizedParamsHash) == OrNull(f, FAuthorizedParamsHash) && OrNull(e, FInvokedParamsHash) == OrNull(f, FInvokedParamsHash)
    ensures (forall at: nat :: AuthorityIn(e, at) == AuthorityIn(f, at)) && ContextOf(e) == ContextOf(f) && Get(e, FPolicy) == Get(f, FPolicy)
    ensures forall node :: Kills(e, node) == Kills(f, node)
  {
    hide ReadAuthority, EventNamed;
  }

  lemma ShapesAlike(e: Entry, f: Entry)
    requires Alike(e, f)
    ensures ValidAllow(e) == ValidAllow(f) && ValidDeny(e) == ValidDeny(f) && ValidOutcome(e) == ValidOutcome(f)
    ensures ValidRoot(e) == ValidRoot(f) && ValidKill(e) == ValidKill(f)
  {
    hide IsHexText, ValidReceipt, NonEmptyText;
  }

  /** What the rules ask of one entry. */
  lemma AnswersAlike(e: Entry, f: Entry)
    requires Alike(e, f)
    ensures IsDefinition(e) == IsDefinition(f) && IsGated(e) == IsGated(f) && IsJudged(e) == IsJudged(f)
    ensures forall node :: Defines(e, node) == Defines(f, node) && Kills(e, node) == Kills(f, node)
    ensures forall cid :: NamesCall(e, cid) == NamesCall(f, cid) && IsAllowOf(e, cid) == IsAllowOf(f, cid) && IsOutcomeOf(e, cid) == IsOutcomeOf(f, cid)
  {
    ReadsAlike(e, f);
    ShapesAlike(e, f);
    hide EventOf, TextOf, OrNull, ValidAllow, ValidOutcome, Kills;
  }

  /** What the rules ask of the entries before. */
  lemma HistoryAlike(x: seq<Entry>, y: seq<Entry>, i: nat)
    requires AllAlike(x, y) && i <= |x|
    ensures forall node :: DefinedBefore(x, i, node) == DefinedBefore(y, i, node)
    ensures forall node :: KilledBefore(x, i, node) == KilledBefore(y, i, node)
  {
    hide Defines, Kills;
    forall j: nat | j < |x|
      ensures forall node {:trigger Defines(x[j], node)} {:trigger Defines(y[j], node)} :: Defines(x[j], node) == Defines(y[j], node)
      ensures forall node {:trigger Kills(x[j], node)} {:trigger Kills(y[j], node)} :: Kills(x[j], node) == Kills(y[j], node)
    {
      AnswersAlike(x[j], y[j]);
    }
  }

  lemma CallsAlike(x: seq<Entry>, y: seq<Entry>, i: nat, cid: Json)
    requires AllAlike(x, y) && i <= |x|
    ensures CallSeenBefore(x, i, cid) == CallSeenBefore(y, i, cid)
    ensures OutcomeBefore(x, i, cid) == OutcomeBefore(y, i, cid)
  {
    hide IsJudged, NamesCall, IsOutcomeOf;
    forall j: nat | j < |x|
      ensures IsJudged(x[j]) == IsJudged(y[j]) && NamesCall(x[j], cid) == NamesCall(y[j], cid)
      ensures IsOutcomeOf(x[j], cid) == IsOutcomeOf(y[j], cid)
    {
      AnswersAlike(x[j], y[j]);
    }
  }

  lemma AuthorityAlike(x: seq<Entry>, y: seq<Entry>, node: string)
    requires AllAlike(x, y)
    ensures AuthorityOf(x, node) == AuthorityOf(y, node)
  {
    hide Defines, AuthorityIn, First;
    var n := |x|;
    forall i: nat | i < n ensures DefinesAt(x, node)(i) == DefinesAt(y, node)(i) { AnswersAlike(x[i], y[i]); }
    FirstAgrees(n, DefinesAt(x, node), DefinesAt(y, node));
    if FirstDefinition(x, n, node).Some? {
      var j := FirstDefinition(x, n, node).value;
      ReadsAlike(x[j], y[j]);
    }
  }

  lemma LastAllowAlike(x: seq<Entry>, y: seq<Entry>, cid: Json)
    requires AllAlike(x, y)
    ensures LastAllow(x, |x|, cid) == LastAllow(y, |y|, cid)
  {
    hide IsAllowOf, Last;
    forall i: nat | i < |x| ensures AllowsAt(x, cid)(i) == AllowsAt(y, cid)(i) { AnswersAlike(x[i], y[i]); }
    LastAgrees(|x|, AllowsAt(x, cid), AllowsAt(y, cid));
  }

  // ---- rule by rule -------------------------------------------------------

  lemma EntryRulesAlike(version: Option<Json>, e: Entry, f: Entry)
    requires Alike(e, f)
    ensures EventFindings(version, e) == EventFindings(version, f) && NodeFindings(e) == NodeFindings(f)
    ensures PolicyFindings(version, e) == PolicyFindings(version, f) && LeakFindings(e) == LeakFindings(f)
  {
    ReadsAlike(e, f);
    hide EventOf, OrNull, V2_ONLY;
  }

  lemma DefinitionsAlike(x: seq<Entry>, y: seq<Entry>, i: nat)
    requires AllAlike(x, y)
    ensures DefinitionFindings(x, i) == DefinitionFindings(y, i)
  {
    hide AuthorityIn, DefinedBefore, EventOf, TextOf;
    if i < |x| {
      ReadsAlike(x[i], y[i]);
      HistoryAlike(x, y, i);
    }
  }

  lemma MonotonicityAlike(x: seq<Entry>, y: seq<Entry>, i: nat)
    requires AllAlike(x, y)
    ensures MonotonicityFindings(x, i) == MonotonicityFindings(y, i)
  {
    hide AuthorityOf, DefinedBefore, KilledBefore, EventOf, TextOf, IsNarrower;
    if i < |x| {
      ReadsAlike(x[i], y[i]);
      HistoryAlike(x, y, i);
      if TextOf(x[i], FNode).Some? { AuthorityAlike(x, y, TextOf(x[i], FNode).value); }
      if TextOf(x[i], FParent).Some? { AuthorityAlike(x, y, TextOf(x[i], FParent).value); }
    }
  }

  lemma ContainmentAlike(x: seq<Entry>, y: seq<Entry>, i: nat)
    requires AllAlike(x, y)
    ensures ContainmentFindings(x, i) == ContainmentFindings(y, i)
  {
    hide AuthorityOf, DefinedBefore, KilledBefore, EventOf, TextOf, Grants, ContextOf, IsGated;
    if i < |x| {
      ReadsAlike(x[i], y[i]);
      AnswersAlike(x[i], y[i]);
      HistoryAlike(x, y, i);
      if TextOf(x[i], FNode).Some? { AuthorityAlike(x, y, TextOf(x[i], FNode).value); }
    }
  }

  lemma RecordsFollow(x: seq<Entry>, y: seq<Entry>, i: nat)
    requires i < |x| == |y|
    requires var e, f := x[i], y[i];
             var cid := OrNull(e, FCallId);
             && EventOf(e) == EventOf(f) && cid == OrNull(f, FCallId)
             && ValidAllow(e) == ValidAllow(f) && ValidDeny(e) == ValidDeny(f) && ValidOutcome(e) == ValidOutcome(f)
             && ValidRoot(e) == ValidRoot(f) && ValidKill(e) == ValidKill(f)
             && CallSeenBefore(x, i, cid) == CallSeenBefore(y, i, cid) && OutcomeBefore(x, i, cid) == OutcomeBefore(y, i, cid)
    ensures RecordFindings(x, i) == RecordFindings(y, i)
  {
    hide CallSeenBefore, OutcomeBefore, EventOf, OrNull, ValidAllow, ValidDeny, ValidOutcome, ValidRoot, ValidKill, Only;
  }

  lemma RecordsAlike(x: seq<Entry>, y: seq<Entry>, i: nat)
    requires AllAlike(x, y)
    ensures RecordFindings(x, i) == RecordFindings(y, i)
  {
    hide CallSeenBefore, OutcomeBefore, EventOf, OrNull, TextOf, ValidAllow, ValidDeny, ValidOutcome, ValidRoot, ValidKill;
    if i < |x| {
      ReadsAlike(x[i], y[i]);
      ShapesAlike(x[i], y[i]);
      CallsAlike(x, y, i, OrNull(x[i], FCallId));
      RecordsFollow(x, y, i);
    }
  }

  lemma BindingsAlike(x: seq<Entry>, y: seq<Entry>, i: nat)
    requires AllAlike(x, y)
    ensures BindingFindings(x, i) == BindingFindings(y, i)
  {
    hide IsOutcomeOf, IsAllowOf, OutcomeBefore, OrNull, LastAllow, EventOf, TextOf, Only, Kills;
    if i < |x| {
      var cid := OrNull(x[i], FCallId);
      ReadsAlike(x[i], y[i]);
      AnswersAlike(x[i], y[i]);
      CallsAlike(x, y, i, cid);
      LastAllowAlike(x, y, cid);
      if LastAllow(x, |x|, cid).Some? { ReadsAlike(x[LastAllow(x, |x|, cid).value], y[LastAllow(x, |x|, cid).value]); }
    }
  }

  // ---- the verdict --------------------------------------------------------

  lemma {:induction false} CollectAgrees(n: nat, p: nat -> seq<Finding>, q: nat -> seq<Finding>)
    requires forall i: nat :: i < n ==> p(i) == q(i)
    ensures Collect(n, p) == Collect(n, q)
  {
    if n > 0 { CollectAgrees(n - 1, p, q); }
  }

  lemma {:induction false} IndicesAgree(n: nat, p: nat -> bool, q: nat -> bool)
    requires forall i: nat :: i < n ==> p(i) == q(i)
    ensures Indices(n, p) == Indices(n, q)
  {
    if n > 0 { IndicesAgree(n - 1, p, q); }
  }

  lemma {:induction false} FirstNotAgrees(x: seq<Entry>, y: seq<Entry>, n: nat, p: Entry -> bool, q: Entry -> bool)
    requires n <= |x| == |y| && forall i :: 0 <= i < n ==> p(x[i]) == q(y[i])
    ensures FirstNot(x, n, p) == FirstNot(y, n, q)
  {
    if n > 0 { FirstNotAgrees(x, y, n - 1, p, q); }
  }

  lemma VersionAlike(b: Bundle, c: Bundle)
    requires AllAlike(b.entries, c.entries) && b.v == c.v
    ensures VersionFailures(b) == VersionFailures(c) && VersionOk(b) == VersionOk(c)
  {
    hide EventOf, OrNull, Indices, FirstNot;
    var x, y, n := b.entries, c.entries, |b.entries|;
    forall i: nat | i < n ensures IsRoot(x[i]) == IsRoot(y[i]) && HasVersion(b, x[i]) == HasVersion(c, y[i]) { ReadsAlike(x[i], y[i]); }
    IndicesAgree(n, (i: nat) => i < |x| && IsRoot(x[i]), (i: nat) => i < |y| && IsRoot(y[i]));
    FirstNotAgrees(x, y, n, e => HasVersion(b, e), e => HasVersion(c, e));
    assert RootsIn(x, n) == RootsIn(y, n);
    if |RootsIn(x, n)| == 1 {
      assert RootsIn(x, n)[0] in RootsIn(x, n);
      assert MisversionedRoot(b) == MisversionedRoot(c);
    }
  }

  lemma ChainAlike(hash: Hasher, b: Bundle, c: Bundle)
    requires AllAlike(b.entries, c.entries) && b.chainId == c.chainId
    requires Verifies(hash, b.entries) && Verifies(hash, c.entries)
    ensures ChainFailures(hash, b, None) == ChainFailures(hash, c, None)
  {
    hide OrNull, BreakAt, FirstNot;
    var x, y := b.entries, c.entries;
    forall i: nat | i < |x| ensures OnChain(b, x[i]) == OnChain(c, y[i]) { ReadsAlike(x[i], y[i]); }
    FirstNotAgrees(x, y, |x|, e => OnChain(b, e), e => OnChain(c, e));
    assert FirstBreak(hash, x, |x|) == FirstBreak(hash, y, |y|) == None;
  }

  lemma RulesAlike(b: Bundle, c: Bundle)
    requires AllAlike(b.entries, c.entries) && b.v == c.v
    ensures var n := |b.entries|;
            && Collect(n, Events(b)) == Collect(n, Events(c)) && Collect(n, Nodes(b)) == Collect(n, Nodes(c))
            && Collect(n, Policies(b)) == Collect(n, Policies(c)) && Collect(n, Leaks(b)) == Collect(n, Leaks(c))
            && Collect(n, Definitions(b)) == Collect(n, Definitions(c)) && Collect(n, Monotonicity(b)) == Collect(n, Monotonicity(c))
            && Collect(n, Containment(b)) == Collect(n, Containment(c))
            && Collect(n, Records(b)) == Collect(n, Records(c)) && Collect(n, Bindings(b)) == Collect(n, Bindings(c))
  {
    hide EventFindings, NodeFindings, PolicyFindings, LeakFindings, Collect;
    hide DefinitionFindings, MonotonicityFindings, ContainmentFindings, RecordFindings, BindingFindings;
    var x, y, n := b.entries, c.entries, |b.entries|;
    forall i: nat | i < n
      ensures Events(b)(i) == Events(c)(i) && Nodes(b)(i) == Nodes(c)(i) && Policies(b)(i) == Policies(c)(i) && Leaks(b)(i) == Leaks(c)(i)
      ensures Definitions(b)(i) == Definitions(c)(i) && Monotonicity(b)(i) == Monotonicity(c)(i) && Containment(b)(i) == Containment(c)(i)
      ensures Records(b)(i) == Records(c)(i) && Bindings(b)(i) == Bindings(c)(i)
    {
      EntryRulesAlike(b.v, x[i], y[i]);
      DefinitionsAlike(x, y, i);
      MonotonicityAlike(x, y, i);
      ContainmentAlike(x, y, i);
      RecordsAlike(x, y, i);
      BindingsAlike(x, y, i);
    }
    CollectAgrees(n, Events(b), Events(c));
    CollectAgrees(n, Nodes(b), Nodes(c));
    CollectAgrees(n, Policies(b), Policies(c));
    CollectAgrees(n, Leaks(b), Leaks(c));
    CollectAgrees(n, Definitions(b), Definitions(c));
    CollectAgrees(n, Monotonicity(b), Monotonicity(c));
    CollectAgrees(n, Containment(b), Containment(c));
    CollectAgrees(n, Records(b), Records(c));
    CollectAgrees(n, Bindings(b), Bindings(c));
  }

  lemma NumberedWhenVerified(hash: Hasher, mark: Marker, source: seq<Entry>, redacted: seq<Entry>)
    requires Verifies(hash, source) && |redacted| == |source|
    requires forall i :: 0 <= i < |source| ==> IsRedaction(mark, source[i], redacted[i])
    ensures IsNumbered(source) && AllAlike(source, redacted)
  {
    forall i: nat | i < |source| ensures Get(source[i], FSeq) == Some(JNum(i)) && Alike(source[i], redacted[i]) {
      assert BreakAt(hash, source, i).None?;
      SameMembers(mark, source[i], redacted[i]);
    }
  }

  lemma SameMembers(mark: Marker, e: Entry, f: Entry)
    requires IsRedaction(mark, e, f) && FPrevHash in e && FHash in e
    ensures Alike(e, f)
  {
    assert e.Keys + {FPrevHash, FHash} == e.Keys;
  }

  /** Redaction is not tampering: what ships verifies, and the verifier reports of it what it reported of the source. */
  lemma RedactionKeepsVerdict(hash: Hasher, mark: Marker, b: Bundle, redacted: seq<Entry>)
    requires Verifies(hash, b.entries) && Verifies(hash, redacted) && |redacted| == |b.entries|
    requires forall i :: 0 <= i < |redacted| ==> IsRedaction(mark, b.entries[i], redacted[i])
    ensures BundleFailures(hash, b.(entries := redacted), None) == BundleFailures(hash, b, None)
  {
    var c, n := b.(entries := redacted), |redacted|;
    NumberedWhenVerified(hash, mark, b.entries, redacted);
    VersionAlike(b, c);
    ChainAlike(hash, b, c);
    RulesAlike(b, c);
    hide VersionFailures, VersionOk, ChainFailures, Collect, Events, Nodes, Definitions, Monotonicity, Containment, Policies, Records, Bindings, Leaks;
    assert BindingFailures(c) == BindingFailures(b);
  }
}
