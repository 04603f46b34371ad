/** What `exportBundle` ships (src/evidence.ts): the ledger of a chain, under the version and chain id it reads off it. */
module Exports {
  import opened Results
  import opened PlainJson
  import opened Audit
  import opened Ledger
  import opened Chains
  import opened GuardSteps
  import opened EvidenceRules
  import opened Evidence
  import opened Honest
  import opened Redaction
  import opened Runs
  import opened Completeness
  import EntryVerdicts

  predicate DeclaresVersion(e: Entry) { EventOf(e) == Some(EventRoot) && FV in e }

  /** `bundleVersion`: what the first root declares, and 1 where there is none. */
  function BundleVersion(entries: seq<Entry>): Json {
    if entries == [] then JNum(1) else if DeclaresVersion(entries[0]) then entries[0][FV] else BundleVersion(entries[1..])
  }

  predicate NamesChain(e: Entry) { TextOf(e, FChainId).Some? && TextOf(e, FChainId).value != "" }

  /** `chainIdOf`: the first chain id that is text and not empty, and "chain" where there is none. */
  function ChainIdOf(entries: seq<Entry>): string {
    if entries == [] then "chain" else if NamesChain(entries[0]) then TextOf(entries[0], FChainId).value else ChainIdOf(entries[1..])
  }

  function Exported(entries: seq<Entry>): Bundle {
    Bundle(Some(BundleVersion(entries)), JStr(ChainIdOf(entries)), entries)
  }

  method ReadVersion(entries: seq<Entry>) returns (v: Json)
    ensures v == BundleVersion(entries)
  {
    for i := 0 to |entries|
      invariant BundleVersion(entries) == BundleVersion(entries[i..])
    {
      if DeclaresVersion(entries[i]) { return entries[i][FV]; }
    }
    return JNum(1);
  }

  method ReadChainId(entries: seq<Entry>) returns (id: string)
    ensures id == ChainIdOf(entries)
  {
    for i := 0 to |entries|
      invariant ChainIdOf(entries) == ChainIdOf(entries[i..])
    {
      if NamesChain(entries[i]) { return TextOf(entries[i], FChainId).value; }
    }
    return "chain";
  }

  /** `exportBundle`; none where redaction meets an entry that cannot be hashed. */
  method ExportBundle(hash: Hasher, mark: Option<Marker>, source: seq<Entry>) returns (b: Option<Bundle>)
    ensures mark.None? ==> b == Some(Exported(source))
    ensures mark.Some? && b.Some? ==>
              && b.value == Exported(b.value.entries) && |b.value.entries| == |source|
              && (forall i :: 0 <= i < |source| ==> IsRedaction(mark.value, source[i], b.value.entries[i]))
              && (IsNumbered(source) ==> Verifies(hash, b.value.entries))
  {
    var entries := source;
    if mark.Some? {
      var redacted := Redact(hash, mark.value, source);
      if redacted.None? { return None; }
      entries := redacted.value;
    }
    var v := ReadVersion(entries);
    var id := ReadChainId(entries);
    return Some(Bundle(Some(v), JStr(id), entries));
  }

  // ---- what is read off the ledger ----------------------------------------

  /** The entry at `i` is the first root that states a version. */
  predicate StatesVersion(entries: seq<Entry>, i: nat) {
    && i < |entries| && EntryVerdicts.Is(entries[i], "root") && FV in entries[i]
    && forall j :: 0 <= j < i ==> !(EntryVerdicts.Is(entries[j], "root") && FV in entries[j])
  }

  /** The entry at `i` is the first to name a chain, as a text that is not empty. */
  predicate StatesChain(entries: seq<Entry>, i: nat, id: string) {
    && i < |entries| && EntryVerdicts.Reads(entries[i], FChainId, id) && id != ""
    && forall j :: 0 <= j < i ==> !(FChainId in entries[j] && entries[j][FChainId].JStr? && entries[j][FChainId] != JStr(""))
  }

  /** The bundle ships the entries under the version of the first root that states one, and 1 where none does. */
  lemma {:induction false} VersionReadIff(entries: seq<Entry>)
    ensures Exported(entries).entries == entries
    ensures forall i: nat :: StatesVersion(entries, i) ==> Exported(entries).v == Some(entries[i][FV])
    ensures (forall i: nat :: !StatesVersion(entries, i)) ==> Exported(entries).v == Some(JNum(1))
  {
    hide EventOf;
    if entries != [] {
      EntryVerdicts.EventIff(entries[0]);
      VersionReadIff(entries[1..]);
      forall i: nat | StatesVersion(entries, i) ensures Exported(entries).v == Some(entries[i][FV]) {
        if i > 0 { assert StatesVersion(entries[1..], i - 1); }
      }
      if forall i: nat :: !StatesVersion(entries, i) {
        assert !StatesVersion(entries, 0);
        forall i: nat ensures !StatesVersion(entries[1..], i) { assert !StatesVersion(entries, i + 1); }
      }
    }
  }

  /** And under the first chain id that is text and not empty, and "chain" where there is none. */
  lemma {:induction false} ChainReadIff(entries: seq<Entry>)
    ensures forall i: nat, id :: StatesChain(entries, i, id) ==> Exported(entries).chainId == JStr(id)
    ensures (forall i: nat, id :: !StatesChain(entries, i, id)) ==> Exported(entries).chainId == JStr("chain")
  {
    if entries != [] {
      ChainReadIff(entries[1..]);
      forall i: nat, id | StatesChain(entries, i, id) ensures Exported(entries).chainId == JStr(id) {
        if i > 0 { assert StatesChain(entries[1..], i - 1, id); }
      }
      if forall i: nat, id :: !StatesChain(entries, i, id) {
        if NamesChain(entries[0]) { assert StatesChain(entries, 0, TextOf(entries[0], FChainId).value); }
        forall i: nat, id ensures !StatesChain(entries[1..], i, id) { assert !StatesChain(entries, i + 1, id); }
      }
    }
  }

  // ---- what ships verifies ------------------------------------------------

  lemma {:induction false} NoChainNamed(entries: seq<Entry>)
    requires forall i :: 0 <= i < |entries| ==> Get(entries[i], FChainId) == Some(JStr(""))
    ensures ChainIdOf(entries) == "chain"
  {
    if entries != [] { NoChainNamed(entries[1..]); }
  }

  /** The bundle a run exports verifies exactly when its chain has an id to read back and the run never regrants. */
  lemma ExportVerifiesIff(hash: Hasher, s: Setup, ops: seq<Op>, w: World)
    requires RunTo(hash, s, ops, w)
    ensures Accepts(hash, Exported(w.entries), None) <==> w.chain.chainId != "" && NeverRegrants(hash, IssueStep(hash, s).value, ops)
  {
    EveryRunVerifies(hash, s, ops, w);
    RunReaches(hash, s, ops, w);
    hide RunTo, Reachable, RunInv, Accepts, NeverRegrants, IssueStep, Exported, BundleOf;
    ReachableKeeps(hash, s, w);
    ExportAccepts(hash, w);
  }

  lemma ExportAccepts(hash: Hasher, w: World)
    requires RunInv(hash, w)
    ensures Accepts(hash, Exported(w.entries), None) <==> w.chain.chainId != "" && Accepts(hash, BundleOf(w), None)
  {
    hide RunInv, Accepts;
    RunShape(hash, w);
    if w.chain.chainId != "" {
      assert Exported(w.entries) == BundleOf(w);
    } else {
      NoChainNamed(w.entries);
      OtherChainFails(hash, Exported(w.entries));
    }
  }

  lemma RunShape(hash: Hasher, w: World)
    requires RunInv(hash, w)
    ensures w.entries != [] && forall i :: 0 <= i < |w.entries| ==> Get(w.entries[i], FChainId) == Some(JStr(w.chain.chainId))
    ensures BundleVersion(w.entries) == JNum(w.cfg.version)
  {
    hide ChainOk, DefinitionsTied, KillsTied, DefinitionFindings, MonotonicityFindings, ContainmentFindings, LeakFindings;
    forall i: nat | i < |w.entries| ensures Get(w.entries[i], FChainId) == Some(JStr(w.chain.chainId)) { assert EntryOk(w, i); }
    assert EntryOk(w, 0);
  }

  lemma OtherChainFails(hash: Hasher, b: Bundle)
    requires b.entries != [] && !OnChain(b, b.entries[0])
    ensures !Accepts(hash, b, None)
  {
    hide Accepts, RulesClean, BindingClean, OnChain;
    AcceptsIff(hash, b, None);
  }

  /** And so does the redacted one. */
  lemma RedactedExportVerifiesIff(hash: Hasher, s: Setup, ops: seq<Op>, w: World, mark: Marker, redacted: seq<Entry>)
    requires RunTo(hash, s, ops, w) && Verifies(hash, redacted) && |redacted| == |w.entries|
    requires forall i :: 0 <= i < |redacted| ==> IsRedaction(mark, w.entries[i], redacted[i])
    ensures Accepts(hash, Exported(redacted), None) <==> w.chain.chainId != "" && NeverRegrants(hash, IssueStep(hash, s).value, ops)
  {
    ExportVerifiesIff(hash, s, ops, w);
    RunReaches(hash, s, ops, w);
    hide RunTo, Reachable, IsRedaction, Verifies, BundleFailures, NeverRegrants, IssueStep;
    RunVerified(hash, s, w);
    NumberedWhenVerified(hash, mark, w.entries, redacted);
    SameExport(w.entries, redacted);
    RedactionKeepsVerdict(hash, mark, Exported(w.entries), redacted);
  }

  lemma RunVerified(hash: Hasher, s: Setup, w: World)
    requires Reachable(hash, s, w)
    ensures Verifies(hash, w.entries)
  {
    hide Reachable;
    ReachableKeeps(hash, s, w);
  }

  lemma SameHeader(e: Entry, f: Entry)
    requires Alike(e, f)
    ensures DeclaresVersion(e) == DeclaresVersion(f) && (DeclaresVersion(e) ==> e[FV] == f[FV])
    ensures NamesChain(e) == NamesChain(f) && TextOf(e, FChainId) == TextOf(f, FChainId)
  {
    hide EventNamed;
  }

  lemma {:induction false} SameExport(x: seq<Entry>, y: seq<Entry>)
    requires AllAlike(x, y)
    ensures BundleVersion(x) == BundleVersion(y) && ChainIdOf(x) == ChainIdOf(y)
  {
    hide Alike, DeclaresVersion, NamesChain;
    if x != [] {
      SameHeader(x[0], y[0]);
      SameExport(x[1..], y[1..]);
    }
  }
}
