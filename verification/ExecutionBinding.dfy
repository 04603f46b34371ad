/** `executionBinding` of src/evidence.ts: which authorized call reported how it ended, and on which node. */
module ExecutionBinding {
  import opened Results
  import opened PlainJson
  import opened Audit
  import opened Ledger
  import opened EvidenceRules
  import opened Evidence
  import opened EvidencePasses

  /** The tables the first loop fills. */
  datatype Tables = Tables(
    seen: set<Json>, allows: map<Json, nat>, invalid: set<Json>,
    outcomes: map<Json, nat>, outcomeOrder: seq<nat>,
    nodes: set<string>, finalized: set<string>, revoked: set<string>)

  function Lookup<V>(m: map<Json, V>, k: Json): Option<V> {
    if k in m then Some(m[k]) else None
  }

  /** A valid outcome, and the first of its call. */
  predicate IsFirstOutcome(entries: seq<Entry>, i: nat)
    requires i < |entries|
  {
    var cid := OrNull(entries[i], FCallId);
    IsOutcomeOf(entries[i], cid) && !OutcomeBefore(entries, i, cid)
  }

  function FirstOutcomes(entries: seq<Entry>, n: nat): (r: seq<nat>)
    requires n <= |entries|
    ensures forall i: nat :: i in r <==> i < n && IsFirstOutcome(entries, i)
  {
    Indices(n, (i: nat) => i < |entries| && IsFirstOutcome(entries, i))
  }

  ghost predicate Tabulates(entries: seq<Entry>, i: nat, t: Tables)
    requires i <= |entries|
  {
    && (forall cid :: cid in t.seen <==> CallSeenBefore(entries, i, cid))
    && (forall cid :: Lookup(t.allows, cid) == LastAllow(entries, i, cid))
    && (forall cid :: cid in t.invalid <==> InvalidAllowBefore(entries, i, cid))
    && (forall cid :: Lookup(t.outcomes, cid) == FirstOutcome(entries, i, cid))
    && t.outcomeOrder == FirstOutcomes(entries, i)
    && TracksDefined(entries, i, t.nodes)
    && (forall n :: n in t.finalized <==> DoneBefore(entries, i, n))
    && TracksKilled(entries, i, t.revoked)
  }

  const NO_TABLES := Tables({}, map[], {}, map[], [], {}, {}, {})

  lemma NothingTabulated(entries: seq<Entry>)
    ensures Tabulates(entries, 0, NO_TABLES)
  {
  }

  /** What the entry at `i` does to the tables of calls. */
  predicate CallsNext(e: Entry, i: nat, t: Tables, t': Tables) {
    var cid := OrNull(e, FCallId);
    && t'.seen == t.seen + (if IsJudged(e) && IsKey(cid) then {cid} else {})
    && t'.allows == (if IsAllowOf(e, cid) then t.allows[cid := i] else t.allows)
    && t'.invalid == t.invalid + (if IsInvalidAllowOf(e, cid) then {cid} else {})
    && t'.outcomes == (if IsOutcomeOf(e, cid) && cid !in t.outcomes then t.outcomes[cid := i] else t.outcomes)
    && t'.outcomeOrder == t.outcomeOrder + (if IsOutcomeOf(e, cid) && cid !in t.outcomes then [i] else [])
  }

  function CallFindings(e: Entry, t: Tables): seq<Finding> {
    var cid := OrNull(e, FCallId);
    match EventOf(e)
    case Some(EventAllow) => Only(IsKey(cid) && cid in t.seen, DuplicateCallId) + Only(!ValidAllow(e), InvalidAllow)
    case Some(EventDeny) => Only(IsKey(cid) && cid in t.seen, DuplicateCallId) + Only(!ValidDeny(e), InvalidDeny)
    case Some(EventOutcome) => if !ValidOutcome(e) then [InvalidOutcome] else Only(cid in t.outcomes, DuplicateOutcome)
    case _ => []
  }

  predicate LifecycleNext(e: Entry, t: Tables, t': Tables) {
    t'.nodes == if IsDefinition(e) && TextOf(e, FNode).Some? then t.nodes + {TextOf(e, FNode).value} else t.nodes
  }

  function LifecycleFindings(e: Entry): seq<Finding> {
    match EventOf(e)
    case Some(EventRoot) => Only(!ValidRoot(e), InvalidRoot)
    case Some(EventKill) => Only(!ValidKill(e), InvalidKill)
    case _ => []
  }

  lemma SeenNext(entries: seq<Entry>, i: nat, t: Tables, t': Tables)
    requires i < |entries| && Tabulates(entries, i, t) && CallsNext(entries[i], i, t, t')
    ensures forall cid :: cid in t'.seen <==> CallSeenBefore(entries, i + 1, cid)
    ensures forall cid :: cid in t'.invalid <==> InvalidAllowBefore(entries, i + 1, cid)
  {
    forall cid
      ensures CallSeenBefore(entries, i + 1, cid) <==> CallSeenBefore(entries, i, cid) || (IsJudged(entries[i]) && NamesCall(entries[i], cid))
      ensures InvalidAllowBefore(entries, i + 1, cid) <==> InvalidAllowBefore(entries, i, cid) || IsInvalidAllowOf(entries[i], cid)
    {
    }
  }

  lemma BoundNext(entries: seq<Entry>, i: nat, t: Tables, t': Tables)
    requires i < |entries| && Tabulates(entries, i, t) && CallsNext(entries[i], i, t, t')
    ensures forall cid :: Lookup(t'.allows, cid) == LastAllow(entries, i + 1, cid)
    ensures forall cid :: Lookup(t'.outcomes, cid) == FirstOutcome(entries, i + 1, cid)
    ensures t'.outcomeOrder == FirstOutcomes(entries, i + 1)
  {
    hide EventOf, ValidAllow, ValidOutcome, CallSeenBefore, InvalidAllowBefore, DoneBefore, TracksDefined, TracksKilled;
    var own := OrNull(entries[i], FCallId);
    assert Lookup(t.outcomes, own) == FirstOutcome(entries, i, own);
    forall cid
      ensures Lookup(t'.allows, cid) == LastAllow(entries, i + 1, cid)
      ensures Lookup(t'.outcomes, cid) == FirstOutcome(entries, i + 1, cid)
    {
      assert Lookup(t.allows, cid) == LastAllow(entries, i, cid) && Lookup(t.outcomes, cid) == FirstOutcome(entries, i, cid);
    }
  }

  lemma DoneNext(entries: seq<Entry>, i: nat, finalized: set<string>, finalized': set<string>)
    requires i < |entries|
    requires forall n :: n in finalized <==> DoneBefore(entries, i, n)
    requires forall n :: n in finalized' <==> n in finalized || Finishes(entries[i], n)
    ensures forall n :: n in finalized' <==> DoneBefore(entries, i + 1, n)
  {
    forall n ensures DoneBefore(entries, i + 1, n) <==> DoneBefore(entries, i, n) || Finishes(entries[i], n) {}
  }

  /** The nodes, completions and kills an entry notes. */
  method NoteLifecycle(e: Entry, t: Tables) returns (t': Tables, found: seq<Finding>)
    ensures t' == t.(nodes := t'.nodes, finalized := t'.finalized, revoked := t'.revoked)
    ensures LifecycleNext(e, t, t') && found == LifecycleFindings(e)
    ensures forall n :: n in t'.finalized <==> n in t.finalized || Finishes(e, n)
    ensures forall n :: n in t'.revoked <==> n in t.revoked || Kills(e, n)
  {
    t', found := t, [];
    var node := TextOf(e, FNode);
    match EventOf(e) {
      case Some(EventRoot) =>
        if node.Some? { t' := t'.(nodes := t'.nodes + {node.value}); }
        if !ValidRoot(e) { found := [InvalidRoot]; }
      case Some(EventSpawn) =>
        if node.Some? { t' := t'.(nodes := t'.nodes + {node.value}); }
      case Some(EventDone) =>
        if node.Some? { t' := t'.(finalized := t'.finalized + {node.value}); }
      case Some(EventKill) =>
        var revoked := NoteRevoked(e, t.revoked);
        t' := t'.(revoked := revoked);
        if !ValidKill(e) { found := [InvalidKill]; }
      case _ =>
    }
  }

  /** The call an allow, a deny or an outcome notes. */
  method NoteCall(e: Entry, i: nat, t: Tables) returns (t': Tables, found: seq<Finding>)
    ensures t' == t.(seen := t'.seen, allows := t'.allows, invalid := t'.invalid, outcomes := t'.outcomes, outcomeOrder := t'.outcomeOrder)
    ensures CallsNext(e, i, t, t') && found == CallFindings(e, t)
  {
    t', found := t, [];
    var cid := OrNull(e, FCallId);
    if IsJudged(e) {
      if IsKey(cid) {
        if cid in t.seen { found := [DuplicateCallId]; } else { t' := t'.(seen := t'.seen + {cid}); }
      }
      var allow := EventOf(e) == Some(EventAllow);
      if !(if allow then ValidAllow(e) else ValidDeny(e)) {
        found := found + [if allow then InvalidAllow else InvalidDeny];
        if allow && IsKey(cid) { t' := t'.(invalid := t'.invalid + {cid}); }
      } else if allow && IsKey(cid) {
        t' := t'.(allows := t'.allows[cid := i]);
      }
    } else if EventOf(e) == Some(EventOutcome) {
      if !ValidOutcome(e) {
        found := [InvalidOutcome];
      } else if cid in t.outcomes {
        found := [DuplicateOutcome];
      } else {
        t' := t'.(outcomes := t'.outcomes[cid := i], outcomeOrder := t'.outcomeOrder + [i]);
      }
    }
  }

  /** The first loop: identity of calls, validity of every record, and the tables. */
  method RecordPass(b: Bundle) returns (t: Tables, failures: seq<Failure>)
    ensures failures == Collect(|b.entries|, Records(b))
    ensures Tabulates(b.entries, |b.entries|, t)
  {
    failures := [];
    t := NO_TABLES;
    NothingTabulated(b.entries);
    for i := 0 to |b.entries|
      invariant failures == Collect(i, Records(b))
      invariant Tabulates(b.entries, i, t)
    {
      var found;
      t, found := NoteEntry(b, i, t);
      failures := failures + At(found, i);
    }
  }

  method NoteEntry(b: Bundle, i: nat, t: Tables) returns (t': Tables, found: seq<Finding>)
    requires i < |b.entries| && Tabulates(b.entries, i, t)
    ensures Tabulates(b.entries, i + 1, t') && found == Records(b)(i)
  {
    var mid, noted := NoteLifecycle(b.entries[i], t);
    var called;
    t', called := NoteCall(b.entries[i], i, mid);
    RecordStep(b, i, t, mid, t');
    found := noted + called;
  }

  lemma RecordStep(b: Bundle, i: nat, t: Tables, mid: Tables, t': Tables)
    requires i < |b.entries| && Tabulates(b.entries, i, t)
    requires mid == t.(nodes := mid.nodes, finalized := mid.finalized, revoked := mid.revoked)
    requires t' == mid.(seen := t'.seen, allows := t'.allows, invalid := t'.invalid, outcomes := t'.outcomes, outcomeOrder := t'.outcomeOrder)
    requires LifecycleNext(b.entries[i], t, mid) && CallsNext(b.entries[i], i, mid, t')
    requires forall n :: n in mid.finalized <==> n in t.finalized || Finishes(b.entries[i], n)
    requires forall n :: n in mid.revoked <==> n in t.revoked || Kills(b.entries[i], n)
    ensures LifecycleFindings(b.entries[i]) + CallFindings(b.entries[i], mid) == Records(b)(i)
    ensures Tabulates(b.entries, i + 1, t')
  {
    hide CallSeenBefore, LastAllow, FirstOutcome, FirstOutcomes, InvalidAllowBefore, RecordFindings;
    hide ValidAllow, ValidDeny, ValidOutcome, ValidRoot, ValidKill;
    var e := b.entries[i];
    assert CallsNext(e, i, t, t');
    SeenNext(b.entries, i, t, t');
    BoundNext(b.entries, i, t, t');
    DefinedNext(b.entries, i, t.nodes);
    KilledNext(b.entries, i, t.revoked, t'.revoked);
    DoneNext(b.entries, i, t.finalized, t'.finalized);
    FindingsAgree(b.entries, i, t);
    assert CallFindings(e, mid) == CallFindings(e, t);
  }

  lemma FindingsAgree(entries: seq<Entry>, i: nat, t: Tables)
    requires i < |entries| && Tabulates(entries, i, t)
    ensures LifecycleFindings(entries[i]) + CallFindings(entries[i], t) == RecordFindings(entries, i)
  {
    var cid := OrNull(entries[i], FCallId);
    assert Lookup(t.outcomes, cid) == FirstOutcome(entries, i, cid);
  }

  // ---- binding outcomes to allows -----------------------------------------

  /** Only first outcomes are bound, so walking them alone reports what a walk over every entry would. */
  lemma OnlyFirstOutcomesBind(b: Bundle)
    ensures CollectAt(FirstOutcomes(b.entries, |b.entries|), Bindings(b)) == Collect(|b.entries|, Bindings(b))
  {
    forall i: nat | i < |b.entries| && !IsFirstOutcome(b.entries, i) ensures Bindings(b)(i) == [] {
      assert BindingFindings(b.entries, i) == [];
    }
    CollectIndices(|b.entries|, (i: nat) => i < |b.entries| && IsFirstOutcome(b.entries, i), Bindings(b));
  }

  /** The outcome at `o` passed identity and order binding. */
  predicate BindsAt(entries: seq<Entry>, o: nat)
    requires o < |entries|
  {
    match LastAllow(entries, |entries|, OrNull(entries[o], FCallId))
    case Some(a) => SameNode(entries[a], entries[o]) && SeqAfter(entries[o], entries[a])
    case None => false
  }

  ghost predicate BoundAmong(entries: seq<Entry>, at: seq<nat>, cid: Json) {
    exists o :: o in at && BindsCall(entries, o, cid)
  }

  predicate BindsCall(entries: seq<Entry>, o: nat, cid: Json) {
    o < |entries| && OrNull(entries[o], FCallId) == cid && BindsAt(entries, o)
  }

  lemma BoundIffAmongFirst(entries: seq<Entry>, cid: Json)
    ensures BoundAmong(entries, FirstOutcomes(entries, |entries|), cid) <==> IsBound(entries, cid)
  {
    var at := FirstOutcomes(entries, |entries|);
    var first := FirstOutcome(entries, |entries|, cid);
    if BoundAmong(entries, at, cid) {
      var o :| o in at && BindsCall(entries, o, cid);
      FirstIsUnique(entries, o, cid);
    }
    if IsBound(entries, cid) { assert BindsCall(entries, first.value, cid); }
  }

  lemma FirstIsUnique(entries: seq<Entry>, o: nat, cid: Json)
    requires o < |entries| && OrNull(entries[o], FCallId) == cid && IsFirstOutcome(entries, o)
    ensures FirstOutcome(entries, |entries|, cid) == Some(o)
  {
  }

  /** Each outcome against its allow: same node, later seq, same arguments where both are committed. */
  method BindPass(b: Bundle, t: Tables) returns (bound: set<Json>, failures: seq<Failure>)
    requires Tabulates(b.entries, |b.entries|, t)
    ensures failures == Collect(|b.entries|, Bindings(b))
    ensures forall cid :: cid in bound <==> IsBound(b.entries, cid)
  {
    var entries := b.entries;
    assert t.outcomeOrder == FirstOutcomes(entries, |entries|);
    assert forall cid :: !BoundAmong(entries, [], cid);
    assert CollectAt([], Bindings(b)) == [];
    hide Tabulates, FirstOutcomes, BoundAmong, BindsCall, IsBound, Bindings, Collect, CollectAt, At, OrNull;
    assert t.outcomeOrder[..0] == [];
    bound, failures := {}, [];
    for k := 0 to |t.outcomeOrder|
      invariant failures == CollectAt(t.outcomeOrder[..k], Bindings(b))
      invariant forall cid :: cid in bound <==> BoundAmong(entries, t.outcomeOrder[..k], cid)
    {
      var o := t.outcomeOrder[k];
      var found: seq<Finding>;
      var ok;
      ok, found := BindOutcome(b, t, o);
      forall cid { BoundAmongNext(entries, t.outcomeOrder, k, cid); }
      if ok { bound := bound + {OrNull(entries[o], FCallId)}; }
      CollectAtNext(t.outcomeOrder, k, Bindings(b));
      failures := failures + At(found, o);
    }
    assert t.outcomeOrder[..|t.outcomeOrder|] == t.outcomeOrder;
    BoundByFirst(b, bound);
  }

  lemma BoundByFirst(b: Bundle, bound: set<Json>)
    requires forall cid :: cid in bound <==> BoundAmong(b.entries, FirstOutcomes(b.entries, |b.entries|), cid)
    ensures CollectAt(FirstOutcomes(b.entries, |b.entries|), Bindings(b)) == Collect(|b.entries|, Bindings(b))
    ensures forall cid :: cid in bound <==> IsBound(b.entries, cid)
  {
    hide CollectAt, Collect, FirstOutcomes, Bindings, BoundAmong, IsBound;
    OnlyFirstOutcomesBind(b);
    forall cid { BoundIffAmongFirst(b.entries, cid); }
  }

  method BindOutcome(b: Bundle, t: Tables, o: nat) returns (ok: bool, found: seq<Finding>)
    requires Tabulates(b.entries, |b.entries|, t) && o in t.outcomeOrder
    ensures o < |b.entries| && found == Bindings(b)(o)
    ensures forall cid :: BindsCall(b.entries, o, cid) <==> ok && cid == OrNull(b.entries[o], FCallId)
  {
    assert IsFirstOutcome(b.entries, o);
    var cid := OrNull(b.entries[o], FCallId);
    assert Lookup(t.allows, cid) == LastAllow(b.entries, |b.entries|, cid);
    if cid !in t.allows { return false, [OutcomeWithoutAllow]; }
    ok, found := Bind(b.entries[t.allows[cid]], b.entries[o]);
  }

  lemma BoundAmongNext(entries: seq<Entry>, at: seq<nat>, k: nat, cid: Json)
    requires k < |at|
    ensures BoundAmong(entries, at[..k + 1], cid) <==> BoundAmong(entries, at[..k], cid) || BindsCall(entries, at[k], cid)
  {
    assert at[..k + 1] == at[..k] + [at[k]];
  }

  method Bind(allow: Entry, outcome: Entry) returns (ok: bool, found: seq<Finding>)
    ensures ok == (SameNode(allow, outcome) && SeqAfter(outcome, allow))
    ensures found == Only(!SameNode(allow, outcome), CrossRef) + Only(!SeqAfter(outcome, allow), OutcomeBeforeAllow)
                     + Only(HashesDiffer(allow, outcome), ParamsMismatch)
  {
    found := [];
    var node := Get(allow, FNode);
    var nodeOk := node == Get(outcome, FNode) && (node.Some? ==> !node.value.JArr? && !node.value.JObj?);
    if !nodeOk { found := found + [CrossRef]; }
    var later, earlier := OrNull(outcome, FSeq), OrNull(allow, FSeq);
    var orderOk := later.JNum? && earlier.JNum? && later.number > earlier.number;
    if !orderOk { found := found + [OutcomeBeforeAllow]; }
    var authorized, invoked := OrNull(allow, FAuthorizedParamsHash), OrNull(outcome, FInvokedParamsHash);
    if !authorized.JNull? && !invoked.JNull? && authorized != invoked { found := found + [ParamsMismatch]; }
    ok := nodeOk && orderOk;
  }

  // ---- scores -------------------------------------------------------------

  /** The state of every call, and the nodes with a call that promised an observation and has none. */
  method ScoreCalls(b: Bundle, t: Tables, bound: set<Json>) returns (perCall: map<Json, CallState>, waiting: set<string>)
    requires Tabulates(b.entries, |b.entries|, t)
    requires forall cid :: cid in bound <==> IsBound(b.entries, cid)
    ensures forall cid :: Lookup(perCall, cid) == CallStateOf(b.entries, cid)
    ensures forall n :: n in waiting <==> HasUnaccounted(b.entries, n)
  {
    hide EventOf, IsAllowOf, LastAllow, IsBound, FirstOutcomes, CallSeenBefore, DoneBefore, TracksDefined, TracksKilled, OutcomeBefore;
    var entries := b.entries;
    perCall, waiting := map[], {};
    var todo := t.allows.Keys;
    while todo != {}
      invariant todo <= t.allows.Keys
      invariant forall cid :: Lookup(perCall, cid) == if cid in todo then None else CallStateOf(entries, cid)
      invariant forall n :: n in waiting <==> exists cid :: cid !in todo && IsUnaccountedOn(entries, cid, n)
    {
      var cid :| cid in todo;
      assert Lookup(t.allows, cid) == LastAllow(entries, |entries|, cid);
      ghost var before, was := todo, waiting;
      todo := todo - {cid};
      if cid !in t.invalid {
        var e := entries[t.allows[cid]];
        var state := if cid in bound then Observed else if OrNull(e, FCapture) == JStr(PRE_HOOK_ONLY) then Unobserved else Unaccounted;
        perCall := perCall[cid := state];
        if state == Unaccounted && TextOf(e, FNode).Some? { waiting := waiting + {TextOf(e, FNode).value}; }
      }
      forall n ensures n in waiting <==> exists c :: c !in todo && IsUnaccountedOn(entries, c, n) {
        WaitingNext(entries, before, cid, n);
      }
    }
    forall n ensures n in waiting <==> HasUnaccounted(entries, n) {}
  }

  lemma WaitingNext(entries: seq<Entry>, todo: set<Json>, cid: Json, n: string)
    ensures (exists c :: c !in todo - {cid} && IsUnaccountedOn(entries, c, n))
            <==> (exists c :: c !in todo && IsUnaccountedOn(entries, c, n)) || IsUnaccountedOn(entries, cid, n)
  {
  }

  method ScoreNodes(b: Bundle, t: Tables, waiting: set<string>) returns (lifecycle: map<string, Lifecycle>)
    requires Tabulates(b.entries, |b.entries|, t)
    requires forall n :: n in waiting <==> HasUnaccounted(b.entries, n)
    ensures lifecycle.Keys == t.nodes
    ensures forall n :: n in lifecycle ==> lifecycle[n] == LifecycleOf(b.entries, n)
  {
    lifecycle := map[];
    var todo := t.nodes;
    while todo != {}
      invariant todo <= t.nodes && lifecycle.Keys == t.nodes - todo
      invariant forall n :: n in lifecycle ==> lifecycle[n] == LifecycleOf(b.entries, n)
    {
      var n :| n in todo;
      todo := todo - {n};
      var state := InProgress;
      if n in t.finalized { state := Finalized; }
      else if n in t.revoked { state := if n in waiting then RevokedWithPending else RevokedClean; }
      lifecycle := lifecycle[n := state];
    }
  }

  function Escalate(a: Aggregate, level: Aggregate): Aggregate {
    if a.Failed? || level.Failed? then Failed else if a.Incomplete? || level.Incomplete? then Incomplete else Clean
  }

  method AggregateState(b: Bundle, failures: seq<Failure>, perCall: map<Json, CallState>, lifecycle: map<string, Lifecycle>, waiting: set<string>)
    returns (a: Aggregate)
    requires forall cid :: Lookup(perCall, cid) == CallStateOf(b.entries, cid)
    requires forall n :: n in lifecycle <==> DefinedBefore(b.entries, |b.entries|, n)
    requires forall n :: n in lifecycle ==> lifecycle[n] == LifecycleOf(b.entries, n)
    requires forall n :: n in waiting <==> HasUnaccounted(b.entries, n)
    ensures a == AggregateOf(b.entries, failures)
  {
    hide CallStateOf, LifecycleOf, DefinedBefore, HasUnaccounted;
    a := if failures != [] then Failed else Clean;
    ghost var start := a;
    var todo := lifecycle.Keys;
    while todo != {}
      invariant todo <= lifecycle.Keys
      invariant a.Failed? <==> start.Failed? || exists n :: n !in todo && NodeFails(b.entries, n)
      invariant a.Incomplete? <==> !a.Failed? && exists n :: n !in todo && NodeIsOpen(b.entries, n)
    {
      var n :| n in todo;
      ghost var before := todo;
      todo := todo - {n};
      OneMore(before, n, x => NodeFails(b.entries, x));
      OneMore(before, n, x => NodeIsOpen(b.entries, x));
      if lifecycle[n] == Finalized && n in waiting { a := Escalate(a, Failed); }
      else if lifecycle[n] == InProgress || lifecycle[n] == RevokedWithPending { a := Escalate(a, Incomplete); }
    }
    if exists cid :: cid in perCall && perCall[cid] == Unobserved {
      var cid :| cid in perCall && perCall[cid] == Unobserved;
      assert Lookup(perCall, cid) == CallStateOf(b.entries, cid);
      a := Escalate(a, Incomplete);
    } else {
      forall cid ensures CallStateOf(b.entries, cid) != Some(Unobserved) {
        assert Lookup(perCall, cid) == CallStateOf(b.entries, cid);
      }
    }
  }

  lemma OneMore(todo: set<string>, n: string, p: string -> bool)
    ensures (exists x :: x !in todo - {n} && p(x)) <==> (exists x :: x !in todo && p(x)) || p(n)
  {
  }

  datatype BindingReport =
    | NotApplicable(failures: seq<Failure>)
    | Scored(aggregate: Aggregate, perCall: map<Json, CallState>, lifecycle: map<string, Lifecycle>, failures: seq<Failure>)

  method LeakPass(b: Bundle) returns (failures: seq<Failure>)
    ensures failures == Collect(|b.entries|, Leaks(b))
  {
    failures := [];
    for i := 0 to |b.entries|
      invariant failures == Collect(i, Leaks(b))
    {
      var found := if exists f :: f in b.entries[i] && f in V2_ONLY then [V2FieldOnV1] else [];
      assert found == Leaks(b)(i);
      failures := failures + At(found, i);
    }
  }

  method Score(b: Bundle) returns (r: BindingReport)
    requires VersionOk(b)
    ensures r.failures == BindingFailures(b)
    ensures b.v == Some(JNum(2)) ==> r.Scored? && r.aggregate == AggregateOf(b.entries, r.failures)
    ensures r.Scored? ==> forall cid :: Lookup(r.perCall, cid) == CallStateOf(b.entries, cid)
    ensures r.Scored? ==> forall n :: n in r.lifecycle <==> DefinedBefore(b.entries, |b.entries|, n)
    ensures r.Scored? ==> forall n :: n in r.lifecycle ==> r.lifecycle[n] == LifecycleOf(b.entries, n)
  {
    if b.v == Some(JNum(1)) {
      var leaked := LeakPass(b);
      return NotApplicable(leaked);
    }
    var t, recorded := RecordPass(b);
    var bound, unbound := BindPass(b, t);
    var perCall, waiting := ScoreCalls(b, t, bound);
    var lifecycle := ScoreNodes(b, t, waiting);
    var aggregate := AggregateState(b, recorded + unbound, perCall, lifecycle, waiting);
    return Scored(aggregate, perCall, lifecycle, recorded + unbound);
  }
}
