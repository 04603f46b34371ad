/** Where the code does less than its design says: an input for each law that fails. */
module Divergences {
  import opened Results
  import opened PlainJson
  import opened Scopes
  import opened Ceilings
  import opened Authorities
  import opened AuthorityWire
  import opened Meets
  import opened Lattice
  import opened Reasons
  import opened Chains
  import opened Audit
  import opened Ledger
  import opened GuardSteps
  import opened EvidenceRules
  import opened Evidence
  import opened Honest
  import opened Runs
  import opened RunCalls
  import opened Delegations
  import opened Completeness
  import opened Exports

  function Reader(c: Ceiling): Authority { Authority(["crm.read"], [c], None, P01) }

  lemma ReaderIsValid(c: Ceiling)
    requires WellFormed(c)
    ensures Valid(Reader(c))
  {
    ReadIsScope();
  }

  lemma ReadIsScope()
    ensures IsScope(P01, "crm.read")
  {
    var s := "crm.read";
    assert s[0] == 'c' && s[1] == 'r' && s[2] == 'm' && s[3] == '.' && s[4] == 'r' && s[5] == 'e' && s[6] == 'a' && s[7] == 'd';
    forall i | 0 <= i < |s|
      ensures if i == 0 || s[i - 1] == '.' then IsSegmentStart(s[i]) else IsSegmentTail(s[i]) || (s[i] == '.' && i + 1 < |s|)
    {
      assert i == 0 || i == 1 || i == 2 || i == 3 || i == 4 || i == 5 || i == 6 || i == 7;
    }
    assert IsDotted(s);
  }

  /** An authority that is not narrower than itself: its unknown ceiling holds an integer RFC 8785 cannot write. */
  lemma NotNarrowerThanItself()
    ensures var a := Reader(Unknown("quota", [Member("key", JStr("quota")), Member("limit", JNum(9007199254740992))]));
            Valid(a) && !IsNarrower(a, a)
  {
    var raw := [Member("key", JStr("quota")), Member("limit", JNum(9007199254740992))];
    var c := Unknown("quota", raw);
    ReaderIsValid(c);
    NarrowerReflexive(Reader(c));
    assert raw[1].value == JNum(9007199254740992);
    assert !Canonicalizable(JObj(raw));
    assert c in Reader(c).ceilings;
  }

  const HERE: Ceiling := Prefix("path", "/a/", None)
  const THERE: Ceiling := Prefix("path", "/b/", None)

  /** What two prefixes neither of which extends the other meet in. */
  lemma PrefixesMeet()
    ensures Valid(Reader(HERE)) && Valid(Reader(THERE))
    ensures Meet(Reader(HERE), Reader(THERE)).Some?
    ensures Meet(Reader(HERE), Reader(THERE)).value.ceilings == [Prefix("path", "/a/\0/b/", None)]
    ensures !("/a/" <= "/b/") && !("/b/" <= "/a/")
  {
    ReaderIsValid(HERE);
    ReaderIsValid(THERE);
    assert "/a/"[1] != "/b/"[1];
    assert "/a/" + "\0" + "/b/" == "/a/\0/b/";
    assert Combine(HERE, THERE) == Some(Prefix("path", "/a/\0/b/", None));
    assert Held(P01, [THERE], PairKeyOf(P01, HERE)) == Some(THERE) && Held(P01, [HERE], PairKeyOf(P01, THERE)) == Some(HERE);
    var mine, theirs := [HERE], [THERE];
    assert mine[1..] == [] && CombineAll(P01, mine[1..], theirs) == Some([]);
    assert CombineHeld(Some(mine[0]), Held(P01, theirs, PairKeyOf(P01, mine[0]))) == Some(Some(Prefix("path", "/a/\0/b/", None)));
    assert [Prefix("path", "/a/\0/b/", None)] + [] == [Prefix("path", "/a/\0/b/", None)];
    assert CombineAll(P01, mine, theirs) == Some([Prefix("path", "/a/\0/b/", None)]);
    assert Filter([THERE], c => Unmatched(P01, [HERE], c)) == [];
  }

  /** A meet that is not narrower than the request. */
  lemma MeetEscapesRequest()
    ensures var meet := Meet(Reader(HERE), Reader(THERE));
            meet.Some? && !IsNarrower(meet.value, Reader(THERE))
  {
    PrefixesMeet();
    MeetWithinRequestIff(Reader(HERE), Reader(THERE));
    assert THERE in Reader(THERE).ceilings;
    assert EscapesRequest(Reader(HERE), THERE);
  }

  const MARKED: Context := [Member("path", JStr("/a/\0/b/secret"))]

  lemma MarkedPathIsRead()
    ensures Declared(With(MARKED, "_scope", JStr("crm.read")), "path") == Some(JStr("/a/\0/b/secret"))
    ensures "/a/\0/b/" <= "/a/\0/b/secret" && !("/b/" <= "/a/\0/b/secret")
  {
    OwnWith(MARKED, "_scope", JStr("crm.read"), "path");
    assert "path"[0] == 'p' && "_scope"[0] == '_';
    assert "/b/"[1] == 'b' && "/a/\0/b/secret"[1] == 'a';
  }

  lemma ReadIsCovered()
    ensures CoversAny(P01, ["crm.read"], "crm.read")
    ensures CoversAny(P01, Pruned(P01, Merged(P01, ["crm.read"], ["crm.read"])), "crm.read")
  {
    ReadIsScope();
    CoversReflexive(P01, "crm.read");
    assert "crm.read" in ["crm.read"];
    IntersectionIsExact(P01, ["crm.read"], ["crm.read"], "crm.read");
  }

  /** And it grants a path the request refuses: one that begins with the marked prefix. */
  lemma MeetGrantsMarkedPath()
    ensures var meet := Meet(Reader(HERE), Reader(THERE));
            meet.Some? && Grants(meet.value, "crm.read", MARKED, []) && !Grants(Reader(THERE), "crm.read", MARKED, [])
  {
    PrefixesMeet();
    MarkedPathIsRead();
    ReadIsCovered();
    hide MARKED, CoversAny, Pruned, Merged, CombineAll, Own, With;
    var meet := Meet(Reader(HERE), Reader(THERE)).value;
    assert meet.scopes == Pruned(P01, Merged(P01, ["crm.read"], ["crm.read"]));
    assert Admitted(P01, meet.ceilings[0], "crm.read", MARKED, []);
    assert THERE in Reader(THERE).ceilings && !Admitted(P01, THERE, "crm.read", MARKED, []);
  }

  // ---- the empty chain id -------------------------------------------------

  /** A chain without a name: the bundle of its first state does not verify. */
  lemma UnnamedChainNeverVerifies()
    ensures var s := Setup("", 6, 16, "root", Authority(["crm.read"], [], None, P01), "root", 0, Config(1, false, None, ""));
            var hash: Hasher := (p, e) => Some("0");
            && IssueStep(hash, s).Some? && Reachable(hash, s, IssueStep(hash, s).value)
            && !Accepts(hash, Exported(IssueStep(hash, s).value.entries), None)
  {
    var authority := Authority(["crm.read"], [], None, P01);
    var s := Setup("", 6, 16, "root", authority, "root", 0, Config(1, false, None, ""));
    var hash: Hasher := (p, e) => Some("0");
    ReadIsScope();
    assert Valid(authority) && IsBuiltinAuthority(authority);
    hide Exported, Accepts, Reachable, RootFields;
    var start := IssueStep(hash, s).value;
    assert RunTo(hash, s, [], start) by { assert EndsAt(hash, start, [], start); }
    IssueIsReachable(hash, s);
    ExportVerifiesIff(hash, s, [], start);
  }

  // ---- a list in a list ---------------------------------------------------

  /** An allow list that holds a list, as a program wrote it. */
  const LISTED: Ceiling := Allow("region", [Ref(JArr([JStr("eu")]), Made(0))], None)

  const BARE: Authority := Authority(["crm.read"], [], None, P01)

  const ROOT: Setup := Setup("chain", 6, 16, "root", Reader(LISTED), "root", 0, Config(1, false, None, ""))

  const ANY_HASH: Hasher := (p, e) => Some("0")

  function Delegation(): Op { Delegate(NodeId("chain", 0), "worker", BARE, "work", 0, true) }

  lemma BareIsValid()
    ensures Valid(BARE) && IsBuiltinAuthority(BARE) && Valid(Reader(LISTED)) && IsBuiltinAuthority(Reader(LISTED))
  {
    ReadIsScope();
    ReaderIsValid(LISTED);
  }

  /** A request without the key keeps the list, and repeats it. */
  lemma BareRepeatsList()
    ensures Repeats(Reader(LISTED), BARE)
    ensures Meet(Reader(LISTED), BARE).Some? && IsNarrower(Meet(Reader(LISTED), BARE).value, Reader(LISTED))
  {
    BareIsValid();
    var mine, theirs: seq<Ceiling> := [LISTED], [];
    assert LISTED in Reader(LISTED).ceilings && Held(P01, theirs, PairKeyOf(P01, LISTED)) == None;
    assert LISTED.oneOf[0] in LISTED.oneOf && !ArePlain(LISTED.oneOf);
    assert mine[1..] == [] && CombineAll(P01, mine[1..], theirs) == Some([]);
    assert CombineHeld(Some(mine[0]), Held(P01, theirs, PairKeyOf(P01, mine[0]))) == Some(Some(LISTED));
    assert CombineAll(P01, mine, theirs).Some?;
    MeetIsNarrower(Reader(LISTED), BARE);
  }

  lemma DelegationSpawns(w: World)
    requires w == IssueStep(ANY_HASH, ROOT).value && IssueStep(ANY_HASH, ROOT).Some?
    ensures Delegation().node in w.chain.nodes && Spawns(ANY_HASH, w, Delegation())
    ensures w.chain.nodes[Delegation().node].authority == Reader(LISTED)
  {
    BareRepeatsList();
    hide Meet, IsNarrower, NodeId, SpawnFields, RootFields, BARE, LISTED;
    AppendSameTree(ANY_HASH, Fresh(ROOT), EventRoot, RootFields(ROOT.chainId, NodeId(ROOT.chainId, 0), ROOT.agent, ROOT.authority, ROOT.cfg));
    var op := Delegation();
    assert w.chain == Fresh(ROOT).chain && DelegationError(w.chain, op.node, op.agent, op.now).None?;
  }

  lemma RootIsIssuable()
    ensures Issuable(ROOT) && IssueStep(ANY_HASH, ROOT).Some?
  {
    BareIsValid();
    hide RootFields, BARE, LISTED, Reader, NodeId, Valid, IsBuiltinAuthority;
  }

  lemma DelegationIsCallable(start: World)
    requires IssueStep(ANY_HASH, ROOT) == Some(start)
    ensures Callable(start, Delegation())
  {
    hide HoldsGuard, Valid, IsBuiltinAuthority, NodeId, IssueStep, RunInv, Issuable, DefinedBefore, LegalCalls;
    BareIsValid();
    RootIsIssuable();
    IssueHoldsRoot(ANY_HASH, ROOT);
    IssueStarts(ANY_HASH, ROOT);
  }

  /** A delegation the guard grants and the verifier reports: the granted list is not the one the parent was read to hold. */
  lemma RegrantedListIsReported()
    ensures IssueStep(ANY_HASH, ROOT).Some?
    ensures var start := IssueStep(ANY_HASH, ROOT).value;
            && Callable(start, Delegation()) && Delegation().node in start.chain.nodes
            && RunTo(ANY_HASH, ROOT, [Delegation()], Step(ANY_HASH, start, Delegation()))
            && !Accepts(ANY_HASH, BundleOf(Step(ANY_HASH, start, Delegation())), None)
  {
    RootIsIssuable();
    hide Issuable, IssueStep, Callable, Spawns, Accepts, BundleOf, Step, RunInv, Repeats, ROOT, ANY_HASH, Delegation, LISTED, BARE, Reader;
    var start := IssueStep(ANY_HASH, ROOT).value;
    DelegationIsCallable(start);
    DelegationSpawns(start);
    IssueStarts(ANY_HASH, ROOT);
    BareRepeatsList();
    OneCallRuns(ANY_HASH, start, Delegation());
    StepVerifiesIff(ANY_HASH, start, Delegation());
    DelegationIsDelegate();
  }

  lemma DelegationIsDelegate()
    ensures Delegation().Delegate? && Delegation().request == BARE
  {
    hide BARE, NodeId;
  }

  lemma OneCallRuns(hash: Hasher, w: World, op: Op)
    requires Callable(w, op) && op.node in w.chain.nodes
    ensures EndsAt(hash, w, [op], Step(hash, w, op))
  {
    hide Callable, Step;
    RunExtends(hash, w, [], op);
    assert [] + [op] == [op];
  }
}
