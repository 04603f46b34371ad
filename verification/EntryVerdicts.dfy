/** What the offline verifier reports of an entry, and of the ledger as a whole, read off the entries' members. */
module EntryVerdicts {
  import opened Results
  import opened PlainJson
  import opened Ceilings
  import opened Authorities
  import opened AuthorityWire
  import opened Audit
  import opened Ledger
  import opened EvidenceRules
  import opened Evidence

  // ---- entries by their members -------------------------------------------

  predicate Reads(e: Entry, f: Field, s: string) { f in e && e[f] == JStr(s) }

  predicate Is(e: Entry, event: string) { Reads(e, FEvent, event) }

  /** A root or a spawn that gives its node a text. */
  predicate Opens(e: Entry, node: string) { (Is(e, "root") || Is(e, "spawn")) && Reads(e, FNode, node) }

  predicate Revokes(e: Entry, node: string) {
    Is(e, "kill") && FRevoked in e && e[FRevoked].JArr? && exists k :: 0 <= k < |e[FRevoked].items| && e[FRevoked].items[k] == JStr(node)
  }

  predicate OpenedBefore(entries: seq<Entry>, i: nat, node: string)
    requires i <= |entries|
  {
    exists j :: 0 <= j < i && Opens(entries[j], node)
  }

  predicate RevokedBefore(entries: seq<Entry>, i: nat, node: string)
    requires i <= |entries|
  {
    exists j :: 0 <= j < i && Revokes(entries[j], node)
  }

  /** The first entry that opens the node reads back as this authority. */
  ghost predicate Holds(entries: seq<Entry>, node: string, a: Authority) {
    exists j: nat :: j < |entries| && OpensFirst(entries, j, node) && ReadAuthority(Given(entries[j]), j) == Some(a)
  }

  predicate OpensFirst(entries: seq<Entry>, j: nat, node: string)
    requires j < |entries|
  {
    Opens(entries[j], node) && !OpenedBefore(entries, j, node)
  }

  /** What a root holds, or a spawn grants. */
  function Given(e: Entry): Option<Json> {
    if Is(e, "root") then Get(e, FAuthority) else Get(e, FGranted)
  }

  lemma EventIff(e: Entry)
    ensures EventOf(e) == Some(EventRoot) <==> Is(e, "root")
    ensures EventOf(e) == Some(EventSpawn) <==> Is(e, "spawn")
    ensures EventOf(e) == Some(EventSpawnDenied) <==> Is(e, "spawn_denied")
    ensures EventOf(e) == Some(EventAllow) <==> Is(e, "allow")
    ensures EventOf(e) == Some(EventDeny) <==> Is(e, "deny")
    ensures EventOf(e) == Some(EventKill) <==> Is(e, "kill")
    ensures EventOf(e) == Some(EventDone) <==> Is(e, "done")
    ensures EventOf(e) == Some(EventOutcome) <==> Is(e, "outcome")
  {
    hide EventText, EventNamed, KindNamed;
    match Get(e, FEvent)
    case Some(JStr(s)) => TextIff(s);
    case _ =>
  }

  lemma TextIff(s: string)
    ensures EventNamed(s) == Some(EventRoot) <==> s == "root"
    ensures EventNamed(s) == Some(EventSpawn) <==> s == "spawn"
    ensures EventNamed(s) == Some(EventSpawnDenied) <==> s == "spawn_denied"
    ensures EventNamed(s) == Some(EventAllow) <==> s == "allow"
    ensures EventNamed(s) == Some(EventDeny) <==> s == "deny"
    ensures EventNamed(s) == Some(EventKill) <==> s == "kill"
    ensures EventNamed(s) == Some(EventDone) <==> s == "done"
    ensures EventNamed(s) == Some(EventOutcome) <==> s == "outcome"
  {
    hide KindNamed;
    EventNamedText(EventRoot);
    EventNamedText(EventSpawn);
    EventNamedText(EventSpawnDenied);
    EventNamedText(EventAllow);
    EventNamedText(EventDeny);
    EventNamedText(EventKill);
    EventNamedText(EventDone);
    EventNamedText(EventOutcome);
  }

  lemma DefinesIff(e: Entry, node: string)
    ensures Defines(e, node) <==> Opens(e, node)
    ensures Kills(e, node) <==> Revokes(e, node)
  {
    hide EventOf;
    EventIff(e);
    if Kills(e, node) { var k :| 0 <= k < |e[FRevoked].items| && e[FRevoked].items[k] == JStr(node); }
  }

  lemma BeforeIff(entries: seq<Entry>, i: nat, node: string)
    requires i <= |entries|
    ensures DefinedBefore(entries, i, node) <==> OpenedBefore(entries, i, node)
    ensures KilledBefore(entries, i, node) <==> RevokedBefore(entries, i, node)
  {
    hide Defines, Opens, Kills, Revokes;
    forall j | 0 <= j < i
      ensures Defines(entries[j], node) <==> Opens(entries[j], node)
      ensures Kills(entries[j], node) <==> Revokes(entries[j], node)
    {
      DefinesIff(entries[j], node);
    }
  }

  lemma GivenIff(e: Entry, node: string, at: nat)
    requires Opens(e, node)
    ensures AuthorityIn(e, at) == ReadAuthority(Given(e), at)
  {
    hide EventOf, ReadAuthority;
    EventIff(e);
  }

  lemma HoldsIff(entries: seq<Entry>, node: string, a: Authority)
    ensures AuthorityOf(entries, node) == Some(a) <==> Holds(entries, node, a)
  {
    hide AuthorityIn, Defines, Opens, DefinedBefore, OpenedBefore, Given, ReadAuthority;
    var first := FirstDefinition(entries, |entries|, node);
    forall j | 0 <= j < |entries|
      ensures Defines(entries[j], node) <==> Opens(entries[j], node)
      ensures DefinedBefore(entries, j, node) <==> OpenedBefore(entries, j, node)
      ensures Opens(entries[j], node) ==> AuthorityIn(entries[j], j) == ReadAuthority(Given(entries[j]), j)
    {
      DefinesIff(entries[j], node);
      BeforeIff(entries, j, node);
      if Opens(entries[j], node) { GivenIff(entries[j], node, j); }
    }
    if first.Some? { assert OpensFirst(entries, first.value, node); }
    if Holds(entries, node, a) {
      var j: nat :| j < |entries| && OpensFirst(entries, j, node) && ReadAuthority(Given(entries[j]), j) == Some(a);
      FirstIsOnly(entries, node, j);
    }
  }

  lemma FirstIsOnly(entries: seq<Entry>, node: string, j: nat)
    requires j < |entries| && Defines(entries[j], node) && !DefinedBefore(entries, j, node)
    ensures FirstDefinition(entries, |entries|, node) == Some(j)
  {
    hide Defines;
    assert DefinedBefore(entries, |entries|, node);
  }

  // ---- the delegation tree ------------------------------------------------

  /** A spawn that opens a new node under one opened earlier. */
  predicate Hangs(entries: seq<Entry>, i: nat, node: string, parent: string)
    requires i < |entries|
  {
    && Is(entries[i], "spawn") && OpensFirst(entries, i, node)
    && Reads(entries[i], FParent, parent) && OpenedBefore(entries, i, parent)
  }

  ghost predicate EarnsOnTree(entries: seq<Entry>, f: Finding, i: nat)
    requires i < |entries|
  {
    var e := entries[i];
    match f
    case UnreadableAuthority =>
      Is(e, "root") && ((forall node :: !Reads(e, FNode, node)) || exists node :: OpensFirst(entries, i, node) && ReadAuthority(Get(e, FAuthority), i).None?)
    case UnreadableGranted =>
      Is(e, "spawn") && ((forall node :: !Reads(e, FNode, node)) || exists node :: OpensFirst(entries, i, node) && ReadAuthority(Get(e, FGranted), i).None?)
    case DefinedTwice => exists node :: Opens(e, node) && OpenedBefore(entries, i, node)
    case NoParentDefined => Is(e, "spawn") && exists node :: OpensFirst(entries, i, node) && forall parent :: !Hangs(entries, i, node, parent)
    case ParentRevoked => exists node, parent :: Hangs(entries, i, node, parent) && RevokedBefore(entries, i, parent)
    case WiderThanParent =>
      exists node, parent :: Hangs(entries, i, node, parent) && !RevokedBefore(entries, i, parent) && Widens(entries, node, parent)
    case _ => false
  }

  ghost predicate Widens(entries: seq<Entry>, node: string, parent: string) {
    exists a, p :: Holds(entries, node, a) && Holds(entries, parent, p) && !IsNarrower(a, p)
  }

  lemma WidensIff(entries: seq<Entry>, node: string, parent: string)
    ensures Widens(entries, node, parent) <==>
              match (AuthorityOf(entries, node), AuthorityOf(entries, parent))
              case (Some(child), Some(p)) => !IsNarrower(child, p)
              case _ => false
  {
    hide AuthorityOf, IsNarrower, Holds;
    forall a { HoldsIff(entries, node, a); }
    forall p { HoldsIff(entries, parent, p); }
  }

  /** An entry has one node and one parent at most. */
  lemma OneNode(entries: seq<Entry>, i: nat, node: string)
    requires i < |entries| && Reads(entries[i], FNode, node)
    ensures forall n {:trigger Reads(entries[i], FNode, n)} :: Reads(entries[i], FNode, n) ==> n == node
    ensures forall n {:trigger Opens(entries[i], n)} :: Opens(entries[i], n) ==> n == node
    ensures forall n {:trigger OpensFirst(entries, i, n)} :: OpensFirst(entries, i, n) ==> n == node
    ensures forall n, p {:trigger Hangs(entries, i, n, p)} :: Hangs(entries, i, n, p) ==> n == node && Reads(entries[i], FParent, p)
  {
    hide OpenedBefore;
  }

  lemma NoNode(entries: seq<Entry>, i: nat)
    requires i < |entries| && TextOf(entries[i], FNode).None?
    ensures forall n {:trigger Reads(entries[i], FNode, n)} :: !Reads(entries[i], FNode, n)
    ensures forall n {:trigger Opens(entries[i], n)} :: !Opens(entries[i], n)
    ensures forall n {:trigger OpensFirst(entries, i, n)} :: !OpensFirst(entries, i, n)
    ensures forall n, p {:trigger Hangs(entries, i, n, p)} :: !Hangs(entries, i, n, p)
  {
    hide OpenedBefore;
  }

  lemma DefinitionIff(entries: seq<Entry>, f: Finding, i: nat)
    requires i < |entries|
    ensures f in DefinitionFindings(entries, i) <==> (f == UnreadableAuthority || f == UnreadableGranted) && EarnsOnTree(entries, f, i)
  {
    hide EventOf, ReadAuthority, DefinedBefore, OpenedBefore, Hangs, Widens;
    var e := entries[i];
    EventIff(e);
    match TextOf(e, FNode)
    case None => NoNode(entries, i);
    case Some(node) =>
      BeforeIff(entries, i, node);
      OneNode(entries, i, node);
      if IsDefinition(e) {
        assert Opens(e, node);
        assert OpensFirst(entries, i, node) <==> !DefinedBefore(entries, i, node);
      }
  }

  /** What a definition of `node` under `parent` earns. */
  ghost predicate EarnsUnder(entries: seq<Entry>, f: Finding, i: nat, node: string, parent: Option<string>)
    requires i < |entries|
  {
    match f
    case DefinedTwice => !OpensFirst(entries, i, node)
    case NoParentDefined => Is(entries[i], "spawn") && OpensFirst(entries, i, node) && (parent.None? || !Hangs(entries, i, node, parent.value))
    case ParentRevoked => parent.Some? && Hangs(entries, i, node, parent.value) && RevokedBefore(entries, i, parent.value)
    case WiderThanParent =>
      parent.Some? && Hangs(entries, i, node, parent.value) && !RevokedBefore(entries, i, parent.value) && Widens(entries, node, parent.value)
    case _ => false
  }

  lemma EarnsUnderIff(entries: seq<Entry>, f: Finding, i: nat, node: string)
    requires i < |entries| && Opens(entries[i], node) && f != UnreadableAuthority && f != UnreadableGranted
    ensures EarnsOnTree(entries, f, i) <==> EarnsUnder(entries, f, i, node, TextOf(entries[i], FParent))
  {
    OneNode(entries, i, node);
    ParentsOf(entries, i);
    hide Opens, OpensFirst, Hangs, Widens, OpenedBefore, RevokedBefore, ReadAuthority, Is;
    match f
    case DefinedTwice => assert !OpensFirst(entries, i, node) <==> OpenedBefore(entries, i, node) by { OpensOnce(entries, i, node); }
    case _ =>
  }

  lemma OpensOnce(entries: seq<Entry>, i: nat, node: string)
    requires i < |entries| && Opens(entries[i], node)
    ensures OpensFirst(entries, i, node) <==> !OpenedBefore(entries, i, node)
  {
  }

  lemma ParentsOf(entries: seq<Entry>, i: nat)
    requires i < |entries|
    ensures forall n, p {:trigger Hangs(entries, i, n, p)} :: Hangs(entries, i, n, p) ==> TextOf(entries[i], FParent) == Some(p) && Is(entries[i], "spawn") && OpensFirst(entries, i, n)
  {
    hide OpensFirst, OpenedBefore;
  }

  lemma MonotonicityUnder(entries: seq<Entry>, f: Finding, i: nat, node: string)
    requires i < |entries| && Opens(entries[i], node)
    ensures f in MonotonicityFindings(entries, i) <==> EarnsUnder(entries, f, i, node, TextOf(entries[i], FParent))
  {
    hide EventOf, AuthorityOf, IsNarrower, DefinedBefore, KilledBefore, OpenedBefore, RevokedBefore, Widens, Hangs, OpensFirst;
    EventIff(entries[i]);
    OpensOnce(entries, i, node);
    BeforeIff(entries, i, node);
    LinkIff(entries, i, node);
  }

  lemma MonotonicityIff(entries: seq<Entry>, f: Finding, i: nat)
    requires i < |entries|
    ensures f in MonotonicityFindings(entries, i) <==> f != UnreadableAuthority && f != UnreadableGranted && EarnsOnTree(entries, f, i)
  {
    hide EventOf, DefinedBefore, KilledBefore, OpenedBefore, RevokedBefore, Widens, EarnsUnder, EarnsOnTree;
    var e := entries[i];
    EventIff(e);
    var node := TextOf(e, FNode);
    if IsDefinition(e) && node.Some? {
      MonotonicityUnder(entries, f, i, node.value);
      if f != UnreadableAuthority && f != UnreadableGranted { EarnsUnderIff(entries, f, i, node.value); }
    } else {
      NothingOpened(entries, f, i);
    }
  }

  lemma NothingOpened(entries: seq<Entry>, f: Finding, i: nat)
    requires i < |entries| && !(IsDefinition(entries[i]) && TextOf(entries[i], FNode).Some?)
    ensures f !in {UnreadableAuthority, UnreadableGranted} ==> !EarnsOnTree(entries, f, i)
    ensures MonotonicityFindings(entries, i) == []
  {
    hide EventOf, OpenedBefore, RevokedBefore, Widens;
    EventIff(entries[i]);
  }

  /** What a spawn of a new node earns of its parent. */
  lemma LinkIff(entries: seq<Entry>, i: nat, node: string)
    requires i < |entries| && Opens(entries[i], node)
    ensures Is(entries[i], "spawn") && !DefinedBefore(entries, i, node) ==>
              (match TextOf(entries[i], FParent)
               case None => forall n, p {:trigger Hangs(entries, i, n, p)} :: !Hangs(entries, i, n, p)
               case Some(parent) =>
                 && (DefinedBefore(entries, i, parent) <==> OpenedBefore(entries, i, parent))
                 && (KilledBefore(entries, i, parent) <==> RevokedBefore(entries, i, parent))
                 && (Hangs(entries, i, node, parent) <==> DefinedBefore(entries, i, parent))
                 && (forall n, p {:trigger Hangs(entries, i, n, p)} :: Hangs(entries, i, n, p) ==> n == node && p == parent)
                 && (Widens(entries, node, parent) <==>
                       match (AuthorityOf(entries, node), AuthorityOf(entries, parent))
                       case (Some(child), Some(p)) => !IsNarrower(child, p)
                       case _ => false))
    ensures !(Is(entries[i], "spawn") && !DefinedBefore(entries, i, node)) ==> forall n, p {:trigger Hangs(entries, i, n, p)} :: !Hangs(entries, i, n, p)
  {
    hide AuthorityOf, IsNarrower, DefinedBefore, KilledBefore, OpenedBefore, RevokedBefore, Widens;
    BeforeIff(entries, i, node);
    OneNode(entries, i, node);
    match TextOf(entries[i], FParent)
    case None =>
    case Some(parent) =>
      BeforeIff(entries, i, parent);
      WidensIff(entries, node, parent);
  }

  // ---- allows -------------------------------------------------------------

  /** An allow without the policy that passes a call through. */
  predicate IsCharged(e: Entry) { Is(e, "allow") && !Reads(e, FPolicy, "unlisted") }

  /** The context an allow states; anything Python counts as false states none. */
  predicate StatesContext(e: Entry, ctx: Context) {
    (FContext in e && e[FContext] == JObj(ctx))
    || (ctx == [] && (FContext !in e || e[FContext] in {JNull, JBool(false), JNum(0), JStr(""), JArr([])}))
  }

  /** The entry at `i` acts on a node opened before it, which holds `a`. */
  ghost predicate ActsOn(entries: seq<Entry>, i: nat, node: string, a: Authority)
    requires i < |entries|
  {
    Reads(entries[i], FNode, node) && OpenedBefore(entries, i, node) && Holds(entries, node, a)
  }

  predicate StaysWithin(e: Entry, a: Authority, scope: string, ctx: Context) {
    Reads(e, FScope, scope) && StatesContext(e, ctx) && Grants(a, scope, ctx, [])
  }

  ghost predicate EarnsByActing(entries: seq<Entry>, f: Finding, i: nat)
    requires i < |entries|
  {
    IsCharged(entries[i]) &&
    match f
    case UnknownNode => forall node, a :: !ActsOn(entries, i, node, a)
    case AllowAfterRevocation => exists node, a :: ActsOn(entries, i, node, a) && RevokedBefore(entries, i, node)
    case OutsideAuthority =>
      exists node, a :: ActsOn(entries, i, node, a) && !RevokedBefore(entries, i, node)
                        && forall scope, ctx :: !StaysWithin(entries[i], a, scope, ctx)
    case _ => false
  }

  lemma ChargedIff(e: Entry)
    ensures IsGated(e) <==> IsCharged(e)
  {
    hide EventOf;
    EventIff(e);
  }

  lemma ContextIff(e: Entry, ctx: Context)
    ensures ContextOf(e) == Some(ctx) <==> StatesContext(e, ctx)
  {
  }

  lemma WithinIff(e: Entry, a: Authority)
    ensures (exists scope, ctx :: StaysWithin(e, a, scope, ctx))
            <==> TextOf(e, FScope).Some? && ContextOf(e).Some? && Grants(a, TextOf(e, FScope).value, ContextOf(e).value, [])
  {
    hide Grants, ContextOf, StatesContext;
    forall ctx { ContextIff(e, ctx); }
    if TextOf(e, FScope).Some? && ContextOf(e).Some? && Grants(a, TextOf(e, FScope).value, ContextOf(e).value, []) {
      assert StaysWithin(e, a, TextOf(e, FScope).value, ContextOf(e).value);
    }
  }

  lemma ActorIff(entries: seq<Entry>, i: nat)
    requires i < |entries|
    ensures match TextOf(entries[i], FNode)
            case None => forall n, a :: !ActsOn(entries, i, n, a)
            case Some(node) =>
              && (DefinedBefore(entries, i, node) && AuthorityOf(entries, node).Some? ==> ActsOn(entries, i, node, AuthorityOf(entries, node).value))
              && (forall n, a :: ActsOn(entries, i, n, a) ==> n == node && DefinedBefore(entries, i, node) && AuthorityOf(entries, node) == Some(a))
              && (KilledBefore(entries, i, node) <==> RevokedBefore(entries, i, node))
  {
    hide DefinedBefore, OpenedBefore, KilledBefore, RevokedBefore, AuthorityOf, Holds;
    match TextOf(entries[i], FNode)
    case None =>
    case Some(node) =>
      BeforeIff(entries, i, node);
      forall a { HoldsIff(entries, node, a); }
  }

  lemma ContainmentIff(entries: seq<Entry>, f: Finding, i: nat)
    requires i < |entries|
    ensures f in ContainmentFindings(entries, i) <==> EarnsByActing(entries, f, i)
  {
    hide IsGated, IsCharged, AuthorityOf, DefinedBefore, KilledBefore, RevokedBefore, ActsOn, EarnsByActing, ContainmentFindings, TextOf;
    ChargedIff(entries[i]);
    ActorIff(entries, i);
    var node := TextOf(entries[i], FNode);
    if !IsGated(entries[i]) {
      NothingCharged(entries, f, i);
    } else if node.None? || !DefinedBefore(entries, i, node.value) || AuthorityOf(entries, node.value).None? {
      NobodyActs(entries, f, i);
    } else {
      ActorContainment(entries, f, i, node.value, AuthorityOf(entries, node.value).value);
    }
  }

  lemma NothingCharged(entries: seq<Entry>, f: Finding, i: nat)
    requires i < |entries| && !IsGated(entries[i]) && !IsCharged(entries[i])
    ensures ContainmentFindings(entries, i) == [] && !EarnsByActing(entries, f, i)
  {
    hide IsGated, IsCharged, AuthorityOf, DefinedBefore, KilledBefore, ActsOn, Grants, ContextOf;
  }

  lemma NobodyActs(entries: seq<Entry>, f: Finding, i: nat)
    requires i < |entries| && IsGated(entries[i]) && IsCharged(entries[i]) && forall n, a :: !ActsOn(entries, i, n, a)
    requires var node := TextOf(entries[i], FNode); node.None? || !DefinedBefore(entries, i, node.value) || AuthorityOf(entries, node.value).None?
    ensures ContainmentFindings(entries, i) == [UnknownNode] && (EarnsByActing(entries, f, i) <==> f == UnknownNode)
  {
    hide IsGated, IsCharged, AuthorityOf, DefinedBefore, KilledBefore, ActsOn, Grants, ContextOf, RevokedBefore, StaysWithin, TextOf;
  }

  predicate Remains(e: Entry, a: Authority) {
    match (TextOf(e, FScope), ContextOf(e))
    case (Some(scope), Some(ctx)) => Grants(a, scope, ctx, [])
    case _ => false
  }

  lemma ActorContainment(entries: seq<Entry>, f: Finding, i: nat, node: string, a: Authority)
    requires i < |entries| && IsGated(entries[i]) && IsCharged(entries[i]) && TextOf(entries[i], FNode) == Some(node)
    requires DefinedBefore(entries, i, node) && AuthorityOf(entries, node) == Some(a)
    requires ActsOn(entries, i, node, a) && forall n, x :: ActsOn(entries, i, n, x) ==> n == node && x == a
    requires KilledBefore(entries, i, node) <==> RevokedBefore(entries, i, node)
    ensures f in ContainmentFindings(entries, i) <==> EarnsByActing(entries, f, i)
  {
    hide IsGated, IsCharged, Grants, AuthorityOf, DefinedBefore, KilledBefore, RevokedBefore, ActsOn, StaysWithin, ContextOf, ContainmentFindings, TextOf;
    ActorFindings(entries, f, i, node, a);
    WithinIff(entries[i], a);
  }

  lemma ActorFindings(entries: seq<Entry>, f: Finding, i: nat, node: string, a: Authority)
    requires i < |entries| && IsGated(entries[i]) && TextOf(entries[i], FNode) == Some(node)
    requires DefinedBefore(entries, i, node) && AuthorityOf(entries, node) == Some(a)
    ensures f in ContainmentFindings(entries, i) <==>
              if KilledBefore(entries, i, node) then f == AllowAfterRevocation else f == OutsideAuthority && !Remains(entries[i], a)
  {
    hide IsGated, Grants, AuthorityOf, DefinedBefore, KilledBefore, ContextOf, TextOf;
  }

  // ---- the shape of an entry ----------------------------------------------

  ghost predicate EarnsByShape(version: Option<Json>, e: Entry, f: Finding) {
    match f
    case UnknownLedgerEvent =>
      && !Is(e, "root") && !Is(e, "spawn") && !Is(e, "spawn_denied") && !Is(e, "allow") && !Is(e, "deny") && !Is(e, "kill") && !Is(e, "done")
      && (Is(e, "outcome") ==> version == Some(JNum(1)))
    case UnknownLedgerFields => exists name :: FOther(name) in e
    case InvalidNode =>
      && !Is(e, "root") && !Is(e, "spawn") && !Is(e, "allow")
      && FNode in e && e[FNode] != JNull && forall node :: e[FNode] != JStr(node)
    case InvalidPolicy => FPolicy in e && Is(e, "allow") && version != Some(JNum(2)) && e[FPolicy] != JStr("unlisted")
    case PolicyOnNonAllow => FPolicy in e && !Is(e, "allow") && !(Is(e, "deny") && version == Some(JNum(2)))
    case _ => false
  }

  lemma EventShapeIff(version: Option<Json>, e: Entry, f: Finding)
    ensures f in EventFindings(version, e) <==> f in {UnknownLedgerEvent, UnknownLedgerFields} && EarnsByShape(version, e, f)
  {
    hide EventOf;
    EventIff(e);
    EventKnown(e);
    if g :| g in e && g.FOther? { assert FOther(g.name) in e; }
  }

  lemma NodeShapeIff(version: Option<Json>, e: Entry, f: Finding)
    ensures f in NodeFindings(e) <==> f == InvalidNode && EarnsByShape(version, e, f)
  {
    hide EventOf;
    EventIff(e);
    if FNode in e && e[FNode].JStr? { assert e[FNode] == JStr(e[FNode].text); }
  }

  lemma PolicyShapeIff(version: Option<Json>, e: Entry, f: Finding)
    ensures f in PolicyFindings(version, e) <==> f in {InvalidPolicy, PolicyOnNonAllow} && EarnsByShape(version, e, f)
  {
    hide EventOf;
    EventIff(e);
  }

  lemma EventKnown(e: Entry)
    ensures EventOf(e).Some? ==>
      Is(e, "root") || Is(e, "spawn") || Is(e, "spawn_denied") || Is(e, "allow") || Is(e, "deny") || Is(e, "kill") || Is(e, "done") || Is(e, "outcome")
  {
    hide EventOf, Is;
    EventIff(e);
    match EventOf(e)
    case Some(EventRoot) =>
    case Some(EventSpawn) =>
    case Some(EventSpawnDenied) =>
    case Some(EventAllow) =>
    case Some(EventDeny) =>
    case Some(EventKill) =>
    case Some(EventDone) =>
    case Some(EventOutcome) =>
    case None =>
  }

  // ---- the ledger as a whole ----------------------------------------------

  predicate OnlyRoot(entries: seq<Entry>, r: nat) {
    r < |entries| && Is(entries[r], "root") && forall j :: 0 <= j < |entries| && Is(entries[j], "root") ==> j == r
  }

  /** The version or the chain id an entry carries, absent and null alike, is the bundle's. */
  predicate HasBundleVersion(b: Bundle, e: Entry) {
    (if FV in e then e[FV] else JNull) == (if b.v.Some? then b.v.value else JNull)
  }

  predicate HasBundleChain(b: Bundle, e: Entry) {
    (if FChainId in e then e[FChainId] else JNull) == b.chainId && !IsComposite(b.chainId)
  }

  /** What an entry has to continue: 64 zeros at the start, the stored hash of the entry before after it. */
  predicate Precedes(entries: seq<Entry>, i: nat, p: string)
    requires i <= |entries|
  {
    if i == 0 then |p| == 64 && forall k :: 0 <= k < 64 ==> p[k] == '0' else Reads(entries[i - 1], FHash, p)
  }

  ghost predicate Links(hash: Hasher, entries: seq<Entry>, i: nat)
    requires i < |entries|
  {
    && FSeq in entries[i] && entries[i][FSeq] == JNum(i)
    && exists p :: Precedes(entries, i, p) && Reads(entries[i], FPrevHash, p) && Reproduced(hash, p, entries[i])
  }

  /** The stored hash is that of the other members after the previous digest. */
  predicate Reproduced(hash: Hasher, p: string, e: Entry) {
    match hash(p, e - {FHash}) case Some(d) => Reads(e, FHash, d) case None => false
  }

  lemma {:induction false} ZerosIff(n: nat, p: string)
    ensures p == Zeros(n) <==> |p| == n && forall k :: 0 <= k < n ==> p[k] == '0'
  {
    if n > 0 && |p| == n {
      ZerosIff(n - 1, p[..n - 1]);
      assert p == p[..n - 1] + [p[n - 1]];
    }
  }

  lemma LinksIff(hash: Hasher, entries: seq<Entry>, i: nat)
    requires i < |entries|
    ensures BreakAt(hash, entries, i).None? <==> Links(hash, entries, i)
  {
    hide Zeros;
    forall p ensures PrevOf(entries, i) == JStr(p) <==> Precedes(entries, i, p) { ZerosIff(64, p); }
    var prev := PrevOf(entries, i);
    if BreakAt(hash, entries, i).None? {
      assert Precedes(entries, i, prev.text) && Reads(entries[i], FPrevHash, prev.text) && Reproduced(hash, prev.text, entries[i]);
    }
    if p :| Precedes(entries, i, p) && Reads(entries[i], FPrevHash, p) && Reproduced(hash, p, entries[i]) { assert prev == JStr(p); }
  }

  /** Why an entry does not link: its number, else what it says it continues, else its hash. */
  lemma BreakIff(hash: Hasher, entries: seq<Entry>, i: nat)
    requires i < |entries| && !Links(hash, entries, i)
    ensures BreakAt(hash, entries, i) ==
              Some(if !(FSeq in entries[i] && entries[i][FSeq] == JNum(i)) then SeqGap
                   else if forall p :: !(Precedes(entries, i, p) && Reads(entries[i], FPrevHash, p)) then PrevHashMismatch
                   else HashMismatch)
  {
    hide Zeros, Links;
    LinksIff(hash, entries, i);
    forall p ensures PrevOf(entries, i) == JStr(p) <==> Precedes(entries, i, p) { ZerosIff(64, p); }
  }

  lemma {:induction false} FirstNotIff(entries: seq<Entry>, n: nat, p: Entry -> bool, i: nat)
    requires n <= |entries|
    ensures FirstNot(entries, n, p) == Some(i) <==> i < n && !p(entries[i]) && forall j :: 0 <= j < i ==> p(entries[j])
  {
    if n > 0 { FirstNotIff(entries, n - 1, p, i); }
  }

  lemma FirstBreakIff(hash: Hasher, entries: seq<Entry>, i: nat)
    ensures FirstBreak(hash, entries, |entries|) == Some(i) <==> i < |entries| && !Links(hash, entries, i) && forall j :: 0 <= j < i ==> Links(hash, entries, j)
  {
    hide BreakAt, Links;
    forall j | 0 <= j < |entries| ensures BreakAt(hash, entries, j).None? <==> Links(hash, entries, j) { LinksIff(hash, entries, j); }
    var found := FirstBreak(hash, entries, |entries|);
    if found.Some? {
      if i < |entries| && !Links(hash, entries, i) && forall j :: 0 <= j < i ==> Links(hash, entries, j) {
        assert StopsAt(hash, entries, i);
        StopsOnce(hash, entries, i, found.value);
      }
    } else if i < |entries| {
      assert BreakAt(hash, entries, i).None?;
    }
  }

  lemma RootsIff(entries: seq<Entry>)
    ensures var roots := RootsIn(entries, |entries|);
            && (|roots| == 1 <==> exists r: nat :: OnlyRoot(entries, r))
            && (|roots| == 1 ==> OnlyRoot(entries, roots[0]))
  {
    hide EventOf;
    var roots := RootsIn(entries, |entries|);
    forall j: nat | j < |entries| ensures j in roots <==> Is(entries[j], "root") { EventIff(entries[j]); }
    if |roots| == 1 {
      assert roots[0] in roots;
      forall j | 0 <= j < |entries| && Is(entries[j], "root") ensures j == roots[0] { assert j in roots; }
      assert OnlyRoot(entries, roots[0]);
    }
    if r: nat :| OnlyRoot(entries, r) {
      assert forall i: nat :: i < |entries| ==> (Is(entries[i], "root") <==> i == r);
      OneRoot(entries, r);
    }
  }

  lemma OneRoot(entries: seq<Entry>, r: nat)
    requires OnlyRoot(entries, r)
    ensures RootsIn(entries, |entries|) == [r]
  {
    hide EventOf;
    var p := (i: nat) => i < |entries| && IsRoot(entries[i]);
    forall i: nat | i < |entries| ensures p(i) == (i == r) { EventIff(entries[i]); }
    OnlyIndex(|entries|, p, r);
    IndicesAgree(|entries|, p, (i: nat) => i < |entries| && IsRoot(entries[i]));
  }

  lemma {:induction false} IndicesAgree(n: nat, p: nat -> bool, q: nat -> bool)
    requires forall i: nat :: p(i) == q(i)
    ensures Indices(n, p) == Indices(n, q)
  {
    if n > 0 { IndicesAgree(n - 1, p, q); }
  }

  /** An independently retained head the bundle does not end in. */
  predicate EndsElsewhere(b: Bundle, expected: Option<Head>) {
    match expected
    case Some(h) => h.lastSeq != |b.entries| - 1 || !Precedes(b.entries, |b.entries|, h.hash)
    case None => false
  }

  lemma HeadIff(b: Bundle, expected: Option<Head>)
    ensures HeadMatches(b.entries, expected) <==> !EndsElsewhere(b, expected)
  {
    hide Zeros;
    if expected.Some? { ZerosIff(64, expected.value.hash); }
  }

  /** A finding about the bundle as a whole. */
  ghost predicate EarnsAsWhole(b: Bundle, expected: Option<Head>, f: Finding) {
    match f
    case UnsupportedVersion => b.v != Some(JNum(1)) && b.v != Some(JNum(2))
    case MissingRoot => forall r: nat :: !OnlyRoot(b.entries, r)
    case ExpectedHeadMismatch => EndsElsewhere(b, expected)
    case _ => false
  }

  /** A finding about the first entry that fails a rule of the whole ledger. */
  ghost predicate EarnsAtFirst(hash: Hasher, b: Bundle, f: Finding, i: nat)
    requires i < |b.entries|
  {
    match f
    case RootVersionMismatch => OnlyRoot(b.entries, i) && !HasBundleVersion(b, b.entries[i])
    case MixedEntryVersions => !HasBundleVersion(b, b.entries[i]) && forall j :: 0 <= j < i ==> HasBundleVersion(b, b.entries[j])
    case ChainIdMismatch => !HasBundleChain(b, b.entries[i]) && forall j :: 0 <= j < i ==> HasBundleChain(b, b.entries[j])
    case BrokenChain => !Links(hash, b.entries, i) && forall j :: 0 <= j < i ==> Links(hash, b.entries, j)
    case _ => false
  }

  lemma VersionIff(b: Bundle, f: Finding, at: Option<nat>)
    ensures Failure(f, at) in VersionFailures(b) <==>
              match at
              case None => (f == UnsupportedVersion && b.v != Some(JNum(1)) && b.v != Some(JNum(2))) || (f == MissingRoot && forall r: nat :: !OnlyRoot(b.entries, r))
              case Some(i) =>
                i < |b.entries| &&
                ((f == RootVersionMismatch && OnlyRoot(b.entries, i) && !HasBundleVersion(b, b.entries[i]))
                 || (f == MixedEntryVersions && !HasBundleVersion(b, b.entries[i]) && forall j :: 0 <= j < i ==> HasBundleVersion(b, b.entries[j])))
  {
    hide OnlyRoot, MisversionedRoot, RootsIn, FirstNot;
    RootsIff(b.entries);
    if at.Some? {
      FirstNotIff(b.entries, |b.entries|, e => HasVersion(b, e), at.value);
      MisversionedIff(b, at.value);
    }
  }

  lemma MisversionedIff(b: Bundle, i: nat)
    ensures OnlyRoot(b.entries, i) ==> i < |b.entries|
    ensures MisversionedRoot(b) == Some(i) <==> OnlyRoot(b.entries, i) && !HasBundleVersion(b, b.entries[i])
  {
    hide OnlyRoot, RootsIn;
    RootsIff(b.entries);
    var roots := RootsIn(b.entries, |b.entries|);
    if |roots| == 1 {
      OneRootOnly(b.entries, roots[0], i);
    } else {
      assert !OnlyRoot(b.entries, i);
    }
  }

  lemma OneRootOnly(entries: seq<Entry>, r: nat, s: nat)
    requires OnlyRoot(entries, r)
    ensures r < |entries| && (OnlyRoot(entries, s) <==> s == r)
  {
    hide Is;
  }

  lemma ChainIff(hash: Hasher, b: Bundle, expected: Option<Head>, f: Finding, at: Option<nat>)
    ensures Failure(f, at) in ChainFailures(hash, b, expected) <==>
              match at
              case None => f == ExpectedHeadMismatch && EndsElsewhere(b, expected)
              case Some(i) => i < |b.entries| && (f == ChainIdMismatch || f == BrokenChain) && EarnsAtFirst(hash, b, f, i)
  {
    hide FirstBreak, Links, HeadMatches, EndsElsewhere;
    HeadIff(b, expected);
    if at.Some? {
      FirstNotIff(b.entries, |b.entries|, e => OnChain(b, e), at.value);
      FirstBreakIff(hash, b.entries, at.value);
    }
  }
}
