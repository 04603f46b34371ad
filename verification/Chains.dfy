/**
 * The live delegation tree (src/chain.ts): structural preconditions, the attenuation step, cascade
 * revocation, call meters, strikes and pending calls. The in-process seal is taken to hold.
 */
module Chains {
  import opened Results
  import opened Ceilings
  import opened Authorities
  import opened Meets
  import opened Lattice
  import opened Reasons
  import opened Numerals

  datatype Node = Node(
    parent: Option<string>, agent: string, authority: Authority, task: string,
    depth: nat, issuedAt: int, complete: bool, children: seq<string>)

  /** The calls of one node that await an outcome. */
  datatype PendingSet = PendingSet(node: string, calls: seq<string>)

  datatype ChainState = ChainState(
    chainId: string, maxDepth: int, maxFanout: int,
    nodes: map<string, Node>, nextId: nat,
    revoked: set<string>, banned: set<string>,
    calls: map<string, nat>, strikes: map<string, nat>,
    pending: seq<PendingSet>, outcomed: set<string>)

  function NodeId(chainId: string, i: nat): string {
    chainId + ":n" + Decimal(i)
  }

  lemma NodeIdInjective(chainId: string, i: nat, j: nat)
    requires NodeId(chainId, i) == NodeId(chainId, j)
    ensures i == j
  {
    var n := |chainId + ":n"|;
    assert NodeId(chainId, i)[n..] == Decimal(i) && NodeId(chainId, j)[n..] == Decimal(j);
    DecimalInjective(i, j);
  }

  // ---- delegation, as functions of the state ------------------------------

  predicate IsExpired(n: Node, now: int) {
    n.authority.ttl.Some? && now - n.issuedAt > n.authority.ttl.value
  }

  /** The structural preconditions of a delegation, in order; `None` permits it. */
  function DelegationError(st: ChainState, parentId: string, agent: string, now: int): Option<ReasonCode> {
    if parentId !in st.nodes then Some(NoAuthority)
    else if parentId in st.revoked then Some(ChainRevoked)
    else if agent in st.banned then Some(AgentBanned)
    else
      var parent := st.nodes[parentId];
      if IsExpired(parent, now) then Some(TtlExpired)
      else if parent.depth + 1 > st.maxDepth then Some(MaxDepth)
      else if |parent.children| + 1 > st.maxFanout then Some(MaxFanout)
      else None
  }

  function WithChild(st: ChainState, parentId: string, agent: string, authority: Authority, task: string, now: int): ChainState
    requires parentId in st.nodes
  {
    var id := NodeId(st.chainId, st.nextId);
    var parent := st.nodes[parentId];
    var child := Node(Some(parentId), agent, authority, task, parent.depth + 1, now, false, []);
    st.(nodes := st.nodes[id := child][parentId := parent.(children := parent.children + [id])], nextId := st.nextId + 1)
  }

  /** `addChild`: the child holds the meet, never a copy; the new node is the next id. */
  function AddChild(st: ChainState, parentId: string, agent: string, requested: Authority, task: string, now: int): Result<ChainState, ReasonCode> {
    match DelegationError(st, parentId, agent, now)
    case Some(code) => Err(code)
    case None =>
      match Meet(st.nodes[parentId].authority, requested)
      case None => Err(NotNarrower)
      case Some(m) =>
        if IsNarrower(m, st.nodes[parentId].authority) then Ok(WithChild(st, parentId, agent, m, task, now))
        else Err(Integrity)
  }

  // ---- the tree invariant -------------------------------------------------

  function AtLeastZero(n: int): nat { if n < 0 then 0 else n }

  ghost predicate NodeOk(st: ChainState, id: string)
    requires id in st.nodes
  {
    var n := st.nodes[id];
    && n.depth <= AtLeastZero(st.maxDepth)
    && Distinct(n.children) && |n.children| <= AtLeastZero(st.maxFanout)
    && (forall c :: c in n.children ==> c in st.nodes && st.nodes[c].parent == Some(id))
    && match n.parent
       case None => n.depth == 0 && id == NodeId(st.chainId, 0)
       case Some(p) => p in st.nodes && n.depth == st.nodes[p].depth + 1 && id in st.nodes[p].children
  }

  ghost predicate LinksInv(st: ChainState) {
    && (forall id {:trigger NodeOk(st, id)} :: id in st.nodes ==> NodeOk(st, id))
    && (forall id {:trigger Numbered(st, id)} :: id in st.nodes ==> Numbered(st, id))
    && (forall i: nat :: i < st.nextId ==> NodeId(st.chainId, i) in st.nodes)
  }

  /** Node ids are the numerals below `nextId`; parents are one level up and list their children; depth and
      fanout are bounded; revocation is closed under children; every node a banned agent holds is revoked. */
  ghost predicate TreeInv(st: ChainState) {
    && LinksInv(st)
    && RevocationClosed(st)
    && BansHold(st)
  }

  ghost predicate Numbered(st: ChainState, id: string) {
    exists i: nat :: i < st.nextId && id == NodeId(st.chainId, i)
  }

  ghost predicate RevocationClosed(st: ChainState) {
    && st.revoked <= st.nodes.Keys
    && forall id, c :: id in st.revoked && c in st.nodes[id].children ==> c in st.revoked
  }

  ghost predicate BansHold(st: ChainState) {
    forall id :: id in st.nodes && st.nodes[id].agent in st.banned ==> id in st.revoked
  }

  /** Monotonic attenuation: a child's authority is narrower than its parent's. */
  ghost predicate Attenuated(nodes: map<string, Node>) {
    forall id :: id in nodes ==>
      && Valid(nodes[id].authority)
      && (nodes[id].parent.Some? && nodes[id].parent.value in nodes ==>
            IsNarrower(nodes[id].authority, nodes[nodes[id].parent.value].authority))
  }

  lemma NextIdIsNew(st: ChainState)
    requires TreeInv(st)
    ensures NodeId(st.chainId, st.nextId) !in st.nodes
  {
    var id := NodeId(st.chainId, st.nextId);
    if id in st.nodes {
      assert Numbered(st, id);
      var i: nat :| i < st.nextId && id == NodeId(st.chainId, i);
      NodeIdInjective(st.chainId, i, st.nextId);
    }
  }

  /** A permitted delegation keeps the tree. */
  lemma WithChildKeepsTree(st: ChainState, parentId: string, agent: string, m: Authority, task: string, now: int)
    requires TreeInv(st) && DelegationError(st, parentId, agent, now).None?
    ensures TreeInv(WithChild(st, parentId, agent, m, task, now))
  {
    var st' := WithChild(st, parentId, agent, m, task, now);
    NextIdIsNew(st);
    WithChildKeepsRevocation(st, parentId, agent, m, task, now);
    hide Meet, IsNarrower, NodeId, NodeOk, RevocationClosed, BansHold, WithChild;
    forall x | x in st'.nodes ensures NodeOk(st', x) { WithChildNode(st, parentId, agent, m, task, now, x); }
    forall x | x in st'.nodes ensures Numbered(st', x) { WithChildNumbered(st, parentId, agent, m, task, now, x); }
    WithChildHasIds(st, parentId, agent, m, task, now);
  }

  lemma WithChildHasIds(st: ChainState, parentId: string, agent: string, m: Authority, task: string, now: int)
    requires TreeInv(st) && parentId in st.nodes
    ensures var st' := WithChild(st, parentId, agent, m, task, now); forall i: nat :: i < st'.nextId ==> NodeId(st'.chainId, i) in st'.nodes
  {
    hide NodeOk, NodeId, RevocationClosed, BansHold, Numbered;
  }

  lemma WithChildNumbered(st: ChainState, parentId: string, agent: string, m: Authority, task: string, now: int, x: string)
    requires TreeInv(st) && parentId in st.nodes && x in WithChild(st, parentId, agent, m, task, now).nodes
    ensures Numbered(WithChild(st, parentId, agent, m, task, now), x)
  {
    hide NodeOk, NodeId, RevocationClosed, BansHold;
    if x in st.nodes { assert Numbered(st, x); }
  }

  lemma WithChildKeepsRevocation(st: ChainState, parentId: string, agent: string, m: Authority, task: string, now: int)
    requires TreeInv(st) && DelegationError(st, parentId, agent, now).None? && NodeId(st.chainId, st.nextId) !in st.nodes
    ensures RevocationClosed(WithChild(st, parentId, agent, m, task, now)) && BansHold(WithChild(st, parentId, agent, m, task, now))
  {
    hide Meet, IsNarrower, NodeId, Numbered;
    assert NodeOk(st, parentId);
  }

  lemma WithChildNode(st: ChainState, parentId: string, agent: string, m: Authority, task: string, now: int, x: string)
    requires TreeInv(st) && DelegationError(st, parentId, agent, now).None? && NodeId(st.chainId, st.nextId) !in st.nodes
    requires x in WithChild(st, parentId, agent, m, task, now).nodes
    ensures NodeOk(WithChild(st, parentId, agent, m, task, now), x)
  {
    assert NodeOk(st, parentId);
    if x in st.nodes { assert NodeOk(st, x); }
  }

  lemma WithChildAttenuates(st: ChainState, parentId: string, agent: string, m: Authority, task: string, now: int)
    requires TreeInv(st) && Attenuated(st.nodes) && parentId in st.nodes
    requires Valid(m) && IsNarrower(m, st.nodes[parentId].authority)
    ensures Attenuated(WithChild(st, parentId, agent, m, task, now).nodes)
  {
    NextIdIsNew(st);
    var nodes' := WithChild(st, parentId, agent, m, task, now).nodes;
    var id := NodeId(st.chainId, st.nextId);
    forall x | x in nodes'
      ensures Valid(nodes'[x].authority)
      ensures nodes'[x].parent.Some? && nodes'[x].parent.value in nodes' ==>
                IsNarrower(nodes'[x].authority, nodes'[nodes'[x].parent.value].authority)
    {
      if x != id {
        assert NodeOk(st, x);
        assert nodes'[x].authority == st.nodes[x].authority && nodes'[x].parent == st.nodes[x].parent;
      }
    }
  }

  // ---- ancestry -----------------------------------------------------------

  /** `id` is `ancestor` or below it. */
  predicate Descends(st: ChainState, id: string, ancestor: string)
    decreases if id in st.nodes then st.nodes[id].depth else 0
  {
    id in st.nodes &&
    (id == ancestor ||
     match st.nodes[id].parent
     case None => false
     case Some(p) => p in st.nodes && st.nodes[p].depth < st.nodes[id].depth && Descends(st, p, ancestor))
  }

  function Subtree(st: ChainState, root: string): set<string> {
    set id | id in st.nodes && Descends(st, id, root)
  }

  /** Every node's authority is narrower than every proper ancestor's. */
  lemma {:induction false} NarrowerThanAncestors(st: ChainState, id: string, ancestor: string)
    requires TreeInv(st) && Attenuated(st.nodes) && Descends(st, id, ancestor) && id != ancestor
    ensures ancestor in st.nodes && IsNarrower(st.nodes[id].authority, st.nodes[ancestor].authority)
    decreases st.nodes[id].depth
  {
    assert NodeOk(st, id);
    var p := st.nodes[id].parent.value;
    if p != ancestor {
      NarrowerThanAncestors(st, p, ancestor);
      NarrowerTransitive(st.nodes[id].authority, st.nodes[p].authority, st.nodes[ancestor].authority);
    }
  }

  /** Parent links are acyclic: an ancestor's ancestor is never the node itself. */
  lemma {:induction false} DescentIsAcyclic(st: ChainState, id: string, ancestor: string)
    requires TreeInv(st) && Descends(st, id, ancestor)
    ensures ancestor in st.nodes && st.nodes[ancestor].depth <= st.nodes[id].depth
    ensures Descends(st, ancestor, id) ==> id == ancestor
    decreases st.nodes[id].depth
  {
    assert NodeOk(st, id);
    if id != ancestor {
      DescentIsAcyclic(st, st.nodes[id].parent.value, ancestor);
      DescentDepth(st, ancestor, id);
    }
  }

  lemma {:induction false} DescentDepth(st: ChainState, id: string, ancestor: string)
    requires TreeInv(st) && id in st.nodes
    ensures Descends(st, id, ancestor) && id != ancestor ==> ancestor in st.nodes && st.nodes[ancestor].depth < st.nodes[id].depth
    decreases st.nodes[id].depth
  {
    assert NodeOk(st, id);
    if Descends(st, id, ancestor) && id != ancestor {
      DescentDepth(st, st.nodes[id].parent.value, ancestor);
    }
  }

  lemma {:induction false} ClosedHoldsSubtree(st: ChainState, closed: set<string>, id: string, root: string)
    requires TreeInv(st) && Descends(st, id, root) && root in closed
    requires forall x, c :: x in closed && x in st.nodes && c in st.nodes[x].children ==> c in closed
    ensures id in closed
    decreases st.nodes[id].depth
  {
    assert NodeOk(st, id);
    if id != root { ClosedHoldsSubtree(st, closed, st.nodes[id].parent.value, root); }
  }

  lemma ChildDescends(st: ChainState, id: string, c: string, root: string)
    requires TreeInv(st) && Descends(st, id, root) && c in st.nodes[id].children
    ensures c in st.nodes && Descends(st, c, root)
  {
    assert NodeOk(st, id);
    assert NodeOk(st, c);
  }

  /** A revoked node's children are revoked or still on the stack. */
  ghost predicate Pushed(nodes: map<string, Node>, revoked: set<string>, stack: seq<string>) {
    forall id, c :: id in revoked && id in nodes && c in nodes[id].children ==> c in revoked || c in stack
  }

  /** The worklist holds only the subtree, and what it still owes. */
  ghost predicate WorkInv(st: ChainState, root: string, revoked: set<string>, stack: seq<string>) {
    && st.revoked <= revoked <= st.revoked + Subtree(st, root)
    && (forall id :: id in stack && id in st.nodes ==> id in Subtree(st, root))
    && Pushed(st.nodes, revoked, stack)
    && (root in st.nodes ==> root in revoked || root in stack)
  }

  lemma WorkPop(st: ChainState, root: string, revoked: set<string>, rest: seq<string>, id: string)
    requires TreeInv(st) && WorkInv(st, root, revoked, rest + [id])
    requires id in revoked || id !in st.nodes
    ensures WorkInv(st, root, revoked, rest)
  {
    forall x, c | x in revoked && x in st.nodes && c in st.nodes[x].children ensures c in revoked || c in rest {
      assert NodeOk(st, x);
      assert c in revoked || c in rest + [id];
    }
    assert forall x :: x in rest ==> x in rest + [id];
  }

  lemma WorkRevoke(st: ChainState, root: string, revoked: set<string>, rest: seq<string>, id: string)
    requires TreeInv(st) && WorkInv(st, root, revoked, rest + [id])
    requires id !in revoked && id in st.nodes
    ensures WorkInv(st, root, revoked + {id}, rest + st.nodes[id].children)
  {
    var stack := rest + [id];
    assert id in stack;
    forall c | c in st.nodes[id].children ensures c in Subtree(st, root) { ChildDescends(st, id, c, root); }
    assert forall x :: x in rest ==> x in stack;
    forall x, c | x in revoked + {id} && x in st.nodes && c in st.nodes[x].children
      ensures c in revoked + {id} || c in rest + st.nodes[id].children
    {
      if x in revoked { assert c in revoked || c in stack; }
    }
  }

  /** An empty worklist leaves exactly the old set and the subtree, closed under children. */
  lemma ClosedRevocation(st: ChainState, root: string, revoked: set<string>)
    requires TreeInv(st) && WorkInv(st, root, revoked, [])
    ensures revoked == st.revoked + Subtree(st, root) && TreeInv(st.(revoked := revoked))
  {
    forall id | id in Subtree(st, root) ensures id in revoked {
      DescentIsAcyclic(st, id, root);
      ClosedHoldsSubtree(st, revoked, id, root);
    }
    RevokedTree(st, revoked);
  }

  /** The links do not depend on what is revoked or banned. */
  lemma SameLinks(st: ChainState, st': ChainState)
    requires LinksInv(st) && st'.nodes == st.nodes && st'.nextId == st.nextId && st'.chainId == st.chainId
    requires st'.maxDepth == st.maxDepth && st'.maxFanout == st.maxFanout
    ensures LinksInv(st')
  {
    forall id | id in st'.nodes ensures NodeOk(st', id) { assert NodeOk(st, id); }
    forall id | id in st'.nodes ensures Numbered(st', id) { assert Numbered(st, id); }
  }

  /** Meters, strikes and pending calls are no part of the tree. */
  lemma SideTablesKeepTree(st: ChainState, st': ChainState)
    requires TreeInv(st) && st' == st.(calls := st'.calls, strikes := st'.strikes, pending := st'.pending, outcomed := st'.outcomed)
    ensures TreeInv(st')
  {
    hide NodeOk, Numbered;
    SameLinks(st, st');
  }

  lemma MarkedLinks(st: ChainState, id: string)
    requires LinksInv(st) && id in st.nodes
    ensures LinksInv(st.(nodes := st.nodes[id := st.nodes[id].(complete := true)]))
  {
    hide NodeId;
    var st' := st.(nodes := st.nodes[id := st.nodes[id].(complete := true)]);
    forall x | x in st'.nodes ensures NodeOk(st', x) { assert NodeOk(st, x); }
    forall x | x in st'.nodes ensures Numbered(st', x) { assert Numbered(st, x); }
  }

  /** Completing a node changes neither the tree nor an authority. */
  lemma MarkedKeepsTree(st: ChainState, id: string)
    requires TreeInv(st) && Attenuated(st.nodes) && id in st.nodes
    ensures var nodes := st.nodes[id := st.nodes[id].(complete := true)]; TreeInv(st.(nodes := nodes)) && Attenuated(nodes)
  {
    MarkedLinks(st, id);
    hide LinksInv, Authorities.Valid, IsNarrower;
  }

  lemma RevokedTree(st: ChainState, revoked: set<string>)
    requires TreeInv(st) && st.revoked <= revoked <= st.nodes.Keys && Pushed(st.nodes, revoked, [])
    ensures TreeInv(st.(revoked := revoked))
  {
    SameLinks(st, st.(revoked := revoked));
  }

  lemma SubtreeOfHeld(mid: ChainState, st: ChainState, agent: string, id: string)
    requires mid.nodes == st.nodes && id in st.nodes && st.nodes[id].agent == agent
    ensures Subtree(mid, id) <= AgentSubtrees(st, agent) && id in Subtree(mid, id)
  {
    forall x | x in Subtree(mid, id) ensures Descends(st, x, id) { SameTreeSameDescent(mid, st, x, id); }
  }

  /** The agent's nodes seen so far are revoked, and nothing outside the agent's subtrees is. */
  ghost predicate AgentWork(st: ChainState, agent: string, revoked: set<string>, i: nat) {
    && st.revoked <= revoked <= st.revoked + AgentSubtrees(st, agent)
    && forall j: nat {:trigger NodeId(st.chainId, j)} ::
         j < i && NodeId(st.chainId, j) in st.nodes && st.nodes[NodeId(st.chainId, j)].agent == agent ==> NodeId(st.chainId, j) in revoked
  }

  /** Once every node the agent holds is revoked, so is everything below, and the agent can be banned. */
  lemma AgentRevoked(st: ChainState, agent: string, revoked: set<string>)
    requires TreeInv(st) && TreeInv(st.(revoked := revoked))
    requires AgentWork(st, agent, revoked, st.nextId)
    ensures revoked == st.revoked + AgentSubtrees(st, agent)
    ensures TreeInv(st.(revoked := revoked, banned := st.banned + {agent}))
  {
    forall id | id in AgentSubtrees(st, agent) ensures id in revoked {
      var a :| a in st.nodes && st.nodes[a].agent == agent && Descends(st, id, a);
      assert Numbered(st, a);
      ClosedHoldsSubtree(st, revoked, id, a);
    }
    var st' := st.(revoked := revoked, banned := st.banned + {agent});
    SameLinks(st, st');
    forall id | id in st'.nodes && st'.nodes[id].agent in st'.banned ensures id in revoked {
      if st.nodes[id].agent == agent { assert Numbered(st, id); }
    }
  }

  /** All nodes an agent holds, and everything below them. */
  function AgentSubtrees(st: ChainState, agent: string): set<string> {
    set id | id in st.nodes && exists a :: a in st.nodes && st.nodes[a].agent == agent && Descends(st, id, a)
  }

  // ---- the class ----------------------------------------------------------

  function MeterKeyFor(nodeId: string, pattern: string): string { nodeId + " " + pattern }

  function Count(m: map<string, nat>, k: string): nat { if k in m then m[k] else 0 }

  // ---- pending calls, in the insertion order of the source's Map ----------

  function PendingFor(pending: seq<PendingSet>, nodeId: string): seq<string> {
    if pending == [] then []
    else if pending[0].node == nodeId then pending[0].calls
    else PendingFor(pending[1..], nodeId)
  }

  function Register(pending: seq<PendingSet>, nodeId: string, callId: string): seq<PendingSet> {
    if pending == [] then [PendingSet(nodeId, [callId])]
    else if pending[0].node == nodeId then [PendingSet(nodeId, AddTo(pending[0].calls, callId))] + pending[1..]
    else [pending[0]] + Register(pending[1..], nodeId, callId)
  }

  /** Remove the call from the first node that holds it. */
  function Resolve(pending: seq<PendingSet>, callId: string): seq<PendingSet> {
    if pending == [] then []
    else if callId in pending[0].calls then
      [PendingSet(pending[0].node, Filter(pending[0].calls, c => c != callId))] + pending[1..]
    else [pending[0]] + Resolve(pending[1..], callId)
  }

  /** The node whose call it is. */
  function HolderOf(pending: seq<PendingSet>, callId: string): Option<string> {
    if pending == [] then None
    else if callId in pending[0].calls then Some(pending[0].node)
    else HolderOf(pending[1..], callId)
  }

  /** The first node that holds the call is the one it is resolved on. */
  lemma {:induction false} ResolvedAt(pending: seq<PendingSet>, callId: string, i: nat)
    requires i <= |pending| && forall j :: 0 <= j < i ==> callId !in pending[j].calls
    ensures i == |pending| ==> Resolve(pending, callId) == pending && HolderOf(pending, callId) == None
    ensures i < |pending| && callId in pending[i].calls ==>
              && HolderOf(pending, callId) == Some(pending[i].node)
              && Resolve(pending, callId) == pending[i := PendingSet(pending[i].node, Filter(pending[i].calls, c => c != callId))]
  {
    if i > 0 { ResolvedAt(pending[1..], callId, i - 1); }
  }

  lemma {:induction false} RegisterAt(pending: seq<PendingSet>, nodeId: string, callId: string, n: string)
    ensures PendingFor(Register(pending, nodeId, callId), n)
            == if n == nodeId then AddTo(PendingFor(pending, n), callId) else PendingFor(pending, n)
  {
    if pending != [] && pending[0].node != nodeId {
      RegisterAt(pending[1..], nodeId, callId, n);
      assert Register(pending, nodeId, callId)[1..] == Register(pending[1..], nodeId, callId);
    } else if pending != [] {
      assert Register(pending, nodeId, callId)[1..] == pending[1..];
    }
  }

  /** A call pending on one node only is resolved there, and every other pending call stays. */
  lemma {:induction false} ResolveAt(pending: seq<PendingSet>, callId: string, n: string)
    requires forall i, j :: 0 <= i < j < |pending| ==> pending[i].node != pending[j].node
    requires forall i, j :: 0 <= i < j < |pending| ==> !(callId in pending[i].calls && callId in pending[j].calls)
    ensures forall c :: c in PendingFor(Resolve(pending, callId), n) <==> c in PendingFor(pending, n) && c != callId
  {
    if pending != [] {
      if callId in pending[0].calls {
        assert Resolve(pending, callId)[1..] == pending[1..];
        PendingAmong(pending[1..], n);
      } else {
        ResolveAt(pending[1..], callId, n);
        assert Resolve(pending, callId)[1..] == Resolve(pending[1..], callId);
      }
    }
  }

  ghost predicate HeldBy(pending: seq<PendingSet>, n: string, c: string) {
    exists i :: 0 <= i < |pending| && pending[i].node == n && c in pending[i].calls
  }

  lemma {:induction false} PendingAmong(pending: seq<PendingSet>, n: string)
    ensures forall c :: c in PendingFor(pending, n) ==> HeldBy(pending, n, c)
  {
    if pending != [] && pending[0].node != n {
      PendingAmong(pending[1..], n);
      forall c | c in PendingFor(pending, n) ensures HeldBy(pending, n, c) {
        assert HeldBy(pending[1..], n, c);
        var i :| 0 <= i < |pending[1..]| && pending[1..][i].node == n && c in pending[1..][i].calls;
        assert pending[i + 1].node == n && c in pending[i + 1].calls;
      }
    }
  }

  class Chain {
    const chainId: string
    const maxDepth: int
    const maxFanout: int
    var nodes: map<string, Node>
    var nextId: nat
    var revokedNodes: set<string>
    var bannedAgents: set<string>
    var calls: map<string, nat>
    var strikes: map<string, nat>
    var pending: seq<PendingSet>
    var outcomed: set<string>

    ghost function State(): ChainState
      reads this
    {
      ChainState(chainId, maxDepth, maxFanout, nodes, nextId, revokedNodes, bannedAgents, calls, strikes, pending, outcomed)
    }

    constructor (chainId: string, maxDepth: int, maxFanout: int)
      ensures State() == ChainState(chainId, maxDepth, maxFanout, map[], 0, {}, {}, map[], map[], [], {})
    {
      this.chainId, this.maxDepth, this.maxFanout := chainId, maxDepth, maxFanout;
      nodes, nextId, revokedNodes, bannedAgents := map[], 0, {}, {};
      calls, strikes, pending, outcomed := map[], map[], [], {};
    }

    method NewNodeId() returns (id: string)
      modifies this`nextId
      ensures id == NodeId(chainId, old(nextId)) && nextId == old(nextId) + 1
    {
      id := NodeId(chainId, nextId);
      nextId := nextId + 1;
    }

    method AddRoot(agent: string, authority: Authority, task: string, now: int) returns (id: string)
      requires nodes == map[] && nextId == 0 && revokedNodes == {} && bannedAgents == {} && Valid(authority)
      modifies this`nextId, this`nodes
      ensures id == NodeId(chainId, 0)
      ensures nodes == map[id := Node(None, agent, authority, task, 0, now, false, [])] && nextId == 1
      ensures TreeInv(State())
    {
      id := NewNodeId();
      nodes := nodes[id := Node(None, agent, authority, task, 0, now, false, [])];
    }

    /** The source's `addChild`; `Err` carries the reason of the `AuthorityError`. */
    method AddChildNode(parentId: string, agent: string, requested: Authority, task: string, now: int)
      returns (r: Result<string, ReasonCode>)
      requires TreeInv(State()) && Attenuated(nodes) && Valid(requested)
      modifies this`nextId, this`nodes
      ensures TreeInv(State()) && Attenuated(nodes)
      ensures var spec := AddChild(old(State()), parentId, agent, requested, task, now);
              match r
              case Ok(id) => spec == Ok(State()) && id == NodeId(chainId, old(nextId))
              case Err(code) => spec == Err(code) && State() == old(State())
    {
      var err := FindDelegationError(parentId, agent, now);
      if err.Some? { return Err(err.value); }
      var granted := MeetOf(nodes[parentId].authority, requested);
      if granted.None? { return Err(NotNarrower); }
      var narrower := IsNarrowerThan(granted.value, nodes[parentId].authority);
      if !narrower { return Err(Integrity); }
      MeetIsValid(nodes[parentId].authority, requested);
      var id := InsertChild(parentId, agent, granted.value, task, now);
      return Ok(id);
    }

    method FindDelegationError(parentId: string, agent: string, now: int) returns (err: Option<ReasonCode>)
      ensures err == DelegationError(State(), parentId, agent, now)
    {
      if parentId !in nodes { return Some(NoAuthority); }
      if parentId in revokedNodes { return Some(ChainRevoked); }
      if agent in bannedAgents { return Some(AgentBanned); }
      var parent := nodes[parentId];
      if IsExpired(parent, now) { return Some(TtlExpired); }
      if parent.depth + 1 > maxDepth { return Some(MaxDepth); }
      if |parent.children| + 1 > maxFanout { return Some(MaxFanout); }
      return None;
    }

    method InsertChild(parentId: string, agent: string, granted: Authority, task: string, now: int) returns (id: string)
      requires TreeInv(State()) && Attenuated(nodes) && DelegationError(State(), parentId, agent, now).None?
      requires Valid(granted) && IsNarrower(granted, nodes[parentId].authority)
      modifies this`nextId, this`nodes
      ensures State() == WithChild(old(State()), parentId, agent, granted, task, now)
      ensures id == NodeId(chainId, old(nextId))
      ensures TreeInv(State()) && Attenuated(nodes)
    {
      WithChildKeepsTree(State(), parentId, agent, granted, task, now);
      WithChildAttenuates(State(), parentId, agent, granted, task, now);
      NextIdIsNew(State());
      var parent := nodes[parentId];
      id := NewNodeId();
      nodes := nodes[id := Node(Some(parentId), agent, granted, task, parent.depth + 1, now, false, [])];
      nodes := nodes[parentId := parent.(children := parent.children + [id])];
    }

    /** Revoke a node and its whole subtree by a worklist that skips what is already revoked. */
    method Revoke(nodeId: string) returns (revokedNow: seq<string>)
      requires TreeInv(State())
      modifies this`revokedNodes
      ensures TreeInv(State())
      ensures revokedNodes == old(revokedNodes) + Subtree(old(State()), nodeId)
      ensures Distinct(revokedNow)
      ensures forall id :: id in revokedNow <==> id in revokedNodes && id !in old(revokedNodes)
    {
      ghost var st := State();
      revokedNow := [];
      var stack := [nodeId];
      while stack != []
        invariant Distinct(revokedNow)
        invariant forall id :: id in revokedNow <==> id in revokedNodes && id !in st.revoked
        invariant WorkInv(st, nodeId, revokedNodes, stack)
        decreases nodes.Keys - revokedNodes, |stack|
      {
        var id := stack[|stack| - 1];
        assert stack == stack[..|stack| - 1] + [id];
        stack := stack[..|stack| - 1];
        if id in revokedNodes || id !in nodes {
          WorkPop(st, nodeId, revokedNodes, stack, id);
          continue;
        }
        WorkRevoke(st, nodeId, revokedNodes, stack, id);
        revokedNodes := revokedNodes + {id};
        revokedNow := revokedNow + [id];
        stack := stack + nodes[id].children;
      }
      ClosedRevocation(st, nodeId, revokedNodes);
    }

    /** Revoke every node an agent holds, with their subtrees, and ban the agent. */
    method RevokeAgent(agent: string) returns (revokedNow: seq<string>)
      requires TreeInv(State())
      modifies this`revokedNodes, this`bannedAgents
      ensures TreeInv(State())
      ensures bannedAgents == old(bannedAgents) + {agent}
      ensures revokedNodes == old(revokedNodes) + AgentSubtrees(old(State()), agent)
      ensures Distinct(revokedNow)
      ensures forall id :: id in revokedNow <==> id in revokedNodes && id !in old(revokedNodes)
    {
      ghost var st := State();
      hide Subtree, AgentSubtrees, RevocationClosed, BansHold;
      revokedNow := [];
      for i := 0 to nextId
        invariant TreeInv(st.(revoked := revokedNodes))
        invariant bannedAgents == st.banned
        invariant Distinct(revokedNow)
        invariant forall id :: id in revokedNow <==> id in revokedNodes && id !in st.revoked
        invariant AgentWork(st, agent, revokedNodes, i)
      {
        var id := NodeId(chainId, i);
        if nodes[id].agent == agent && id !in revokedNodes {
          ghost var mid := State();
          SubtreeOfHeld(mid, st, agent, id);
          var more := Revoke(id);
          DistinctConcat(revokedNow, more);
          revokedNow := revokedNow + more;
        }
      }
      AgentRevoked(st, agent, revokedNodes);
      bannedAgents := bannedAgents + {agent};
    }

    method CallsSoFar(nodeId: string, pattern: string) returns (n: nat)
      ensures n == Count(calls, MeterKeyFor(nodeId, pattern))
    {
      n := Count(calls, MeterKeyFor(nodeId, pattern));
    }

    method CountCall(nodeId: string, pattern: string)
      modifies this`calls
      ensures calls == old(calls)[MeterKeyFor(nodeId, pattern) := Count(old(calls), MeterKeyFor(nodeId, pattern)) + 1]
    {
      var k := MeterKeyFor(nodeId, pattern);
      calls := calls[k := Count(calls, k) + 1];
    }

    /** Undo one `CountCall`. */
    method UncountCall(nodeId: string, pattern: string)
      modifies this`calls
      ensures var k := MeterKeyFor(nodeId, pattern); calls == old(calls)[k := AtLeastZero(Count(old(calls), k) - 1)]
    {
      var k := MeterKeyFor(nodeId, pattern);
      calls := calls[k := AtLeastZero(Count(calls, k) - 1)];
    }

    method RecordStrike(key: string) returns (n: nat)
      modifies this`strikes
      ensures n == Count(old(strikes), key) + 1 && strikes == old(strikes)[key := n]
    {
      n := Count(strikes, key) + 1;
      strikes := strikes[key := n];
    }

    method RegisterPending(nodeId: string, callId: string)
      modifies this`pending
      ensures pending == Register(old(pending), nodeId, callId)
    {
      var i := 0;
      while i < |pending| && pending[i].node != nodeId
        invariant 0 <= i <= |pending| && pending == old(pending)
        invariant Register(pending, nodeId, callId) == pending[..i] + Register(pending[i..], nodeId, callId)
      {
        i := i + 1;
      }
      if i < |pending| {
        pending := pending[i := PendingSet(nodeId, AddTo(pending[i].calls, callId))];
      } else {
        pending := pending + [PendingSet(nodeId, [callId])];
      }
    }

    /** `null` when the call was not pending anywhere. */
    method ResolvePending(callId: string) returns (node: Option<string>)
      modifies this`pending
      ensures pending == Resolve(old(pending), callId)
      ensures node == HolderOf(old(pending), callId)
    {
      var i := 0;
      while i < |pending|
        invariant 0 <= i <= |pending| && pending == old(pending)
        invariant forall j :: 0 <= j < i ==> callId !in pending[j].calls
      {
        if callId in pending[i].calls {
          ResolvedAt(pending, callId, i);
          node := Some(pending[i].node);
          pending := pending[i := PendingSet(pending[i].node, Filter(pending[i].calls, c => c != callId))];
          return;
        }
        i := i + 1;
      }
      ResolvedAt(pending, callId, i);
      node := None;
    }

    method MarkOutcomed(callId: string)
      modifies this`outcomed
      ensures outcomed == old(outcomed) + {callId}
    {
      outcomed := outcomed + {callId};
    }

    method MarkComplete(nodeId: string)
      requires nodeId in nodes
      modifies this`nodes
      ensures nodes == old(nodes)[nodeId := old(nodes)[nodeId].(complete := true)]
    {
      nodes := nodes[nodeId := nodes[nodeId].(complete := true)];
    }
  }

  lemma {:induction false} SameTreeSameDescent(x: ChainState, y: ChainState, id: string, ancestor: string)
    requires x.nodes == y.nodes
    ensures Descends(x, id, ancestor) == Descends(y, id, ancestor)
    decreases if id in x.nodes then x.nodes[id].depth else 0
  {
    if id in x.nodes && id != ancestor {
      match x.nodes[id].parent
      case Some(p) =>
        if p in x.nodes && x.nodes[p].depth < x.nodes[id].depth { SameTreeSameDescent(x, y, p, ancestor); }
      case None =>
    }
  }
}
