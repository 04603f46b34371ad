/**
 * The passes of `verifyBundle` as the source runs them: loops over the entries that update tables and a
 * failure log. Each reports exactly the failures its rule collects.
 */
module EvidencePasses {
  import opened Results
  import opened PlainJson
  import opened Authorities
  import opened AuthorityWire
  import opened Audit
  import opened Ledger
  import opened EvidenceRules
  import opened Evidence

  /** The nodes the entries below `i` define. */
  ghost predicate TracksDefined(entries: seq<Entry>, i: nat, known: set<string>)
    requires i <= |entries|
  {
    forall n :: n in known <==> DefinedBefore(entries, i, n)
  }

  /** The nodes the kills below `i` name. */
  ghost predicate TracksKilled(entries: seq<Entry>, i: nat, killed: set<string>)
    requires i <= |entries|
  {
    forall n :: n in killed <==> KilledBefore(entries, i, n)
  }

  lemma DefinedNext(entries: seq<Entry>, i: nat, known: set<string>)
    requires i < |entries| && TracksDefined(entries, i, known)
    ensures var node := TextOf(entries[i], FNode);
            TracksDefined(entries, i + 1, if IsDefinition(entries[i]) && node.Some? then known + {node.value} else known)
  {
    forall n ensures DefinedBefore(entries, i + 1, n) <==> DefinedBefore(entries, i, n) || Defines(entries[i], n) {}
  }

  lemma KilledNext(entries: seq<Entry>, i: nat, killed: set<string>, killed': set<string>)
    requires i < |entries| && TracksKilled(entries, i, killed)
    requires forall n :: n in killed' <==> n in killed || Kills(entries[i], n)
    ensures TracksKilled(entries, i + 1, killed')
  {
    forall n ensures KilledBefore(entries, i + 1, n) <==> KilledBefore(entries, i, n) || Kills(entries[i], n) {}
  }

  /** `noteRevoked`: only string ids in a list count. */
  method NoteRevoked(e: Entry, killed: set<string>) returns (r: set<string>)
    requires EventOf(e) == Some(EventKill)
    ensures forall n :: n in r <==> n in killed || Kills(e, n)
  {
    r := killed;
    if FRevoked !in e || !e[FRevoked].JArr? { return; }
    var items := e[FRevoked].items;
    for i := 0 to |items|
      invariant forall n :: n in r <==> n in killed || JStr(n) in items[..i]
    {
      if items[i].JStr? { r := r + {items[i].text}; }
    }
    assert items[..|items|] == items;
  }

  lemma NothingTracked(entries: seq<Entry>)
    ensures TracksDefined(entries, 0, {}) && TracksKilled(entries, 0, {})
  {
  }

  /** The definitions and kills read so far. */
  method Track(b: Bundle, i: nat, known: set<string>, killed: set<string>) returns (known': set<string>, killed': set<string>)
    requires i < |b.entries| && TracksDefined(b.entries, i, known) && TracksKilled(b.entries, i, killed)
    ensures TracksDefined(b.entries, i + 1, known') && TracksKilled(b.entries, i + 1, killed')
  {
    var e := b.entries[i];
    known', killed' := known, killed;
    if IsDefinition(e) {
      if TextOf(e, FNode).Some? { known' := known + {TextOf(e, FNode).value}; }
    } else if EventOf(e) == Some(EventKill) {
      killed' := NoteRevoked(e, killed);
    }
    DefinedNext(b.entries, i, known);
    KilledNext(b.entries, i, killed, killed');
  }

  /** `nodeAuthorities`: the authority each node was granted, from its first definition. */
  method NodeAuthorities(b: Bundle) returns (auth: map<string, Authority>, failures: seq<Failure>)
    ensures failures == Collect(|b.entries|, Definitions(b))
    ensures forall n :: (if n in auth then Some(auth[n]) else None) == AuthorityOf(b.entries, n)
  {
    hide Collect, At, AuthorityIn;
    CollectedNone(Definitions(b));
    var entries := b.entries;
    auth, failures := map[], [];
    var defined: set<string> := {};
    for i := 0 to |entries|
      invariant failures == Collect(i, Definitions(b))
      invariant TracksDefined(entries, i, defined)
      invariant TracksAuthorities(entries, i, auth)
    {
      var e := entries[i];
      var found: seq<Finding> := [];
      ghost var was := defined;
      ghost var before := auth;
      if IsDefinition(e) {
        var unreadable := if EventOf(e) == Some(EventRoot) then UnreadableAuthority else UnreadableGranted;
        match TextOf(e, FNode) {
          case None => found := [unreadable];
          case Some(node) =>
            if node !in defined {
              defined := defined + {node};
              var read := AuthorityIn(e, i);
              if read.Some? { auth := auth[node := read.value]; } else { found := [unreadable]; }
            }
        }
      }
      assert found == Definitions(b)(i);
      CollectLast(i, Definitions(b));
      failures := failures + At(found, i);
      DefinedNext(entries, i, was);
      AuthoritiesNext(entries, i, before, auth);
    }
  }

  function AuthorityBelow(entries: seq<Entry>, n: nat, node: string): Option<Authority>
    requires n <= |entries|
  {
    match FirstDefinition(entries, n, node)
    case Some(j) => AuthorityIn(entries[j], j)
    case None => None
  }

  ghost predicate TracksAuthorities(entries: seq<Entry>, i: nat, auth: map<string, Authority>)
    requires i <= |entries|
  {
    forall n :: (if n in auth then Some(auth[n]) else None) == AuthorityBelow(entries, i, n)
  }

  lemma AuthoritiesNext(entries: seq<Entry>, i: nat, auth: map<string, Authority>, auth': map<string, Authority>)
    requires i < |entries| && TracksAuthorities(entries, i, auth)
    requires var e := entries[i]; var node := TextOf(e, FNode);
             if IsDefinition(e) && node.Some? && !DefinedBefore(entries, i, node.value) && AuthorityIn(e, i).Some?
             then auth' == auth[node.value := AuthorityIn(e, i).value] else auth' == auth
    ensures TracksAuthorities(entries, i + 1, auth')
  {
    hide AuthorityIn, AuthorityBelow, DefinedBefore, IsDefinition;
    forall n ensures (if n in auth' then Some(auth'[n]) else None) == AuthorityBelow(entries, i + 1, n) {
      assert (if n in auth then Some(auth[n]) else None) == AuthorityBelow(entries, i, n);
      BelowNext(entries, i, n);
    }
  }

  /** The authority of a node one entry further: what it was, or what this entry carries where it is the first to define it. */
  lemma BelowNext(entries: seq<Entry>, i: nat, node: string)
    requires i < |entries|
    ensures AuthorityBelow(entries, i + 1, node) ==
              if IsDefinition(entries[i]) && TextOf(entries[i], FNode) == Some(node) && !DefinedBefore(entries, i, node) then AuthorityIn(entries[i], i)
              else AuthorityBelow(entries, i, node)
    ensures !DefinedBefore(entries, i, node) ==> AuthorityBelow(entries, i, node).None?
  {
    hide AuthorityIn, EventOf;
  }

  /** Every child is within its parent, read in ledger order. */
  method MonotonicityPass(b: Bundle, auth: map<string, Authority>) returns (failures: seq<Failure>)
    requires forall n :: (if n in auth then Some(auth[n]) else None) == AuthorityOf(b.entries, n)
    ensures failures == Collect(|b.entries|, Monotonicity(b))
  {
    hide Monotonicity, TracksDefined, TracksKilled, AuthorityOf, Collect, At;
    NothingTracked(b.entries);
    CollectedNone(Monotonicity(b));
    failures := [];
    var definedAt: set<string> := {};
    var revokedAt: set<string> := {};
    for i := 0 to |b.entries|
      invariant failures == Collect(i, Monotonicity(b))
      invariant TracksDefined(b.entries, i, definedAt) && TracksKilled(b.entries, i, revokedAt)
    {
      var found := JudgeDefinition(b, i, auth, definedAt, revokedAt);
      CollectLast(i, Monotonicity(b));
      failures := failures + At(found, i);
      definedAt, revokedAt := Track(b, i, definedAt, revokedAt);
    }
  }

  method JudgeDefinition(b: Bundle, i: nat, auth: map<string, Authority>, definedAt: set<string>, revokedAt: set<string>)
    returns (found: seq<Finding>)
    requires i < |b.entries|
    requires forall n :: (if n in auth then Some(auth[n]) else None) == AuthorityOf(b.entries, n)
    requires TracksDefined(b.entries, i, definedAt) && TracksKilled(b.entries, i, revokedAt)
    ensures found == Monotonicity(b)(i)
  {
    hide AuthorityOf, IsNarrower, DefinedBefore, KilledBefore;
    var e := b.entries[i];
    if !IsDefinition(e) || TextOf(e, FNode).None? { return []; }
    var node := TextOf(e, FNode).value;
    if node in definedAt { return [DefinedTwice]; }
    if EventOf(e) == Some(EventRoot) { return []; }
    var pid := TextOf(e, FParent);
    if pid.None? || pid.value !in definedAt { return [NoParentDefined]; }
    if pid.value in revokedAt { return [ParentRevoked]; }
    if node !in auth || pid.value !in auth { return []; }
    var narrower := IsNarrowerThan(auth[node], auth[pid.value]);
    return if narrower then [] else [WiderThanParent];
  }
}
