/**
 * Observer envelopes (`scoreEnvelopes`, src/evidence.ts): which ledger entries a witness key stands behind.
 * RFC 8785 bytes, received bytes and Ed25519 are parameters.
 */
module Envelopes {
  import opened Results
  import opened PlainJson
  import opened Audit
  import opened Ledger

  datatype EnvelopeReason =
    | UnknownVersion | UnknownMember | SubjectMismatch | DuplicateSubject | NonCanonical | UnknownWitness | BadSignature

  /** A failure and the `seq` and `node` it is positioned on. */
  datatype Report = Report(reason: EnvelopeReason, at: Json, node: Json)

  /** The bytes an envelope was received as. */
  datatype Received = Unreadable | Bytes(bytes: string)

  /** Trusted key ids, RFC 8785 text (nothing for a value it cannot write), and the check of a signature under a key. */
  datatype Trust = Trust(trusted: set<string>, canonical: Json -> Option<string>, verifies: (string, string, string) -> bool)

  const ENVELOPE_VERSION := 1
  const ENVELOPE_TYP := "delegation-event-observation"
  const ENVELOPE_ALG := "EdDSA"
  const ENVELOPE_MEMBERS: set<string> := {"v", "typ", "subject", "observed", "witness", "sig"}
  const ENVELOPE_OBSERVED_MEMBERS: set<string> := {"result", "at", "method"}
  const ENVELOPE_WITNESS_MEMBERS: set<string> := {"kid", "alg"}

  /** `ENVELOPE_SUBJECT_MEMBERS`. */
  function SubjectMembers(event: string): Option<set<string>> {
    if event == "spawn" then Some({"chain_id", "node", "seq", "entry_hash", "event"})
    else if event == "allow" then Some({"chain_id", "node", "seq", "entry_hash", "event", "call_id"})
    else None
  }

  // ---- the checks before the claim ----------------------------------------

  function MembersOf(v: Option<Json>): Option<seq<Member>> {
    match v
    case Some(JObj(members)) => Some(members)
    case _ => None
  }

  predicate HasExactly(v: Option<Json>, names: set<string>) {
    match MembersOf(v)
    case Some(members) => |members| == |names| && forall m :: m in members ==> m.name in names
    case None => false
  }

  /** The subject's members; none where it is not an object. */
  function SubjectOf(envelope: Json): seq<Member> {
    if !envelope.JObj? then []
    else match MembersOf(Own(envelope.members, "subject")) case Some(members) => members case None => []
  }

  function SubjectError(subject: seq<Member>): Option<EnvelopeReason> {
    match Own(subject, "event")
    case Some(JStr(event)) =>
      (match SubjectMembers(event)
       case None => Some(SubjectMismatch)
       case Some(names) =>
         if exists m :: m in subject && m.name !in names then Some(UnknownMember)
         else if exists n :: n in names && Own(subject, n).None? then Some(SubjectMismatch)
         else if !Own(subject, "seq").value.JNum? then Some(SubjectMismatch)
         else None)
    case _ => Some(SubjectMismatch)
  }

  /** Version, member sets and subject: what is judged before an entry is looked up. */
  function OpeningError(envelope: Json): Option<EnvelopeReason> {
    if !envelope.JObj? then Some(UnknownVersion)
    else
      var m := envelope.members;
      if Own(m, "v") != Some(JNum(ENVELOPE_VERSION)) || Own(m, "typ") != Some(JStr(ENVELOPE_TYP)) then Some(UnknownVersion)
      else if !HasExactly(Some(envelope), ENVELOPE_MEMBERS) || !HasExactly(Own(m, "observed"), ENVELOPE_OBSERVED_MEMBERS)
              || !HasExactly(Own(m, "witness"), ENVELOPE_WITNESS_MEMBERS) then Some(UnknownMember)
      else if MembersOf(Own(m, "subject")).None? then Some(SubjectMismatch)
      else SubjectError(SubjectOf(envelope))
  }

  /** The `seq` a subject names. */
  function SeqOf(envelope: Json): Option<int> {
    match Own(SubjectOf(envelope), "seq")
    case Some(JNum(n)) => Some(n)
    case _ => None
  }

  /** An entry answers to its own integral seq, and to its index when it has none. */
  predicate AnswersTo(e: Entry, i: nat, n: int) {
    if FSeq in e then e[FSeq] == JNum(n) else n == i
  }

  function AnsweringAt(entries: seq<Entry>, n: int): nat -> bool {
    (i: nat) => i < |entries| && AnswersTo(entries[i], i, n)
  }

  /** The entry a seq names: the last that answers to it. */
  function Keyed(entries: seq<Entry>, n: int): (r: Option<nat>)
    ensures r.Some? ==> r.value < |entries| && AnswersTo(entries[r.value], r.value, n)
    ensures r.None? <==> forall i :: 0 <= i < |entries| ==> !AnswersTo(entries[i], i, n)
  {
    var p := AnsweringAt(entries, n);
    assert forall i: nat {:trigger AnswersTo(entries[i], i, n)} :: i < |entries| ==> p(i) == AnswersTo(entries[i], i, n);
    Last(|entries|, p)
  }

  /** The entry an envelope claims: the claim step is reached and the bundle has the entry. */
  function Claim(entries: seq<Entry>, envelope: Json): (r: Option<nat>)
    ensures r.Some? ==> r.value < |entries|
  {
    if OpeningError(envelope).Some? || SeqOf(envelope).None? then None else Keyed(entries, SeqOf(envelope).value)
  }

  // ---- the checks after it ------------------------------------------------

  /** The hash of an entry recomputed from the genesis; a break restarts the chain. */
  function Recomputed(hash: Hasher, entries: seq<Entry>, i: nat): Option<string>
    requires i < |entries|
    decreases i, 1
  {
    hash(HashBefore(hash, entries, i), WithoutHash(entries[i]))
  }

  function HashBefore(hash: Hasher, entries: seq<Entry>, i: nat): string
    requires i <= |entries|
    decreases i, 0
  {
    if i == 0 then GENESIS
    else match Recomputed(hash, entries, i - 1) case Some(d) => d case None => GENESIS
  }

  /** Strict equality: an array or an object equals nothing that was parsed apart from it. */
  predicate Agrees(stated: Option<Json>, actual: Json) {
    stated == Some(actual) && !actual.JArr? && !actual.JObj?
  }

  function HashJson(h: Option<string>): Json {
    match h case Some(d) => JStr(d) case None => JNull
  }

  predicate LocatorsAgree(subject: seq<Member>, e: Entry) {
    && Agrees(Own(subject, "chain_id"), OrNull(e, FChainId))
    && Agrees(Own(subject, "node"), OrNull(e, FNode))
    && Agrees(Own(subject, "event"), OrNull(e, FEvent))
    && (Own(subject, "event") == Some(JStr("allow")) ==> Agrees(Own(subject, "call_id"), OrNull(e, FCallId)))
  }

  function WithoutSignature(envelope: Json): Json {
    if envelope.JObj? then JObj(Filter(envelope.members, (m: Member) => m.name != "sig")) else envelope
  }

  function WitnessOf(envelope: Json): seq<Member> {
    if !envelope.JObj? then []
    else match MembersOf(Own(envelope.members, "witness")) case Some(members) => members case None => []
  }

  function KidOf(envelope: Json): Option<string> {
    match Own(WitnessOf(envelope), "kid") case Some(JStr(kid)) => Some(kid) case _ => None
  }

  function WitnessFailures(trust: Trust, envelope: Json): seq<EnvelopeReason> {
    if KidOf(envelope).None? || Own(WitnessOf(envelope), "alg") != Some(JStr(ENVELOPE_ALG))
       || KidOf(envelope).value !in trust.trusted then [UnknownWitness]
    else
      match (if envelope.JObj? then Own(envelope.members, "sig") else None)
      case Some(JStr(signature)) =>
        (match trust.canonical(WithoutSignature(envelope))
         case None => [NonCanonical]
         case Some(input) => if trust.verifies(KidOf(envelope).value, input, signature) then [] else [BadSignature])
      case _ => [BadSignature]
  }

  /** What a claiming envelope fails against the entry it claimed. */
  function LaterFailures(hash: Hasher, trust: Trust, entries: seq<Entry>, envelope: Json, raw: Option<Received>, at: nat): seq<EnvelopeReason>
    requires at < |entries|
  {
    var subject := SubjectOf(envelope);
    if !Agrees(Own(subject, "entry_hash"), HashJson(Recomputed(hash, entries, at))) || !LocatorsAgree(subject, entries[at]) then
      [SubjectMismatch]
    else
      match raw
      case None => WitnessFailures(trust, envelope)
      case Some(Unreadable) => [NonCanonical]
      case Some(Bytes(received)) =>
        match trust.canonical(envelope)
        case None => [NonCanonical]
        case Some(text) => (if text == received then [] else [NonCanonical]) + WitnessFailures(trust, envelope)
  }

  // ---- the whole array ----------------------------------------------------

  /** What is scored: a ledger, envelopes over it, and the bytes some were received as. */
  datatype Scoring = Scoring(hash: Hasher, trust: Trust, entries: seq<Entry>, envelopes: seq<Json>, raws: seq<Option<Received>>)

  function RawAt(s: Scoring, k: nat): Option<Received> {
    if k < |s.raws| then s.raws[k] else None
  }

  function Claims(s: Scoring): (r: seq<Option<nat>>)
    ensures |r| == |s.envelopes| && forall k :: 0 <= k < |r| ==> r[k] == Claim(s.entries, s.envelopes[k])
    ensures forall k :: 0 <= k < |r| && r[k].Some? ==> r[k].value < |s.entries|
  {
    Map(s.envelopes, (envelope: Json) => Claim(s.entries, envelope))
  }

  predicate ClaimedBefore(claims: seq<Option<nat>>, k: nat, at: nat)
    requires k <= |claims|
  {
    exists j :: 0 <= j < k && claims[j] == Some(at)
  }

  /** The envelope claims the entry and passes every check made after the claim. */
  predicate Passes(s: Scoring, k: nat, at: nat) {
    k < |s.envelopes| && at < |s.entries| && Claims(s)[k] == Some(at)
    && LaterFailures(s.hash, s.trust, s.entries, s.envelopes[k], RawAt(s, k), at) == []
  }

  function ReasonsOf(s: Scoring, k: nat): seq<EnvelopeReason>
    requires k < |s.envelopes|
  {
    match Claims(s)[k]
    case None =>
      (match OpeningError(s.envelopes[k]) case Some(reason) => [reason] case None => [SubjectMismatch])
    case Some(at) =>
      if ClaimedBefore(Claims(s), k, at) then [DuplicateSubject]
      else LaterFailures(s.hash, s.trust, s.entries, s.envelopes[k], RawAt(s, k), at)
  }

  function Position(entries: seq<Entry>, envelope: Json, reason: EnvelopeReason): Report {
    match SeqOf(envelope)
    case None => Report(reason, JNull, JNull)
    case Some(n) =>
      match Keyed(entries, n)
      case None => Report(reason, JNum(n), JNull)
      case Some(at) => Report(reason, OrNull(entries[at], FSeq), OrNull(entries[at], FNode))
  }

  function ReportsOf(s: Scoring, k: nat): seq<Report>
    requires k < |s.envelopes|
  {
    Map(ReasonsOf(s, k), (reason: EnvelopeReason) => Position(s.entries, s.envelopes[k], reason))
  }

  function ReportsBelow(s: Scoring, n: nat): seq<Report>
    requires n <= |s.envelopes|
  {
    if n == 0 then [] else ReportsBelow(s, n - 1) + ReportsOf(s, n - 1)
  }

  /** Exactly one envelope claims the entry, and it passes. */
  ghost predicate IsWitnessed(s: Scoring, at: nat) {
    exists k: nat :: Passes(s, k, at) && forall j :: 0 <= j < |s.envelopes| && Claims(s)[j] == Some(at) ==> j == k
  }

  predicate IsFirstToPass(s: Scoring, k: nat, at: nat) {
    Passes(s, k, at) && !ClaimedBefore(Claims(s), k, at)
  }

  /** The entry an envelope covers, when it is judged. */
  function Covered(s: Scoring, k: nat): Option<nat>
    requires k < |s.envelopes|
  {
    var claimed := Claims(s)[k];
    if claimed.Some? && IsFirstToPass(s, k, claimed.value) then claimed else None
  }

  ghost predicate PassedBelow(s: Scoring, n: nat, at: nat)
    requires n <= |s.envelopes|
  {
    exists k :: 0 <= k < n && IsFirstToPass(s, k, at)
  }

  /** `claims` once an envelope has named its entry. */
  function Counted(claims: map<nat, nat>, named: Option<nat>): map<nat, nat> {
    match named
    case Some(at) => claims[at := (if at in claims then claims[at] else 0) + 1]
    case None => claims
  }

  function CountClaims(claims: seq<Option<nat>>, at: nat): (n: nat)
    ensures n > 0 <==> exists j :: 0 <= j < |claims| && claims[j] == Some(at)
  {
    if claims == [] then 0
    else
      var last := |claims| - 1;
      assert claims == claims[..last] + [claims[last]];
      CountClaims(claims[..last], at) + (if claims[last] == Some(at) then 1 else 0)
  }

  lemma {:induction false} CountedTwice(claims: seq<Option<nat>>, at: nat)
    ensures CountClaims(claims, at) > 1 <==> exists j, k :: 0 <= j < k < |claims| && claims[j] == Some(at) && claims[k] == Some(at)
  {
    if claims != [] {
      var last := |claims| - 1;
      var front := claims[..last];
      CountedTwice(front, at);
      if CountClaims(claims, at) > 1 && CountClaims(front, at) <= 1 {
        var j :| 0 <= j < |front| && front[j] == Some(at);
        assert claims[j] == Some(at) && claims[last] == Some(at);
      }
      if j, k :| 0 <= j < k < |claims| && claims[j] == Some(at) && claims[k] == Some(at) {
        assert front[j] == Some(at);
        if k < last { assert front[k] == Some(at); }
      }
      if CountClaims(front, at) > 1 {
        var j, k :| 0 <= j < k < |front| && front[j] == Some(at) && front[k] == Some(at);
        assert claims[j] == Some(at) && claims[k] == Some(at);
      }
    }
  }

  // ---- the source's loops -------------------------------------------------

  /** `subjectIndex`. */
  method SubjectIndex(entries: seq<Entry>) returns (keyed: map<int, nat>)
    ensures forall n :: n in keyed <==> Keyed(entries, n).Some?
    ensures forall n :: n in keyed ==> Keyed(entries, n) == Some(keyed[n])
  {
    keyed := map[];
    for i := 0 to |entries|
      invariant forall n :: n in keyed <==> Last(i, AnsweringAt(entries, n)).Some?
      invariant forall n :: n in keyed ==> Last(i, AnsweringAt(entries, n)) == Some(keyed[n])
    {
      var e := entries[i];
      if FSeq !in e {
        keyed := keyed[i := i];
      } else if e[FSeq].JNum? {
        keyed := keyed[e[FSeq].number := i];
      }
    }
  }

  method RecomputedHashes(hash: Hasher, entries: seq<Entry>) returns (hashes: seq<Option<string>>)
    ensures |hashes| == |entries|
    ensures forall i :: 0 <= i < |entries| ==> hashes[i] == Recomputed(hash, entries, i)
  {
    hashes := [];
    var prev := GENESIS;
    for i := 0 to |entries|
      invariant |hashes| == i && prev == HashBefore(hash, entries, i)
      invariant forall j :: 0 <= j < i ==> hashes[j] == Recomputed(hash, entries, j)
    {
      var computed := hash(prev, WithoutHash(entries[i]));
      hashes := hashes + [computed];
      prev := match computed case Some(d) => d case None => GENESIS;
    }
  }

  /** `scoreEnvelope`: one envelope, counted in `claims` as soon as its subject names an entry. */
  method ScoreEnvelope(s: Scoring, k: nat, subjectAt: map<int, nat>, hashes: seq<Option<string>>, claims: map<nat, nat>)
      returns (covered: Option<nat>, reports: seq<Report>, counted: map<nat, nat>)
    requires k < |s.envelopes|
    requires forall n :: n in subjectAt <==> Keyed(s.entries, n).Some?
    requires forall n :: n in subjectAt ==> Keyed(s.entries, n) == Some(subjectAt[n])
    requires |hashes| == |s.entries| && forall i :: 0 <= i < |s.entries| ==> hashes[i] == Recomputed(s.hash, s.entries, i)
    requires forall at :: at in claims <==> ClaimedBefore(Claims(s), k, at)
    requires forall at :: at in claims ==> claims[at] > 0
    ensures reports == ReportsOf(s, k)
    ensures covered == Covered(s, k)
    ensures counted == Counted(claims, Claims(s)[k])
  {
    hide OpeningError, WitnessFailures, LocatorsAgree, Recomputed, AnswersTo, SeqOf, Claims, Keyed, Position, Agrees;
    var envelope, raw := s.envelopes[k], RawAt(s, k);
    covered, counted := None, claims;
    var position := (reason: EnvelopeReason) => Position(s.entries, envelope, reason);
    var opening := OpeningError(envelope);
    if opening.Some? { return None, [position(opening.value)], claims; }
    if SeqOf(envelope).None? || SeqOf(envelope).value !in subjectAt { return None, [position(SubjectMismatch)], claims; }
    var at := subjectAt[SeqOf(envelope).value];
    var already := if at in claims then claims[at] else 0;
    counted := claims[at := already + 1];
    if already > 0 { return None, [position(DuplicateSubject)], counted; }
    var subject := SubjectOf(envelope);
    if !Agrees(Own(subject, "entry_hash"), HashJson(hashes[at])) { return None, [position(SubjectMismatch)], counted; }
    if !LocatorsAgree(subject, s.entries[at]) { return None, [position(SubjectMismatch)], counted; }
    var nonCanonical := false;
    reports := [];
    if raw.Some? {
      if raw.value.Unreadable? { return None, [position(NonCanonical)], counted; }
      var text := s.trust.canonical(envelope);
      if text.None? { return None, [position(NonCanonical)], counted; }
      if text.value != raw.value.bytes {
        nonCanonical := true;
        reports := [position(NonCanonical)];
      }
    }
    var found := WitnessFailures(s.trust, envelope);
    reports := reports + Map(found, position);
    covered := if found == [] && !nonCanonical then Some(at) else None;
  }

  /** `claims` after `k` envelopes. */
  ghost predicate Tallied(all: seq<Option<nat>>, k: nat, claims: map<nat, nat>)
    requires k <= |all|
  {
    && (forall at :: at in claims <==> ClaimedBefore(all, k, at))
    && (forall at :: at in claims ==> claims[at] == CountClaims(all[..k], at))
  }

  /** `witnesses` after `k` envelopes. */
  ghost predicate Gathered(s: Scoring, k: nat, witnesses: map<nat, string>)
    requires k <= |s.envelopes|
  {
    && (forall at :: at in witnesses <==> PassedBelow(s, k, at))
    && (forall j, at :: at in witnesses && 0 <= j < k && IsFirstToPass(s, j, at) ==> Some(witnesses[at]) == KidOf(s.envelopes[j]))
  }

  lemma Starts(s: Scoring)
    ensures Tallied(Claims(s), 0, map[]) && Gathered(s, 0, map[])
  {
  }

  lemma TalliedClaims(s: Scoring, k: nat, claims: map<nat, nat>)
    requires k <= |s.envelopes| && Tallied(Claims(s), k, claims)
    ensures forall at :: at in claims <==> ClaimedBefore(Claims(s), k, at)
    ensures forall at :: at in claims ==> claims[at] > 0
  {
    var all := Claims(s);
    hide Claims;
    forall at | at in claims ensures claims[at] > 0 {
      var j :| 0 <= j < k && all[j] == Some(at);
      assert all[..k][j] == Some(at);
    }
  }

  lemma TallyNext(all: seq<Option<nat>>, k: nat, claims: map<nat, nat>)
    requires k < |all| && Tallied(all, k, claims)
    ensures Tallied(all, k + 1, Counted(claims, all[k]))
  {
    hide CountClaims, ClaimedBefore;
    var next := Counted(claims, all[k]);
    forall at ensures at in next <==> ClaimedBefore(all, k + 1, at) { CountNext(all, k, at); }
    forall at | at in next ensures next[at] == CountClaims(all[..k + 1], at) { CountNext(all, k, at); }
  }

  lemma CountNext(all: seq<Option<nat>>, k: nat, at: nat)
    requires k < |all|
    ensures ClaimedBefore(all, k + 1, at) <==> ClaimedBefore(all, k, at) || all[k] == Some(at)
    ensures CountClaims(all[..k + 1], at) == CountClaims(all[..k], at) + if all[k] == Some(at) then 1 else 0
    ensures CountClaims(all[..k], at) > 0 <==> ClaimedBefore(all, k, at)
  {
    assert all[..k + 1][..k] == all[..k];
    if ClaimedBefore(all, k, at) {
      var j :| 0 <= j < k && all[j] == Some(at);
      assert all[..k][j] == Some(at);
    }
  }

  ghost predicate SignedBy(s: Scoring, witnesses: map<nat, string>) {
    forall k: nat, at :: k < |s.envelopes| && at in witnesses && Passes(s, k, at) ==> Some(witnesses[at]) == KidOf(s.envelopes[k])
  }

  lemma PassesUnderTrustedKey(s: Scoring, k: nat, at: nat)
    requires Passes(s, k, at)
    ensures KidOf(s.envelopes[k]).Some? && KidOf(s.envelopes[k]).value in s.trust.trusted
  {
    hide Claims, LocatorsAgree, Recomputed;
    assert WitnessFailures(s.trust, s.envelopes[k]) == [];
  }

  lemma PassedNext(s: Scoring, k: nat, at: nat)
    requires k < |s.envelopes|
    ensures PassedBelow(s, k + 1, at) <==> PassedBelow(s, k, at) || IsFirstToPass(s, k, at)
    ensures IsFirstToPass(s, k, at) ==> Claims(s)[k] == Some(at) && KidOf(s.envelopes[k]).Some? && !PassedBelow(s, k, at)
  {
    if IsFirstToPass(s, k, at) { PassesUnderTrustedKey(s, k, at); }
    hide Claims, LaterFailures, KidOf;
  }

  lemma GatherNext(s: Scoring, k: nat, witnesses: map<nat, string>)
    requires k < |s.envelopes| && Gathered(s, k, witnesses)
    ensures match Covered(s, k)
            case Some(at) => KidOf(s.envelopes[k]).Some? && Gathered(s, k + 1, witnesses[at := KidOf(s.envelopes[k]).value])
            case None => Gathered(s, k + 1, witnesses)
  {
    hide Claims, IsFirstToPass, KidOf, PassedBelow, Gathered;
    forall at: nat ensures IsFirstToPass(s, k, at) <==> Covered(s, k) == Some(at) { PassedNext(s, k, at); }
    match Covered(s, k)
    case Some(covered) =>
      PassedNext(s, k, covered);
      GatherSome(s, k, witnesses, covered);
    case None => GatherNone(s, k, witnesses);
  }

  lemma GatherNone(s: Scoring, k: nat, witnesses: map<nat, string>)
    requires k < |s.envelopes| && Gathered(s, k, witnesses) && forall at :: !IsFirstToPass(s, k, at)
    ensures Gathered(s, k + 1, witnesses)
  {
    hide Claims, IsFirstToPass, KidOf, PassedBelow;
    forall at ensures PassedBelow(s, k + 1, at) <==> PassedBelow(s, k, at) { PassedNext(s, k, at); }
  }

  lemma GatherSome(s: Scoring, k: nat, witnesses: map<nat, string>, covered: nat)
    requires k < |s.envelopes| && Gathered(s, k, witnesses) && KidOf(s.envelopes[k]).Some?
    requires forall at :: IsFirstToPass(s, k, at) <==> at == covered
    ensures Gathered(s, k + 1, witnesses[covered := KidOf(s.envelopes[k]).value])
  {
    hide Claims, IsFirstToPass, KidOf, PassedBelow;
    var kid := KidOf(s.envelopes[k]).value;
    var next := witnesses[covered := kid];
    forall at ensures at in next <==> PassedBelow(s, k + 1, at) { PassedNext(s, k, at); }
    forall j, at | at in next && 0 <= j < k + 1 && IsFirstToPass(s, j, at) ensures Some(next[at]) == KidOf(s.envelopes[j]) {
      if j < k {
        PassedBefore(s, j, k, at);
        PassedNext(s, k, at);
      }
    }
  }

  lemma PassedBefore(s: Scoring, j: nat, k: nat, at: nat)
    requires j < k <= |s.envelopes| && IsFirstToPass(s, j, at)
    ensures PassedBelow(s, k, at)
  {
  }

  /** Dropping what two envelopes claim leaves what exactly one does. */
  lemma WitnessedIff(s: Scoring, at: nat)
    ensures IsWitnessed(s, at) <==> PassedBelow(s, |s.envelopes|, at) && CountClaims(Claims(s), at) <= 1
  {
    var all := Claims(s);
    CountedTwice(all, at);
    hide Claims, CountClaims, Keyed;
    if IsWitnessed(s, at) {
      var k: nat :| Passes(s, k, at) && forall j :: 0 <= j < |s.envelopes| && all[j] == Some(at) ==> j == k;
      assert IsFirstToPass(s, k, at);
    }
    if PassedBelow(s, |s.envelopes|, at) && CountClaims(all, at) <= 1 {
      var k :| 0 <= k < |s.envelopes| && IsFirstToPass(s, k, at);
      assert forall j :: 0 <= j < |s.envelopes| && all[j] == Some(at) ==> j == k;
    }
  }

  lemma NotCounted(s: Scoring, at: nat)
    requires !ClaimedBefore(Claims(s), |s.envelopes|, at)
    ensures CountClaims(Claims(s), at) == 0
  {
    hide Claims;
  }

  lemma OnlyClaim(s: Scoring, k: nat, at: nat)
    requires IsWitnessed(s, at) && Passes(s, k, at)
    ensures k < |s.envelopes| && IsFirstToPass(s, k, at)
  {
  }

  lemma Settled(s: Scoring, claims: map<nat, nat>, gathered: map<nat, string>, witnesses: map<nat, string>)
    requires Tallied(Claims(s), |s.envelopes|, claims) && Gathered(s, |s.envelopes|, gathered)
    requires forall at :: at in witnesses <==> at in gathered && (at in claims ==> claims[at] <= 1)
    requires forall at :: at in witnesses ==> witnesses[at] == gathered[at]
    ensures forall at :: at in witnesses <==> IsWitnessed(s, at)
    ensures SignedBy(s, witnesses)
  {
    var n := |s.envelopes|;
    var all := Claims(s);
    hide Claims, CountClaims, Passes, KidOf, ClaimedBefore, PassedBelow, IsWitnessed, IsFirstToPass;
    assert all[..n] == all;
    forall at ensures at in witnesses <==> IsWitnessed(s, at) {
      WitnessedIff(s, at);
      if at !in claims { NotCounted(s, at); }
    }
    forall k: nat, at | k < n && at in witnesses && Passes(s, k, at) ensures Some(witnesses[at]) == KidOf(s.envelopes[k]) {
      OnlyClaim(s, k, at);
    }
  }

  /** What two envelopes claim is dropped. */
  method DropContradicted(gathered: map<nat, string>, claims: map<nat, nat>) returns (witnesses: map<nat, string>)
    ensures forall at :: at in witnesses <==> at in gathered && (at in claims ==> claims[at] <= 1)
    ensures forall at :: at in witnesses ==> witnesses[at] == gathered[at]
  {
    witnesses := gathered;
    var left := claims.Keys;
    while left != {}
      invariant left <= claims.Keys
      invariant forall at :: at in witnesses <==> at in gathered && (at in claims && at !in left ==> claims[at] <= 1)
      invariant forall at :: at in witnesses ==> witnesses[at] == gathered[at]
      decreases |left|
    {
      var at :| at in left;
      if claims[at] > 1 { witnesses := witnesses - {at}; }
      left := left - {at};
    }
  }

  /** `scoreEnvelopes`. */
  method ScoreEnvelopes(s: Scoring) returns (witnesses: map<nat, string>, reports: seq<Report>)
    ensures reports == ReportsBelow(s, |s.envelopes|)
    ensures forall at :: at in witnesses <==> IsWitnessed(s, at)
    ensures SignedBy(s, witnesses)
  {
    hide ReportsOf, Keyed, Passes, Claims, KidOf, Gathered, Tallied, CountClaims, Covered, Recomputed, Counted;
    hide ClaimedBefore, SignedBy, IsWitnessed;
    var subjectAt := SubjectIndex(s.entries);
    var hashes := RecomputedHashes(s.hash, s.entries);
    var claims: map<nat, nat> := map[];
    var gathered: map<nat, string> := map[];
    reports := [];
    Starts(s);
    for k := 0 to |s.envelopes|
      invariant reports == ReportsBelow(s, k)
      invariant Tallied(Claims(s), k, claims) && Gathered(s, k, gathered)
    {
      TalliedClaims(s, k, claims);
      TallyNext(Claims(s), k, claims);
      GatherNext(s, k, gathered);
      var covered, found, counted := ScoreEnvelope(s, k, subjectAt, hashes, claims);
      reports := reports + found;
      claims := counted;
      if covered.Some? { gathered := gathered[covered.value := KidOf(s.envelopes[k]).value]; }
    }
    witnesses := DropContradicted(gathered, claims);
    Settled(s, claims, gathered, witnesses);
  }

  // ---- coverage -----------------------------------------------------------

  lemma NothingReported(s: Scoring, k: nat)
    requires k < |s.envelopes|
    ensures ReportsOf(s, k) == [] <==> Covered(s, k).Some?
  {
    hide OpeningError, LaterFailures, Position;
    assert |ReportsOf(s, k)| == |ReasonsOf(s, k)|;
  }

  lemma {:induction false} NothingReportedBelow(s: Scoring, n: nat)
    requires n <= |s.envelopes|
    ensures ReportsBelow(s, n) == [] <==> forall k: nat :: k < n ==> Covered(s, k).Some?
  {
    hide ReportsOf, Covered;
    if n > 0 {
      NothingReportedBelow(s, n - 1);
      NothingReported(s, n - 1);
    }
  }

  /** A set of values taken is no larger than the list, and as large only where every position takes one. */
  lemma {:induction false} TakenAtMost(taken: seq<Option<nat>>, values: set<nat>)
    requires forall v :: v in values ==> Some(v) in taken
    ensures |values| <= |taken|
    ensures |values| == |taken| ==> forall k :: 0 <= k < |taken| ==> taken[k].Some?
  {
    if taken != [] {
      var last := taken[|taken| - 1];
      var rest := if last.Some? then values - {last.value} else values;
      TakenAtMost(taken[..|taken| - 1], rest);
      assert last.Some? && last.value in values ==> |values| == |rest| + 1;
    }
  }

  lemma {:induction false} TakenOnce(taken: seq<Option<nat>>, values: set<nat>)
    requires forall v :: v in values <==> Some(v) in taken
    requires Distinct(taken) && forall k :: 0 <= k < |taken| ==> taken[k].Some?
    ensures |values| == |taken|
  {
    if taken != [] {
      var last := taken[|taken| - 1];
      var front := taken[..|taken| - 1];
      assert taken == front + [last];
      TakenOnce(front, values - {last.value});
    }
  }

  function CoveredAll(s: Scoring): (r: seq<Option<nat>>)
    ensures |r| == |s.envelopes| && forall k :: 0 <= k < |r| ==> r[k] == Covered(s, k)
  {
    seq(|s.envelopes|, k requires 0 <= k < |s.envelopes| => Covered(s, k))
  }

  lemma PassesClaims(s: Scoring, k: nat, at: nat)
    requires Passes(s, k, at)
    ensures k < |s.envelopes| && at < |s.entries| && Claims(s)[k] == Some(at)
  {
  }

  lemma WitnessedIsCovered(s: Scoring, at: nat)
    requires IsWitnessed(s, at)
    ensures Some(at) in CoveredAll(s)
  {
    hide Claims, Passes, CoveredAll;
    var k: nat :| Passes(s, k, at) && forall j :: 0 <= j < |s.envelopes| && Claims(s)[j] == Some(at) ==> j == k;
    PassesClaims(s, k, at);
    assert CoveredAll(s)[k] == Covered(s, k) == Some(at);
  }

  lemma CoversFirst(s: Scoring, k: nat)
    requires k < |s.envelopes| && Covered(s, k).Some?
    ensures Claims(s)[k] == Covered(s, k) && Passes(s, k, Covered(s, k).value) && !ClaimedBefore(Claims(s), k, Covered(s, k).value)
  {
  }

  /** Where every envelope covers an entry, each covers its own and no other claims it. */
  lemma AllCovered(s: Scoring)
    requires forall k :: 0 <= k < |s.envelopes| ==> Covered(s, k).Some?
    ensures Distinct(CoveredAll(s)) && forall at :: Some(at) in CoveredAll(s) ==> IsWitnessed(s, at)
  {
    hide Claims, Passes, Covered, CoveredAll;
    forall k | 0 <= k < |s.envelopes|
      ensures Claims(s)[k] == Covered(s, k) && Passes(s, k, Covered(s, k).value) && !ClaimedBefore(Claims(s), k, Covered(s, k).value)
    {
      CoversFirst(s, k);
    }
    forall at | Some(at) in CoveredAll(s) ensures IsWitnessed(s, at) {
      var k :| 0 <= k < |s.envelopes| && CoveredAll(s)[k] == Some(at);
      assert Passes(s, k, at);
    }
  }

  /** Scoring reports nothing exactly when the witnessed entries are as many as the envelopes. */
  lemma CoverageIsComplete(s: Scoring, witnessed: set<nat>)
    requires forall at :: at in witnessed <==> IsWitnessed(s, at)
    ensures ReportsBelow(s, |s.envelopes|) == [] <==> |witnessed| == |s.envelopes|
  {
    hide Covered, IsWitnessed, ReportsBelow, CoveredAll;
    var all := CoveredAll(s);
    NothingReportedBelow(s, |s.envelopes|);
    forall at | at in witnessed ensures Some(at) in all { WitnessedIsCovered(s, at); }
    TakenAtMost(all, witnessed);
    if forall k: nat :: k < |s.envelopes| ==> Covered(s, k).Some? {
      AllCovered(s);
      TakenOnce(all, witnessed);
    } else if |witnessed| == |s.envelopes| {
      forall k: nat | k < |s.envelopes| ensures Covered(s, k).Some? { assert all[k].Some?; }
    }
  }

  // ---- what a witness stands behind ---------------------------------------

  lemma {:induction false} RecomputedIsStored(hash: Hasher, entries: seq<Entry>, i: nat)
    requires i < |entries| && Reproduces(hash, entries, i + 1)
    ensures HashJson(Recomputed(hash, entries, i)) == OrNull(entries[i], FHash)
    ensures Recomputed(hash, entries, i).Some?
  {
    if i > 0 {
      RecomputedIsStored(hash, entries, i - 1);
    }
    assert BreakAt(hash, entries, i).None?;
  }

  lemma PassesOnHash(s: Scoring, k: nat, at: nat)
    requires Passes(s, k, at)
    ensures Own(SubjectOf(s.envelopes[k]), "entry_hash") == Some(HashJson(Recomputed(s.hash, s.entries, at)))
  {
    hide Claims, LocatorsAgree, WitnessFailures, Recomputed, SubjectOf, Own;
  }

  lemma PrefixStands(hash: Hasher, x: seq<Entry>, i: nat)
    requires Verifies(hash, x) && AreObjects(x) && i < |x|
    ensures Verifies(hash, x[..i + 1]) && AreObjects(x[..i + 1])
    ensures OrNull(x[..i + 1][i], FHash) == HashJson(Recomputed(hash, x, i))
  {
    RecomputedIsStored(hash, x, i);
    PrefixVerifies(hash, x, i + 1);
    hide IsObject, Recomputed;
  }

  lemma SameHashSamePrefix(hash: Hasher, x: seq<Entry>, i: nat, y: seq<Entry>, j: nat)
    requires IsInjective(hash) && Verifies(hash, x) && Verifies(hash, y) && AreObjects(x) && AreObjects(y) && i < |x| && j < |y|
    requires HashJson(Recomputed(hash, x, i)) == HashJson(Recomputed(hash, y, j))
    ensures i == j && SameLedger(x[..i + 1], y[..j + 1])
  {
    hide IsInjective, Verifies, AreObjects, Recomputed, SameEntry, HashJson;
    PrefixStands(hash, x, i);
    PrefixStands(hash, y, j);
    SameHeadSameLedger(hash, x[..i + 1], y[..j + 1]);
    assert |x[..i + 1]| == |y[..j + 1]|;
  }

  /** One envelope passes against two ledgers that verify only if they agree, canonically, up to the entry it covers. */
  lemma EnvelopePinsLedger(s: Scoring, t: Scoring, k: nat, l: nat, at: nat, to: nat)
    requires s.hash == t.hash && IsInjective(s.hash)
    requires Verifies(s.hash, s.entries) && Verifies(t.hash, t.entries) && AreObjects(s.entries) && AreObjects(t.entries)
    requires Passes(s, k, at) && Passes(t, l, to) && s.envelopes[k] == t.envelopes[l]
    ensures at == to && SameLedger(s.entries[..at + 1], t.entries[..to + 1])
  {
    PassesOnHash(s, k, at);
    PassesOnHash(t, l, to);
    hide Claims, LaterFailures, Recomputed, SubjectOf, Own, Verifies, AreObjects;
    SameHashSamePrefix(s.hash, s.entries, at, t.entries, to);
  }
}
