/** When an observer envelope stands behind a ledger entry, read off the members of both. */
module Witnesses {
  import opened Results
  import opened PlainJson
  import opened Audit
  import opened Ledger
  import opened Bounds
  import opened Envelopes
  import EntryVerdicts

  // ---- the shape of an envelope -------------------------------------------

  /** An object with as many members as names, each under one of them. */
  predicate HoldsOnly(members: seq<Member>, names: set<string>) {
    |members| == |names| && forall i :: 0 <= i < |members| ==> members[i].name in names
  }

  ghost predicate NamesObject(members: seq<Member>, name: string, names: set<string>) {
    exists held :: Says(members, name, JObj(held)) && HoldsOnly(held, names)
  }

  /** A subject names a spawn or an allow, states every locator of one and nothing else, and an integer seq. */
  ghost predicate IsSubject(subject: seq<Member>) {
    && (exists n :: Says(subject, "seq", JNum(n)))
    && ((Says(subject, "event", JStr("spawn")) && StatesAll(subject, {"chain_id", "node", "seq", "entry_hash", "event"}))
        || (Says(subject, "event", JStr("allow")) && StatesAll(subject, {"chain_id", "node", "seq", "entry_hash", "event", "call_id"})))
  }

  ghost predicate StatesAll(subject: seq<Member>, names: set<string>) {
    (forall i :: 0 <= i < |subject| ==> subject[i].name in names) && forall name :: name in names ==> exists v :: Says(subject, name, v)
  }

  ghost predicate IsEnvelope(members: seq<Member>, subject: seq<Member>) {
    && HoldsOnly(members, {"v", "typ", "subject", "observed", "witness", "sig"})
    && Says(members, "v", JNum(1)) && Says(members, "typ", JStr("delegation-event-observation"))
    && NamesObject(members, "observed", {"result", "at", "method"}) && NamesObject(members, "witness", {"kid", "alg"})
    && Says(members, "subject", JObj(subject)) && IsSubject(subject)
  }

  // ---- what it attests ----------------------------------------------------

  /** The entry a seq names: the last that carries it, or that carries none and stands there. */
  predicate IsNamed(entries: seq<Entry>, n: int, at: nat) {
    && at < |entries| && Carries(entries[at], at, n)
    && forall j :: at < j < |entries| ==> !Carries(entries[j], j, n)
  }

  predicate Carries(e: Entry, i: nat, n: int) { if FSeq in e then e[FSeq] == JNum(n) else i == n }

  /** A locator of the subject equals the entry's member, absent read as null; a list or an object equals nothing. */
  ghost predicate Locates(subject: seq<Member>, name: string, e: Entry, f: Field) {
    exists v :: Says(subject, name, v) && !v.JArr? && !v.JObj? && v == if f in e then e[f] else JNull
  }

  ghost predicate LocatesEntry(s: Scoring, subject: seq<Member>, at: nat)
    requires at < |s.entries|
  {
    && Says(subject, "entry_hash", match Recomputed(s.hash, s.entries, at) case Some(d) => JStr(d) case None => JNull)
    && Locates(subject, "chain_id", s.entries[at], FChainId) && Locates(subject, "node", s.entries[at], FNode)
    && Locates(subject, "event", s.entries[at], FEvent)
    && (Says(subject, "event", JStr("allow")) ==> Locates(subject, "call_id", s.entries[at], FCallId))
  }

  function Unsigned(members: seq<Member>): seq<Member> { Filter(members, (m: Member) => m.name != "sig") }

  /** A trusted key verifies the signature over the canonical form of the envelope without it. */
  ghost predicate IsSignedBy(trust: Trust, members: seq<Member>, kid: string) {
    && (exists key :: Says(members, "witness", JObj(key)) && Says(key, "kid", JStr(kid)) && Says(key, "alg", JStr("EdDSA")))
    && kid in trust.trusted
    && exists input, signature ::
         Says(members, "sig", JStr(signature)) && trust.canonical(JObj(Unsigned(members))) == Some(input) && trust.verifies(kid, input, signature)
  }

  /** The bytes it was received as, where they are held, are its canonical form. */
  ghost predicate IsAsReceived(trust: Trust, members: seq<Member>, raw: Option<Received>) {
    match raw
    case None => true
    case Some(Unreadable) => false
    case Some(Bytes(bytes)) => trust.canonical(JObj(members)) == Some(bytes)
  }

  /** An entry's hash is that of its other members after the one before it, or after 64 zeros at the start and past a break. */
  lemma RecomputedIff(s: Scoring, at: nat, zeros: string)
    requires at < |s.entries| && |zeros| == 64 && forall k :: 0 <= k < 64 ==> zeros[k] == '0'
    ensures Recomputed(s.hash, s.entries, at) ==
              s.hash(if at > 0 && Recomputed(s.hash, s.entries, at - 1).Some? then Recomputed(s.hash, s.entries, at - 1).value else zeros,
                     s.entries[at] - {FHash})
  {
    hide Zeros;
    EntryVerdicts.ZerosIff(64, zeros);
  }

  /** The envelope names this entry, states its hash and its members, and a trusted key signed it as it was received. */
  ghost predicate StandsBehind(s: Scoring, members: seq<Member>, subject: seq<Member>, n: int, kid: string, raw: Option<Received>, at: nat)
    requires at < |s.entries|
  {
    && IsEnvelope(members, subject) && Says(subject, "seq", JNum(n)) && IsNamed(s.entries, n, at)
    && LocatesEntry(s, subject, at) && IsSignedBy(s.trust, members, kid) && IsAsReceived(s.trust, members, raw)
  }

  // ---- each check as what it asks -----------------------------------------

  lemma OwnSays(members: seq<Member>, name: string)
    ensures forall v {:trigger Says(members, name, v)} :: Own(members, name) == Some(v) <==> Says(members, name, v)
    ensures Own(members, name).Some? ==> Says(members, name, Own(members, name).value)
  {
    hide Own, Says;
    forall v ensures Own(members, name) == Some(v) <==> Says(members, name, v) { OwnIff(members, name, v); }
  }

  lemma ExactlyIff(members: seq<Member>, names: set<string>)
    ensures HasExactly(Some(JObj(members)), names) <==> HoldsOnly(members, names)
  {
    if HoldsOnly(members, names) {
      forall m | m in members ensures m.name in names { var i :| 0 <= i < |members| && members[i] == m; }
    }
  }

  lemma NamedObjectIff(members: seq<Member>, name: string, names: set<string>)
    ensures HasExactly(Own(members, name), names) <==> NamesObject(members, name, names)
  {
    hide Own, Says, HoldsOnly;
    OwnSays(members, name);
    match Own(members, name)
    case Some(JObj(held)) => ExactlyIff(held, names);
    case _ =>
  }

  lemma StatesIff(subject: seq<Member>, names: set<string>)
    ensures StatesAll(subject, names) <==> (forall m :: m in subject ==> m.name in names) && forall n :: n in names ==> Own(subject, n).Some?
  {
    hide Own, Says;
    forall n { OwnSays(subject, n); }
    if forall i :: 0 <= i < |subject| ==> subject[i].name in names {
      forall m | m in subject ensures m.name in names { var i :| 0 <= i < |subject| && subject[i] == m; }
    }
  }

  lemma SubjectIff(subject: seq<Member>)
    ensures SubjectError(subject).None? <==> IsSubject(subject)
  {
    hide Own, Says, StatesAll;
    OwnSays(subject, "event");
    OwnSays(subject, "seq");
    StatesIff(subject, {"chain_id", "node", "seq", "entry_hash", "event"});
    StatesIff(subject, {"chain_id", "node", "seq", "entry_hash", "event", "call_id"});
    assert "spawn"[0] != "allow"[0];
  }

  lemma OpeningIff(envelope: Json)
    ensures OpeningError(envelope).None? <==> envelope.JObj? && IsEnvelope(envelope.members, SubjectOf(envelope))
    ensures envelope.JObj? ==> forall subject :: IsEnvelope(envelope.members, subject) ==> subject == SubjectOf(envelope)
  {
    hide Own, Says, IsSubject, SubjectError, HasExactly, HoldsOnly, NamesObject;
    if envelope.JObj? {
      var m := envelope.members;
      OwnSays(m, "v");
      OwnSays(m, "typ");
      OwnSays(m, "subject");
      ExactlyIff(m, ENVELOPE_MEMBERS);
      NamedObjectIff(m, "observed", ENVELOPE_OBSERVED_MEMBERS);
      NamedObjectIff(m, "witness", ENVELOPE_WITNESS_MEMBERS);
      SubjectIff(SubjectOf(envelope));
      assert Says(m, "v", JNum(1)) <==> Own(m, "v") == Some(JNum(1));
      assert Says(m, "typ", JStr("delegation-event-observation")) <==> Own(m, "typ") == Some(JStr("delegation-event-observation"));
      forall subject | Says(m, "subject", JObj(subject)) ensures subject == SubjectOf(envelope) {
        assert Own(m, "subject") == Some(JObj(subject));
      }
    }
  }

  lemma NamedIff(entries: seq<Entry>, n: int, at: nat)
    ensures Keyed(entries, n) == Some(at) <==> IsNamed(entries, n, at)
  {
    var p := AnsweringAt(entries, n);
    assert forall i: nat {:trigger AnswersTo(entries[i], i, n)} :: i < |entries| ==> p(i) == AnswersTo(entries[i], i, n);
    assert forall i: nat :: i < |entries| ==> AnswersTo(entries[i], i, n) == Carries(entries[i], i, n);
    hide AnswersTo, Carries;
    if IsNamed(entries, n, at) { assert p(at); }
    if Keyed(entries, n) == Some(at) {
      forall j | at < j < |entries| ensures !Carries(entries[j], j, n) { assert !p(j); }
    }
  }

  lemma LocatorIff(subject: seq<Member>, name: string, e: Entry, f: Field)
    ensures Agrees(Own(subject, name), OrNull(e, f)) <==> Locates(subject, name, e, f)
  {
    hide Own, Says;
    OwnSays(subject, name);
  }

  lemma LocatesIff(s: Scoring, subject: seq<Member>, at: nat)
    requires at < |s.entries|
    ensures Agrees(Own(subject, "entry_hash"), HashJson(Recomputed(s.hash, s.entries, at))) && LocatorsAgree(subject, s.entries[at])
            <==> LocatesEntry(s, subject, at)
  {
    hide Own, Says, Recomputed, Locates, OrNull;
    OwnSays(subject, "entry_hash");
    OwnSays(subject, "event");
    LocatorIff(subject, "chain_id", s.entries[at], FChainId);
    LocatorIff(subject, "node", s.entries[at], FNode);
    LocatorIff(subject, "event", s.entries[at], FEvent);
    LocatorIff(subject, "call_id", s.entries[at], FCallId);
  }

  lemma SignedIff(trust: Trust, members: seq<Member>, kid: string)
    ensures IsSignedBy(trust, members, kid) <==> WitnessFailures(trust, JObj(members)) == [] && KidOf(JObj(members)) == Some(kid)
  {
    hide Own, Says, Filter;
    var key := WitnessOf(JObj(members));
    OwnSays(members, "witness");
    OwnSays(members, "sig");
    OwnSays(key, "kid");
    OwnSays(key, "alg");
    assert WithoutSignature(JObj(members)) == JObj(Unsigned(members));
  }

  lemma StandsIff(s: Scoring, k: nat, at: nat, n: int, kid: string)
    requires k < |s.envelopes| && at < |s.entries| && s.envelopes[k].JObj?
    requires SeqOf(s.envelopes[k]) == Some(n)
    ensures StandsBehind(s, s.envelopes[k].members, SubjectOf(s.envelopes[k]), n, kid, RawAt(s, k), at)
            <==> Passes(s, k, at) && KidOf(s.envelopes[k]) == Some(kid)
  {
    hide OpeningError, WitnessFailures, LocatorsAgree, Recomputed, Keyed, IsNamed, Agrees, IsEnvelope, LocatesEntry, IsSignedBy, Own, Says, KidOf;
    var envelope := s.envelopes[k];
    OpeningIff(envelope);
    OwnSays(SubjectOf(envelope), "seq");
    NamedIff(s.entries, n, at);
    LocatesIff(s, SubjectOf(envelope), at);
    SignedIff(s.trust, envelope.members, kid);
  }

  /** An envelope passes against an entry exactly when it stands behind it. */
  lemma PassesIff(s: Scoring, k: nat, at: nat)
    ensures Passes(s, k, at) <==>
              k < |s.envelopes| && at < |s.entries| && s.envelopes[k].JObj?
              && exists subject, n, kid :: StandsBehind(s, s.envelopes[k].members, subject, n, kid, RawAt(s, k), at)
  {
    hide OpeningError, LaterFailures, IsNamed, IsEnvelope, LocatesEntry, IsSignedBy, Own, Says, KidOf, SubjectOf, IsAsReceived;
    if k < |s.envelopes| && at < |s.entries| {
      var envelope := s.envelopes[k];
      OpeningIff(envelope);
      OwnSays(SubjectOf(envelope), "seq");
      if Passes(s, k, at) {
        PassesUnderTrustedKey(s, k, at);
        StandsIff(s, k, at, SeqOf(envelope).value, KidOf(envelope).value);
      }
      if envelope.JObj? {
        if subject, n, kid :| StandsBehind(s, envelope.members, subject, n, kid, RawAt(s, k), at) { StandsIff(s, k, at, n, kid); }
      }
    }
  }

  // ---- claims and refusals ------------------------------------------------

  /** A well-formed envelope claims the entry its subject's seq names. */
  ghost predicate ClaimsEntry(s: Scoring, k: nat, at: nat) {
    && k < |s.envelopes| && s.envelopes[k].JObj?
    && exists subject, n :: IsEnvelope(s.envelopes[k].members, subject) && Says(subject, "seq", JNum(n)) && IsNamed(s.entries, n, at)
  }

  lemma ClaimIff(s: Scoring, k: nat, at: nat)
    requires k < |s.envelopes|
    ensures Claims(s)[k] == Some(at) <==> ClaimsEntry(s, k, at)
  {
    hide OpeningError, Keyed, IsNamed, IsEnvelope, Own, Says, SubjectOf;
    var envelope := s.envelopes[k];
    OpeningIff(envelope);
    OwnSays(SubjectOf(envelope), "seq");
    forall n { NamedIff(s.entries, n, at); }
    if Claims(s)[k] == Some(at) { assert Says(SubjectOf(envelope), "seq", JNum(SeqOf(envelope).value)); }
  }

  /** An entry is witnessed exactly when one envelope stands behind it and no other claims it. */
  lemma WitnessedOnce(s: Scoring, at: nat)
    ensures IsWitnessed(s, at) <==>
              exists k: nat :: Passes(s, k, at) && forall j: nat :: ClaimsEntry(s, j, at) ==> j == k
  {
    hide Passes, Claims, ClaimsEntry;
    forall j: nat | j < |s.envelopes| ensures Claims(s)[j] == Some(at) <==> ClaimsEntry(s, j, at) { ClaimIff(s, j, at); }
    forall j: nat | ClaimsEntry(s, j, at) ensures j < |s.envelopes| { ClaimedBelow(s, j, at); }
  }

  lemma ClaimedBelow(s: Scoring, j: nat, at: nat)
    requires ClaimsEntry(s, j, at)
    ensures j < |s.envelopes|
  {
  }

  /** A trusted key id under the one algorithm. */
  ghost predicate IsTrusted(trust: Trust, members: seq<Member>, kid: string) {
    && kid in trust.trusted
    && exists key :: Says(members, "witness", JObj(key)) && Says(key, "kid", JStr(kid)) && Says(key, "alg", JStr("EdDSA"))
  }

  /** Why a claiming envelope's key or signature is refused. */
  ghost predicate RefusesWitness(trust: Trust, members: seq<Member>, reason: EnvelopeReason) {
    match reason
    case UnknownWitness => forall kid :: !IsTrusted(trust, members, kid)
    case NonCanonical =>
      exists kid, signature :: IsTrusted(trust, members, kid) && Says(members, "sig", JStr(signature)) && trust.canonical(JObj(Unsigned(members))).None?
    case BadSignature =>
      exists kid :: IsTrusted(trust, members, kid)
        && ((forall signature :: !Says(members, "sig", JStr(signature)))
            || exists input, signature :: Says(members, "sig", JStr(signature)) && trust.canonical(JObj(Unsigned(members))) == Some(input)
                                          && !trust.verifies(kid, input, signature))
    case _ => false
  }

  lemma TrustedIff(trust: Trust, members: seq<Member>, kid: string)
    ensures IsTrusted(trust, members, kid) <==>
              KidOf(JObj(members)) == Some(kid) && Own(WitnessOf(JObj(members)), "alg") == Some(JStr("EdDSA")) && kid in trust.trusted
  {
    hide Own, Says;
    var key := WitnessOf(JObj(members));
    OwnSays(members, "witness");
    OwnSays(key, "kid");
    OwnSays(key, "alg");
  }

  lemma WitnessRefusedIff(trust: Trust, members: seq<Member>, reason: EnvelopeReason)
    ensures reason in WitnessFailures(trust, JObj(members)) <==> RefusesWitness(trust, members, reason)
  {
    hide Own, Says, IsTrusted, KidOf, WitnessOf, Filter;
    forall kid { TrustedIff(trust, members, kid); }
    OwnSays(members, "sig");
    assert WithoutSignature(JObj(members)) == JObj(Unsigned(members));
    var kid := KidOf(JObj(members));
    if kid.Some? && IsTrusted(trust, members, kid.value) {
      match Own(members, "sig")
      case Some(JStr(signature)) => assert Says(members, "sig", JStr(signature));
      case _ =>
    }
  }

  /** What a well-formed envelope that claims `at`, first to do so, is refused for. */
  ghost predicate RefusesLater(s: Scoring, members: seq<Member>, subject: seq<Member>, raw: Option<Received>, at: nat, reason: EnvelopeReason)
    requires at < |s.entries|
  {
    if !LocatesEntry(s, subject, at) then reason == SubjectMismatch
    else if raw == Some(Unreadable) || (raw.Some? && s.trust.canonical(JObj(members)).None?) then reason == NonCanonical
    else (reason == NonCanonical && !IsAsReceived(s.trust, members, raw)) || RefusesWitness(s.trust, members, reason)
  }

  lemma LaterIff(s: Scoring, envelope: Json, raw: Option<Received>, at: nat, reason: EnvelopeReason)
    requires at < |s.entries| && envelope.JObj?
    ensures reason in LaterFailures(s.hash, s.trust, s.entries, envelope, raw, at) <==>
              RefusesLater(s, envelope.members, SubjectOf(envelope), raw, at, reason)
  {
    hide Own, Says, Agrees, LocatorsAgree, LocatesEntry, Recomputed, SubjectOf, WitnessFailures, RefusesWitness;
    LocatesIff(s, SubjectOf(envelope), at);
    WitnessRefusedIff(s.trust, envelope.members, reason);
    assert envelope == JObj(envelope.members);
  }

  predicate IsVersioned(members: seq<Member>) {
    Says(members, "v", JNum(1)) && Says(members, "typ", JStr("delegation-event-observation"))
  }

  ghost predicate HoldsItsMembers(members: seq<Member>) {
    && HoldsOnly(members, {"v", "typ", "subject", "observed", "witness", "sig"})
    && NamesObject(members, "observed", {"result", "at", "method"}) && NamesObject(members, "witness", {"kid", "alg"})
  }

  /** The subject is of an observed event and states a member that event has not. */
  predicate HasMore(subject: seq<Member>) {
    || (Says(subject, "event", JStr("spawn")) && exists i :: 0 <= i < |subject| && subject[i].name !in {"chain_id", "node", "seq", "entry_hash", "event"})
    || (Says(subject, "event", JStr("allow"))
        && exists i :: 0 <= i < |subject| && subject[i].name !in {"chain_id", "node", "seq", "entry_hash", "event", "call_id"})
  }

  ghost predicate StatesMore(members: seq<Member>) {
    exists subject :: Says(members, "subject", JObj(subject)) && HasMore(subject)
  }

  /** Why an envelope that is not well formed is refused. */
  lemma OpeningReason(envelope: Json)
    requires OpeningError(envelope).Some?
    ensures OpeningError(envelope).value ==
              if !envelope.JObj? || !IsVersioned(envelope.members) then UnknownVersion
              else if !HoldsItsMembers(envelope.members) || StatesMore(envelope.members) then UnknownMember
              else SubjectMismatch
  {
    hide Own, Says, SubjectError, HasExactly, HoldsOnly, NamesObject;
    if envelope.JObj? {
      var m := envelope.members;
      OwnSays(m, "v");
      OwnSays(m, "typ");
      OwnSays(m, "subject");
      ExactlyIff(m, ENVELOPE_MEMBERS);
      NamedObjectIff(m, "observed", ENVELOPE_OBSERVED_MEMBERS);
      NamedObjectIff(m, "witness", ENVELOPE_WITNESS_MEMBERS);
      assert Says(m, "v", JNum(1)) <==> Own(m, "v") == Some(JNum(1));
      assert Says(m, "typ", JStr("delegation-event-observation")) <==> Own(m, "typ") == Some(JStr("delegation-event-observation"));
      MoreIff(m);
    }
  }

  lemma SubjectReason(subject: seq<Member>)
    ensures SubjectError(subject) == Some(UnknownMember) <==> HasMore(subject)
    ensures SubjectError(subject).Some? ==> SubjectError(subject) == Some(if HasMore(subject) then UnknownMember else SubjectMismatch)
  {
    hide Own, Says;
    OwnSays(subject, "event");
    ExtraIff(subject, {"chain_id", "node", "seq", "entry_hash", "event"});
    ExtraIff(subject, {"chain_id", "node", "seq", "entry_hash", "event", "call_id"});
    assert "spawn"[0] != "allow"[0];
  }

  lemma MoreIff(members: seq<Member>)
    ensures StatesMore(members) <==>
              MembersOf(Own(members, "subject")).Some? && SubjectError(SubjectOf(JObj(members))) == Some(UnknownMember)
    ensures MembersOf(Own(members, "subject")).Some? && SubjectError(SubjectOf(JObj(members))).Some? && !StatesMore(members) ==>
              SubjectError(SubjectOf(JObj(members))) == Some(SubjectMismatch)
  {
    hide Own, Says, HasMore, SubjectError;
    OwnSays(members, "subject");
    SubjectReason(SubjectOf(JObj(members)));
  }

  lemma ExtraIff(subject: seq<Member>, names: set<string>)
    ensures (exists m :: m in subject && m.name !in names) <==> exists i :: 0 <= i < |subject| && subject[i].name !in names
  {
    if m :| m in subject && m.name !in names { var i :| 0 <= i < |subject| && subject[i] == m; }
  }

  /** What an envelope is refused for. */
  ghost predicate IsRefused(s: Scoring, k: nat, reason: EnvelopeReason)
    requires k < |s.envelopes|
  {
    match Claims(s)[k]
    case None =>
      (match OpeningError(s.envelopes[k]) case Some(opening) => reason == opening case None => reason == SubjectMismatch)
    case Some(at) =>
      if exists j: nat :: j < k && ClaimsEntry(s, j, at) then reason == DuplicateSubject
      else s.envelopes[k].JObj? && RefusesLater(s, s.envelopes[k].members, SubjectOf(s.envelopes[k]), RawAt(s, k), at, reason)
  }

  lemma RefusedIff(s: Scoring, k: nat, reason: EnvelopeReason)
    requires k < |s.envelopes|
    ensures reason in Envelopes.ReasonsOf(s, k) <==> IsRefused(s, k, reason)
  {
    hide LaterFailures, RefusesLater, ClaimsEntry, OpeningError, Claims, SubjectOf;
    match Claims(s)[k]
    case None =>
    case Some(at) =>
      ClaimIff(s, k, at);
      ClaimerIsObject(s, k, at);
      forall j: nat | j < k ensures Claims(s)[j] == Some(at) <==> ClaimsEntry(s, j, at) { ClaimIff(s, j, at); }
      LaterIff(s, s.envelopes[k], RawAt(s, k), at, reason);
  }

  lemma ClaimerIsObject(s: Scoring, k: nat, at: nat)
    requires ClaimsEntry(s, k, at)
    ensures k < |s.envelopes| && s.envelopes[k].JObj? && at < |s.entries|
  {
  }
}
