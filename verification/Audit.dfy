/** The hash-chained ledger (src/audit.ts), and the position-only walk of src/evidence.ts beside it. */
module Audit {
  import opened Results
  import opened PlainJson

  /** The member names of `LEDGER_FIELDS`, and any other name. */
  datatype Field =
    | FV | FC14n | FSeq | FTs | FEvent | FPrevHash | FHash | FChainId
    | FNode | FParent | FAgent | FTask | FScope | FTool | FContext | FReason | FReasons
    | FAuthority | FRequested | FGranted | FTarget | FRevoked | FStrikes | FMode | FDisposition | FDetail | FPolicy
    | FCallId | FCapture | FAdapter | FAuthorizedParamsHash | FParamsHashReason | FParamsSalt
    | FBodyState | FErrorCode | FInvokedParamsHash | FDurationMs | FReceipt | FPendingAtKill
    | FOther(name: string)

  /** `LEDGER_FIELDS`, in the order of the constructors above. */
  const LEDGER_FIELDS: seq<string> := [
    "v", "c14n", "seq", "ts", "event", "prev_hash", "hash", "chain_id",
    "node", "parent", "agent", "task", "scope", "tool", "context", "reason", "reasons",
    "authority", "requested", "granted", "target", "revoked", "strikes", "mode", "disposition", "detail", "policy",
    "call_id", "capture", "adapter", "authorized_params_hash", "params_hash_reason", "params_salt",
    "body_state", "error_code", "invoked_params_hash", "duration_ms", "receipt", "pending_at_kill"]

  /** Any other name is none of these. */
  predicate IsNamed(f: Field) { f.FOther? ==> f.name !in LEDGER_FIELDS }

  function FieldName(f: Field): string {
    match f
    case FV => "v"
    case FC14n => "c14n"
    case FSeq => "seq"
    case FTs => "ts"
    case FEvent => "event"
    case FPrevHash => "prev_hash"
    case FHash => "hash"
    case FChainId => "chain_id"
    case FNode => "node"
    case FParent => "parent"
    case FAgent => "agent"
    case FTask => "task"
    case FScope => "scope"
    case FTool => "tool"
    case FContext => "context"
    case FReason => "reason"
    case FReasons => "reasons"
    case FAuthority => "authority"
    case FRequested => "requested"
    case FGranted => "granted"
    case FTarget => "target"
    case FRevoked => "revoked"
    case FStrikes => "strikes"
    case FMode => "mode"
    case FDisposition => "disposition"
    case FDetail => "detail"
    case FPolicy => "policy"
    case FCallId => "call_id"
    case FCapture => "capture"
    case FAdapter => "adapter"
    case FAuthorizedParamsHash => "authorized_params_hash"
    case FParamsHashReason => "params_hash_reason"
    case FParamsSalt => "params_salt"
    case FBodyState => "body_state"
    case FErrorCode => "error_code"
    case FInvokedParamsHash => "invoked_params_hash"
    case FDurationMs => "duration_ms"
    case FReceipt => "receipt"
    case FPendingAtKill => "pending_at_kill"
    case FOther(name) => name
  }

  lemma KnownName(f: Field)
    requires !f.FOther?
    ensures FieldName(f) in LEDGER_FIELDS
  {
  }

  lemma ShortNamesDiffer(f: Field, g: Field)
    requires !f.FOther? && !g.FOther? && FieldName(f) == FieldName(g) && |FieldName(f)| < 7
    ensures f == g
  {
  }

  lemma LongNamesDiffer(f: Field, g: Field)
    requires !f.FOther? && !g.FOther? && FieldName(f) == FieldName(g) && |FieldName(f)| >= 7
    ensures f == g
  {
  }

  lemma FieldNamesDiffer(f: Field, g: Field)
    requires IsNamed(f) && IsNamed(g) && FieldName(f) == FieldName(g)
    ensures f == g
  {
    if f.FOther? != g.FOther? {
      KnownName(if f.FOther? then g else f);
    } else if !f.FOther? {
      hide FieldName;
      if |FieldName(f)| < 7 { ShortNamesDiffer(f, g); } else { LongNamesDiffer(f, g); }
    }
  }

  type Entry = map<Field, Json>

  /** `hashEntry(prev, payload)`: SHA-256 over the previous hash and the RFC 8785 bytes of the entry, and nothing for
      an entry RFC 8785 cannot write. */
  type Hasher = (string, Entry) -> Option<string>

  function Zeros(n: nat): (r: string)
    ensures |r| == n
  {
    if n == 0 then "" else Zeros(n - 1) + "0"
  }

  const GENESIS: string := Zeros(64)

  function Get(e: Entry, f: Field): Option<Json> {
    if f in e then Some(e[f]) else None
  }

  /** `orNull`: an absent field and a null one read alike. */
  function OrNull(e: Entry, f: Field): Json {
    if f in e then e[f] else JNull
  }

  function WithoutHash(e: Entry): Entry {
    e - {FHash}
  }

  /** A digest as the chain writes it: hexadecimal. */
  predicate IsDigestText(s: string) {
    forall i :: 0 <= i < |s| ==> '0' <= s[i] <= '9' || 'a' <= s[i] <= 'f'
  }

  /** The entry is a JSON object throughout: neither it nor an object in it has a name twice. */
  predicate IsObject(e: Entry) {
    forall f :: f in e ==> IsNamed(f) && IsJson(e[f])
  }

  ghost predicate AreObjects(entries: seq<Entry>) {
    forall i :: 0 <= i < |entries| ==> IsObject(entries[i])
  }

  /** Equal canonical entries: the same members, in whatever order their objects list them. */
  predicate SameEntry(x: Entry, y: Entry) {
    x.Keys == y.Keys && forall f :: f in x ==> SameJson(x[f], y[f])
  }

  ghost predicate SameLedger(x: seq<Entry>, y: seq<Entry>) {
    |x| == |y| && forall i :: 0 <= i < |x| ==> SameEntry(x[i], y[i])
  }

  /** No two entries have one hash unless they are canonically equal and continue one digest. */
  ghost predicate IsInjective(hash: Hasher) {
    && (forall p, x, q, y ::
          IsDigestText(p) && IsDigestText(q) && IsObject(x) && IsObject(y) && hash(p, x).Some? && hash(p, x) == hash(q, y) ==>
            p == q && SameEntry(x, y))
    && (forall p, x :: hash(p, x).Some? ==> IsDigestText(hash(p, x).value))
  }

  // ---- what verification means --------------------------------------------

  /** The hash the entry at `i` has to continue: the stored one before it. */
  function PrevOf(entries: seq<Entry>, i: nat): Json
    requires i <= |entries|
  {
    if i == 0 then JStr(GENESIS) else OrNull(entries[i - 1], FHash)
  }

  datatype Break = SeqGap | PrevHashMismatch | HashMismatch

  /** Why the chain does not reproduce at `i`, in the order the walk asks. */
  function BreakAt(hash: Hasher, entries: seq<Entry>, i: nat): Option<Break>
    requires i < |entries|
  {
    var e := entries[i];
    var prev := PrevOf(entries, i);
    if Get(e, FSeq) != Some(JNum(i)) then Some(SeqGap)
    else if !prev.JStr? || Get(e, FPrevHash) != Some(prev) then Some(PrevHashMismatch)
    else
      match hash(prev.text, WithoutHash(e))
      case Some(d) => if Get(e, FHash) == Some(JStr(d)) then None else Some(HashMismatch)
      case None => Some(HashMismatch)
  }

  predicate Reproduces(hash: Hasher, entries: seq<Entry>, n: nat)
    requires n <= |entries|
  {
    forall i :: 0 <= i < n ==> BreakAt(hash, entries, i).None?
  }

  /** `AuditLog.verify` accepts. */
  predicate Verifies(hash: Hasher, entries: seq<Entry>) {
    Reproduces(hash, entries, |entries|)
  }

  /** The walk stops at `i`. */
  predicate StopsAt(hash: Hasher, entries: seq<Entry>, i: nat) {
    i < |entries| && Reproduces(hash, entries, i) && BreakAt(hash, entries, i).Some?
  }

  method Verify(hash: Hasher, entries: seq<Entry>) returns (bad: Option<(nat, Break)>)
    ensures bad.None? <==> Verifies(hash, entries)
    ensures bad.Some? ==> StopsAt(hash, entries, bad.value.0) && BreakAt(hash, entries, bad.value.0) == Some(bad.value.1)
  {
    hide WithoutHash, Zeros;
    var prev := GENESIS;
    for i := 0 to |entries|
      invariant Reproduces(hash, entries, i)
      invariant PrevOf(entries, i) == JStr(prev)
    {
      var e := entries[i];
      ghost var here := BreakAt(hash, entries, i);
      if Get(e, FSeq) != Some(JNum(i)) { return Some((i, SeqGap)); }
      if Get(e, FPrevHash) != Some(JStr(prev)) { return Some((i, PrevHashMismatch)); }
      var computed := hash(prev, WithoutHash(e));
      if computed.None? || Get(e, FHash) != Some(JStr(computed.value)) { return Some((i, HashMismatch)); }
      prev := computed.value;
    }
    return None;
  }

  /** `integrityBreak` of src/evidence.ts: a second walk, for the position alone. */
  method IntegrityBreak(hash: Hasher, entries: seq<Entry>) returns (bad: Option<nat>)
    ensures bad.None? <==> Verifies(hash, entries)
    ensures bad.Some? ==> StopsAt(hash, entries, bad.value)
  {
    hide Zeros, WithoutHash;
    var prev := JStr(GENESIS);
    for i := 0 to |entries|
      invariant Reproduces(hash, entries, i)
      invariant prev == PrevOf(entries, i) && prev.JStr?
    {
      var e := entries[i];
      ghost var here := BreakAt(hash, entries, i);
      var computed := hash(prev.text, WithoutHash(e));
      if computed.None? { return Some(i); }
      if Get(e, FSeq) != Some(JNum(i)) || OrNull(e, FPrevHash) != prev || JStr(computed.value) != OrNull(e, FHash) {
        return Some(i);
      }
      prev := OrNull(e, FHash);
    }
    return None;
  }

  /** The walk stops at one place, so the two walks name the same entry. */
  lemma StopsOnce(hash: Hasher, entries: seq<Entry>, i: nat, j: nat)
    requires StopsAt(hash, entries, i) && StopsAt(hash, entries, j)
    ensures i == j
  {
    assert BreakAt(hash, entries, i).Some? && BreakAt(hash, entries, j).Some?;
  }

  // ---- tamper evidence ----------------------------------------------------

  lemma PrefixBreaks(hash: Hasher, x: seq<Entry>, n: nat, i: nat)
    requires i < n <= |x|
    ensures BreakAt(hash, x[..n], i) == BreakAt(hash, x, i)
  {
  }

  lemma PrefixVerifies(hash: Hasher, x: seq<Entry>, n: nat)
    requires n <= |x| && Reproduces(hash, x, n)
    ensures Verifies(hash, x[..n])
  {
    forall i | 0 <= i < n ensures BreakAt(hash, x[..n], i).None? { PrefixBreaks(hash, x, n, i); }
  }

  lemma GenesisIsDigestText()
    ensures IsDigestText(GENESIS)
  {
    ZerosAreDigits(64);
  }

  lemma {:induction false} ZerosAreDigits(n: nat)
    ensures forall i :: 0 <= i < n ==> Zeros(n)[i] == '0'
  {
    if n > 0 { ZerosAreDigits(n - 1); }
  }

  /** What an entry of a ledger that verifies continues, and what it hashes to. */
  lemma LinkAt(hash: Hasher, x: seq<Entry>, i: nat)
    requires IsInjective(hash) && Verifies(hash, x) && i < |x|
    ensures PrevOf(x, i).JStr? && IsDigestText(PrevOf(x, i).text) && Get(x[i], FSeq) == Some(JNum(i))
    ensures match hash(PrevOf(x, i).text, WithoutHash(x[i])) case Some(d) => Get(x[i], FHash) == Some(JStr(d)) case None => false
  {
    hide WithoutHash, Zeros;
    assert BreakAt(hash, x, i).None?;
    GenesisIsDigestText();
    if i > 0 { assert BreakAt(hash, x, i - 1).None?; }
  }

  /** Entries of one stored hash are canonically equal, stand at one place and continue one digest. */
  lemma SameLink(hash: Hasher, x: seq<Entry>, i: nat, y: seq<Entry>, j: nat)
    requires IsInjective(hash) && Verifies(hash, x) && Verifies(hash, y) && AreObjects(x) && AreObjects(y)
    requires i < |x| && j < |y| && OrNull(x[i], FHash) == OrNull(y[j], FHash)
    ensures i == j && SameEntry(x[i], y[j]) && PrevOf(x, i) == PrevOf(y, j)
  {
    LinkAt(hash, x, i);
    LinkAt(hash, y, j);
    hide Verifies, BreakAt, PrevOf, SameEntry;
    assert IsObject(x[i]) && IsObject(y[j]);
    hide AreObjects;
    assert IsObject(WithoutHash(x[i])) && IsObject(WithoutHash(y[j]));
    SameButHash(x[i], y[j]);
  }

  /** Under such a hash, two ledgers that verify and end in one hash have one length and equal canonical entries. */
  lemma {:induction false} SameHeadSameLedger(hash: Hasher, x: seq<Entry>, y: seq<Entry>)
    requires IsInjective(hash) && Verifies(hash, x) && Verifies(hash, y) && AreObjects(x) && AreObjects(y)
    requires |x| > 0 && |y| > 0 && OrNull(x[|x| - 1], FHash) == OrNull(y[|y| - 1], FHash)
    ensures SameLedger(x, y)
    decreases |x|
  {
    hide IsInjective, Verifies, SameEntry, IsObject;
    var m := |x| - 1;
    SameLink(hash, x, m, y, |y| - 1);
    if m > 0 {
      ShorterVerifies(hash, x);
      ShorterVerifies(hash, y);
      SameHeadSameLedger(hash, x[..m], y[..m]);
      assert forall i :: 0 <= i < m ==> x[i] == x[..m][i] && y[i] == y[..m][i];
    }
  }

  lemma ShorterVerifies(hash: Hasher, x: seq<Entry>)
    requires Verifies(hash, x) && x != []
    ensures Verifies(hash, x[..|x| - 1])
  {
    PrefixVerifies(hash, x, |x| - 1);
  }

  lemma SameButHash(e: Entry, f: Entry)
    requires SameEntry(WithoutHash(e), WithoutHash(f)) && FHash in e && FHash in f && e[FHash] == f[FHash]
    ensures SameEntry(e, f) && (FSeq in e && e[FSeq].JNum? ==> Get(e, FSeq) == Get(f, FSeq))
  {
    assert e.Keys == WithoutHash(e).Keys + {FHash} && f.Keys == WithoutHash(f).Keys + {FHash};
    forall k | k in e ensures SameJson(e[k], f[k]) {
      if k == FHash { SameJsonReflexive(e[k]); } else { assert WithoutHash(e)[k] == e[k] && WithoutHash(f)[k] == f[k]; }
    }
  }

  // ---- appending ----------------------------------------------------------

  /** Members `append` writes itself; the guard never passes one. */
  const FRAMING: set<Field> := {FV, FC14n, FSeq, FTs, FEvent, FPrevHash, FHash}

  function Payload(version: int, entries: seq<Entry>, prev: string, event: string, ts: int, fields: Entry): Entry {
    map[FV := JNum(version), FC14n := JStr("JCS"), FSeq := JNum(|entries|), FTs := JNum(ts), FEvent := JStr(event)]
    + fields + map[FPrevHash := JStr(prev)]
  }

  /** The committed entry; `None` where the entry cannot be hashed and nothing is written. */
  function Committed(hash: Hasher, version: int, entries: seq<Entry>, prev: string, event: string, ts: int, fields: Entry): Option<Entry> {
    var payload := Payload(version, entries, prev, event, ts, fields);
    match hash(prev, payload)
    case Some(d) => Some(payload[FHash := JStr(d)])
    case None => None
  }

  ghost predicate IsHead(entries: seq<Entry>, prev: string) {
    PrevOf(entries, |entries|) == JStr(prev)
  }

  /** Appending keeps `AuditLog.verify` true. */
  lemma AppendVerifies(hash: Hasher, version: int, entries: seq<Entry>, prev: string, event: string, ts: int, fields: Entry)
    requires Verifies(hash, entries) && IsHead(entries, prev) && fields.Keys !! FRAMING
    requires Committed(hash, version, entries, prev, event, ts, fields).Some?
    ensures var e := Committed(hash, version, entries, prev, event, ts, fields).value;
            Verifies(hash, entries + [e]) && e[FHash].JStr? && IsHead(entries + [e], e[FHash].text)
  {
    var e := Committed(hash, version, entries, prev, event, ts, fields).value;
    var x := entries + [e];
    assert WithoutHash(e) == Payload(version, entries, prev, event, ts, fields);
    forall i | 0 <= i < |x| ensures BreakAt(hash, x, i).None? {
      if i < |entries| {
        PrefixBreaks(hash, x, |entries|, i);
        assert x[..|entries|] == entries;
      }
    }
  }

  datatype AppendResult = Persisted(entry: Entry) | CommittedOnly(entry: Entry) | NotCommitted

  /** Append-only, hash-chained decision log. */
  class AuditLog {
    const hash: Hasher
    const schemaVersion: int
    var prev: string
    var nextSeq: nat
    var entries: seq<Entry>

    ghost predicate Valid()
      reads this
    {
      nextSeq == |entries| && IsHead(entries, prev)
    }

    constructor (hash: Hasher, schemaVersion: int)
      ensures Valid() && entries == [] && prev == GENESIS
      ensures this.hash == hash && this.schemaVersion == schemaVersion
    {
      this.hash, this.schemaVersion := hash, schemaVersion;
      prev, nextSeq, entries := GENESIS, 0, [];
    }

    /** `persists` is the file write and the sinks, after the commit point. */
    method Append(event: string, ts: int, fields: Entry, persists: bool) returns (r: AppendResult)
      requires Valid()
      modifies this
      ensures Valid()
      ensures var e := Committed(hash, schemaVersion, old(entries), old(prev), event, ts, fields);
              && r == (match e case None => NotCommitted case Some(x) => if persists then Persisted(x) else CommittedOnly(x))
              && entries == (if e.Some? then old(entries) + [e.value] else old(entries))
              && (e.Some? ==> OrNull(e.value, FHash) == JStr(prev))
              && (e.None? ==> prev == old(prev))
    {
      var payload: Entry := Payload(schemaVersion, entries, prev, event, ts, fields);
      var digest := hash(prev, payload);
      if digest.None? { return NotCommitted; }
      payload := payload[FHash := JStr(digest.value)];
      prev := digest.value;
      nextSeq := nextSeq + 1;
      entries := entries + [payload];
      return if persists then Persisted(payload) else CommittedOnly(payload);
    }
  }
}
