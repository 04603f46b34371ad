/** The ledger vocabulary the guard writes and the verifier reads (src/evidence.ts, src/reasons.ts). */
module Ledger {
  import opened Results
  import opened PlainJson
  import opened Audit

  datatype EventKind =
    | EventRoot | EventSpawn | EventSpawnDenied | EventAllow | EventDeny | EventKill | EventDone | EventOutcome

  function EventText(k: EventKind): string {
    match k
    case EventRoot => "root"
    case EventSpawn => "spawn"
    case EventSpawnDenied => "spawn_denied"
    case EventAllow => "allow"
    case EventDeny => "deny"
    case EventKill => "kill"
    case EventDone => "done"
    case EventOutcome => "outcome"
  }

  /** `LEDGER_EVENTS`. */
  const LEDGER_EVENTS: seq<EventKind> :=
    [EventRoot, EventSpawn, EventSpawnDenied, EventAllow, EventDeny, EventKill, EventDone, EventOutcome]

  function KindNamed(kinds: seq<EventKind>, s: string): (r: Option<EventKind>)
    ensures r.Some? ==> r.value in kinds && EventText(r.value) == s
    ensures r.None? ==> forall k :: k in kinds ==> EventText(k) != s
  {
    if kinds == [] then None else if EventText(kinds[0]) == s then Some(kinds[0]) else KindNamed(kinds[1..], s)
  }

  /** The event a text names, among `LEDGER_EVENTS`. */
  function EventNamed(s: string): Option<EventKind> {
    KindNamed(LEDGER_EVENTS, s)
  }

  lemma EventTextsDiffer(j: EventKind, k: EventKind)
    requires EventText(j) == EventText(k)
    ensures j == k
  {
  }

  lemma EventNamedText(k: EventKind)
    ensures EventNamed(EventText(k)) == Some(k)
  {
    assert k in LEDGER_EVENTS;
    EventTextsDiffer(KindNamed(LEDGER_EVENTS, EventText(k)).value, k);
  }

  /** The event of an entry; anything but a known name is none. */
  function EventOf(e: Entry): Option<EventKind> {
    match Get(e, FEvent)
    case Some(JStr(s)) => EventNamed(s)
    case _ => None
  }

  /** A member that is a string, and nothing otherwise. */
  function TextOf(e: Entry, f: Field): Option<string> {
    match Get(e, f)
    case Some(JStr(s)) => Some(s)
    case _ => None
  }

  const DISPOSITIONS: set<string> := {"held_pending_grant", "withheld_tier2", "unresolved", "out_of_authority"}

  const PRE_HOOK_ONLY := "pre_hook_only"

  /** Captures that promise a terminal observation of the body. */
  const TERMINAL_CAPTURES: set<string> := {"wrapper_sync", "wrapper_async", "framework_post_hook"}

  const CAPTURES: set<string> := TERMINAL_CAPTURES + {PRE_HOOK_ONLY}

  const UNLISTED := "unlisted"

  const BODY_RAISED := "raised"

  const BODY_STATES: set<string> := {"returned", BODY_RAISED, "abandoned", "deferred"}

  predicate IsHex(s: string, n: nat) {
    |s| == n && forall i :: 0 <= i < |s| ==> '0' <= s[i] <= '9' || 'a' <= s[i] <= 'f'
  }

  /** `isKnownPolicy`. */
  predicate IsKnownPolicy(v: Option<Json>) {
    v == Some(JStr(UNLISTED))
  }
}
