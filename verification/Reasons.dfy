/** The outcome vocabulary of authorization decisions (src/reasons.ts). */
module Reasons {
  import opened Results

  datatype ReasonCode =
    | ScopeNotGranted | CeilingExceeded | UnknownConstraint
    | Expired | Revoked | Unmetered | NodeFinalized | CallIdUnavailable | NoAuthority
    | ChainRevoked | AgentBanned | TtlExpired | MaxDepth | MaxFanout | NotNarrower | Integrity
    | Custom(text: string)

  /** One cause of a denial. `constraint` names the ceiling, where one refused. */
  datatype Reason = Reason(code: ReasonCode, constraint: Option<string>)

  /** The result of a policy evaluation; `callId` is set on schema version 2 chains only. */
  datatype Decision = Decision(allowed: bool, reasons: seq<Reason>, callId: Option<string>)

  function CodeText(code: ReasonCode): string {
    match code
    case ScopeNotGranted => "scope_not_granted"
    case CeilingExceeded => "ceiling_exceeded"
    case UnknownConstraint => "unknown_constraint"
    case Expired => "expired"
    case Revoked => "revoked"
    case Unmetered => "unmetered"
    case NodeFinalized => "node_finalized"
    case CallIdUnavailable => "call_id_unavailable"
    case NoAuthority => "no_authority"
    case ChainRevoked => "chain_revoked"
    case AgentBanned => "agent_banned"
    case TtlExpired => "ttl_expired"
    case MaxDepth => "max_depth"
    case MaxFanout => "max_fanout"
    case NotNarrower => "not_narrower"
    case Integrity => "integrity"
    case Custom(text) => text
  }
}
