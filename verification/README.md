# Delegated authority: a Dafny model

A capability system for delegated agents has four parts that are written separately and only make sense if they
agree: a lattice of authorities, a live delegation tree that enforces it, a hash-chained ledger the tree's guards
write, and an offline verifier that judges the ledger again without access to the tree. This project models the
four parts and the canonical JSON they rest on, and proves that they agree.

## How the model is laid out

| part | modules |
|---|---|
| authorities, default profile and "02" | `Scopes`, `Ceilings`, `Authorities`, `Meets`, `Lattice`, `AuthorityWire`; what they mean, without their functions: `ScopeGrammar`, `Bounds`, `WireForms` |
| delegation tree and guards | `Chains`, `GuardSteps` (each call as a function of the state), `Guards` (the class); what a call decides and leaves behind, without those functions: `Decisions`, `Effects` |
| ledger | `Audit`, `Hashing`, `Ledger`, `Reasons` |
| offline verifier | `EvidenceRules` and `Evidence` (what is reported, stated of the entries alone), `EvidencePasses`, `ExecutionBinding`, `Verifier` (the source's loops and tables), `Envelopes`; the same verdicts read off the members of entries and envelopes: `EntryVerdicts`, `CallVerdicts`, `Accounts`, `Verdicts`, `Witnesses` |
| whole runs | `Honest`, `Runs`, `HonestCalls`, `RunCalls`, `Delegations`, `Completeness`, `PlainRuns`, `RunMeters`, `Metering`, `Exports`, `Redaction` |
| untrusted ledgers | `Soundness` |
| canonical JSON and its uses | `Canonical`, `CanonicalParser`, `PrintedValues`, `CanonicalLaws`, `JsonText`, `Display`, `Wire`; the grammar and the forms themselves: `JsonGrammar`, `PrintedForms`; when a token chain is accepted: `TokenChains` |
| counterexamples | `Divergences` |
| shared | `Results`, `PlainJson`, `Numerals` |

A loop of the source that updates variables is a method with that loop, and an object whose fields it updates is a
class. Such a method is proved equal to a function of its inputs or of the old state, and the theorems are about those
functions.

Laws about a relation leave open which relation it is. So the functions are also tied to predicates that share nothing
with them: they name members of entries by their text, code units, digits, clocks and depths, and say for every input
when a failure is reported, a call allowed, a token chain accepted, a text printed or parsed. `Verdicts.ReportedIff`,
`Decisions.AllowsIff`, `TokenChains.AcceptedIff`, `PrintedForms.ObjectForm` and `JsonGrammar.ParsesIff` are the largest
of these.

`Runs.Step` puts the guard's calls together; `Completeness.Reachable` is every state some sequence of them reaches,
with any clock, any random ids, refused and thrown calls, hashing that fails, and persistence that fails after the
commit point.

The hash of an entry is a parameter: a function of the previous digest and the entry, undefined where the entry has no
RFC 8785 text. The tamper-evidence results assume of it that two entries hash alike only if they continue one digest
and are canonically equal (`Audit.IsInjective`), and conclude canonical equality: the members of an object may stand
in any order. `Hashing` proves that a collision-free digest of the previous hash and the canonical text meets that
assumption, that no such hash could tell more apart, and that there is one. Ledgers compared are of JSON objects, which
hold no name twice, as the parser guarantees (`CanonicalLaws.ParsedIsValue`). Signatures, base64url, the clock and
random bytes are parameters, and so is the digest of a token.

## Where the code and its documentation or its intent part

Each of these is proved with its exact condition, and shown on a concrete input.

- `isNarrowerThan` holds of an authority and itself exactly when every unknown ceiling it holds can be written by
  RFC 8785 (`Authorities.NarrowerReflexive`; `Divergences.NotNarrowerThanItself` holds an integer of 2^53).
- `subsumes` on allow, deny and prefix ceilings does not compare the context field they read. It is sound for
  evaluation exactly when the two ceilings read one field (`Ceilings.SoundIffFieldsAgree`), and for authorities that
  grant something exactly when the narrower side's own ceilings on each field the wider side names admit no value the
  wider side refuses (`Authorities.SoundIffGuarded`), which is that all paired fields match where each field is read
  under one key (`Authorities.SoundIffFieldsMatch`). `Authorities.FieldMismatchWidens` shows a child that is narrower and permits
  more. Theorems about what is permitted carry that condition.
- `parent.meet(request)` is narrower than the request except where two prefixes are paired and neither extends the
  other, where an unknown ceiling of the parent stands against another ceiling of the request, and where an unknown
  ceiling of the request alone cannot be written (`Lattice.MeetWithinRequestIff`; `Divergences.MeetEscapesRequest`).
- The prefix no string is meant to match matches the strings that begin with its marker
  (`Ceilings.NarrowAdmitsBoth`; `Divergences.MeetGrantsMarkedPath`).
- A chain issued with an empty chain id exports a bundle that never verifies, because the exporter names it "chain"
  and every entry says otherwise (`Divergences.UnnamedChainNeverVerifies`).
- An allow or a deny list may hold a list or an object, which a `Set` compares by identity. `meet` carries the parent's
  own, and the guard grants the delegation; the verifier reads new ones from each entry and reports the grant as wider
  (`Divergences.RegrantedListIsReported`). A delegation whose entry commits keeps the ledger accepted exactly when no
  deny list of the parent, and nothing the grant keeps of an allow list of the parent's, holds one
  (`Delegations.Repeats`, `Completeness.StepVerifiesIff`). So a run's ledger verifies exactly when no delegation of it
  does that (`Completeness.EveryRunVerifies`), which is sure where no list written holds one
  (`PlainRuns.EveryPlainRunVerifies`), and its bundle when the chain id is not empty besides
  (`Exports.ExportVerifiesIff`). Runs are of built-in ceilings under the default profile, and on version 2 of fresh call
  ids and truthful reports.
- `recordOutcome` does not check what is reported. A report that commits keeps an accepted ledger accepted exactly when
  its call was allowed on the same node with the arguments authorized (`Completeness.OutcomeVerifiesIff`).

## Model

| member | source | states |
|---|---|---|
| Scopes.CoversReflexive | src/authority.ts:302-312 | A scope covers itself in both grammars. |
| Scopes.CoversTransitive | src/draft02.ts:137-145 | Covering composes on all strings, in both grammars. |
| Scopes.CommonCoverIsComparable | src/draft02.ts:137-145 | Two scopes that cover one string are comparable. |
| Scopes.PruningKeepsCoverage | src/authority.ts:351-359 | Dropping scopes a broader wildcard covers changes no string's coverage. |
| Scopes.IntersectionIsExact | src/authority.ts:344-359 | The pruned scopes of a meet cover a string if and only if both sides do. |
| ScopeGrammar.LiteralIff | src/draft02.ts:95-96 | A literal scope is two or more segments joined by dots. |
| ScopeGrammar.WildcardIff | src/draft02.ts:97-98 | A wildcard is one or more segments joined by dots and a final ".*". |
| ScopeGrammar.OpaqueIff | src/draft02.ts:99-100 | An opaque scope is of the token characters of RFC 6749 without an asterisk. |
| ScopeGrammar.CoversIff01 | src/authority.ts:302-306 | The default profile covers by equality, or by a prefix that ends at the dot before an asterisk. |
| ScopeGrammar.CoversIff02 | src/draft02.ts:137-145 | The "02" profile covers between scopes of its grammar; a wildcard covers no opaque scope. |
| Ceilings.SubsumesReflexive | src/ceilings.ts:971-980 | A ceiling subsumes itself; an unknown one exactly when its raw object can be canonicalized. |
| Ceilings.SubsumesTransitive | src/ceilings.ts:612-614 | Subsumption composes over every ceiling type of both profiles. |
| Ceilings.NarrowStaysBelow | src/ceilings.ts:878-894 | The narrower of two paired ceilings keeps the type and the pairing key, and the first side subsumes it (unknown ones as far as they can be written). |
| Ceilings.NarrowBelowSecond | src/ceilings.ts:967-969 | The second side subsumes the narrower ceiling, except for the prefix pairs and unknown ceilings it names. |
| Ceilings.NarrowIsGreatest | src/ceilings.ts:608-614 | Whatever both ceilings subsume the narrower one subsumes, and then narrowing does not throw. |
| Ceilings.SubsumedIsAdmitted | src/ceilings.ts:751-753 | A request the subsumed ceiling admits the subsuming one admits, when both read one field. |
| Ceilings.SoundIffFieldsAgree | src/ceilings.ts:817-821 | Subsumption implies admission for every scope and context if and only if the two ceilings read the same field. |
| Ceilings.NarrowAdmitsBoth | src/ceilings.ts:878-890 | The narrower ceiling admits exactly what both admit, and the strings that begin with the marked prefix. |
| Ceilings.NarrowRankAdmits | src/draft02.ts:497-510 | The lower of two ranks in one order admits exactly what both admit. |
| Ceilings.SameKeySamePattern | src/ceilings.ts:546-576 | Call limits of one key count one pattern. |
| Bounds.AdmitsIff | src/ceilings.ts:434-972 | Each class of ceiling admits a request exactly when its first member of the right name suits it: a number at most or at least the bound, a list that holds it, a rank no higher. |
| Bounds.FieldNames | src/draft02.ts:160-174 | Which member each key reads, as a quantity of one action, a lifetime total and a subtree total. |
| Bounds.KeyNames | src/ceilings.ts:434-640 | The key each ceiling is paired and written under. |
| Bounds.SubsumesIff | src/ceilings.ts:598-630 | Between comparable ceilings that read one field, one subsumes another exactly when it admits every request the other admits. |
| Authorities.NewAuthority | src/authority.ts:228-253 | The constructor builds an authority or refuses: scopes valid in the profile and kept once each, one ceiling per pairing key. |
| Authorities.HoldsOnePerKey | src/authority.ts:228-253 | The loop over the ceilings refuses exactly when two share a pairing key. |
| Authorities.IsNarrowerThan | src/authority.ts:427-444 | The loops with early returns decide the relation that `Bounds.NarrowerIff` states of scopes, ceilings and clocks. |
| Authorities.CoversScope | src/authority.ts:314-319 | The loop finds a held scope that covers the request if there is one. |
| Authorities.Permits | src/authority.ts:465-500 | Every failing reason is collected, in order; under "02" cumulative ceilings read the totals and the others the context. |
| Authorities.NarrowerReflexive | src/authority.ts:427-444 | An authority is narrower than itself exactly when its unknown ceilings can be written. |
| Authorities.NarrowerTransitive | src/authority.ts:427-444 | The relation composes, in both profiles and over all ceiling types. |
| Authorities.NarrowerIsSound | src/authority.ts:411-426 | What a narrower authority grants the wider one grants, for every scope, context and totals. |
| Authorities.SoundIffGuarded | src/authority.ts:411-426 | Where the narrower side grants something, narrowing is sound for evaluation if and only if, field by field, its own ceilings admit no value the wider side refuses. |
| Authorities.SoundIffFieldsMatch | src/authority.ts:411-426 | Where the narrower side grants something and each field is read under one key, narrowing is sound for evaluation if and only if all paired fields match. |
| Authorities.FieldMismatchWidens | src/ceilings.ts:751-753 | A concrete child that is narrower than its parent and permits what the parent refuses, by naming another field. |
| Bounds.GrantsIff | src/authority.ts:465-500 | A request is granted exactly when a held scope covers it and it suits every ceiling. |
| Bounds.OneCeilingMore | src/authority.ts:465-500 | One ceiling more adds its own reason at the end, exactly when the request does not suit it. |
| Bounds.TotalsRefusedIff | src/authority.ts:465-500 | Totals are refused exactly under the default profile, or where one names nothing a cumulative ceiling reads. |
| Bounds.TtlIff | src/authority.ts:436-443 | One ttl is within another exactly when at every clock, from every moment, it has run out wherever the other has. |
| Bounds.NarrowerIff | src/authority.ts:427-444 | The relation holds exactly of one profile, when every scope is covered, every ceiling subsumed by one of its key and class, and the narrower side never outlives the wider. |
| Bounds.NarrowerNeverOutlives | src/authority.ts:436-443 | Whenever the wider authority has run out, the narrower one given at the same moment has. |
| Meets.MeetOf | src/authority.ts:334-409 | The source's loops over scopes and keys compute the meet, or refuse with no common narrowing. |
| Meets.HeldInMeet | src/authority.ts:365-403 | Key by key the meet holds the combination of what the sides hold: narrowed where both bound, carried where one does. |
| Meets.MeetRefusedIff | src/authority.ts:361-403 | There is no meet exactly between two profiles, and where two ceilings held under one key have no common narrowing. |
| Lattice.MeetIsValid | src/authority.ts:405-409 | A meet is a well-formed authority. |
| Lattice.MeetIsNarrower | src/authority.ts:361-364 | The meet is narrower than this side exactly where this side's unknown ceilings can be written. |
| Lattice.MeetWithinRequestIff | src/authority.ts:319-333 | The meet is narrower than the request if and only if no ceiling of the request escapes it. |
| Lattice.MeetIsGreatest | src/authority.ts:334-409 | Any authority narrower than both sides is narrower than their meet, and then the meet does not throw. |
| Lattice.MeetGrantsBoth | src/authority.ts:334-409 | The meet permits a scope in a context if and only if both sides do, marked prefix strings apart, given paired ceilings reading one field. |
| AuthorityWire.CeilingRoundTrip | src/ceilings.ts:1003-1023 | A built-in ceiling's wire form is read back whole as the same ceiling, a redundant field and the identity of lists and objects in it aside. |
| AuthorityWire.AuthorityRoundTrip | src/authority.ts:567-624 | So is an authority of built-in ceilings. |
| AuthorityWire.RereadGrantsAlike | src/authority.ts:576-624 | What is read back permits the same requests. |
| AuthorityWire.RereadSubsumes | src/ceilings.ts:751-753 | Read back from two entries, a ceiling subsumes another exactly when it did and no list or object stands in the way. |
| AuthorityWire.RereadNarrowsIff | src/evidence.ts:602-644 | Two authorities read back from two entries are in the narrowing relation exactly when they were and no list or object stands in the way. |
| WireForms.CeilingReadIff | src/authority.ts:106-186 | A wire object is read whole as a ceiling exactly when its members are a whole constraint of it: key, class, bounds, and no member it would not write back. |
| WireForms.AuthorityReadIff | src/authority.ts:576-624 | A wire value is read as an authority exactly when its members state it: scopes of the grammar, whole constraints one of a key, and a ttl. |
| Audit.Verify | src/audit.ts:304-344 | The walk accepts exactly when every entry carries its position, continues the previous hash and hashes to its own; otherwise it stops at the first that does not, with the first reason. |
| Audit.IntegrityBreak | src/evidence.ts:2588-2615 | Null exactly when `AuditLog.verify` accepts, otherwise a position where the walk stops. |
| Audit.StopsOnce | src/evidence.ts:2578-2587 | The two walks, written apart, name one entry. |
| Audit.SameHeadSameLedger | src/audit.ts:304-344 | Two ledgers that verify and end in one hash have one length and equal canonical entries, under a hash that tells canonical entries apart. |
| Audit.SameLink | src/audit.ts:304-344 | Entries of one stored hash are canonically equal, stand at one place and continue one digest. |
| Hashing.EntryTextIff | src/audit.ts:70-75 | Two entries have one RFC 8785 text if and only if they are canonically equal. |
| Hashing.HashIsInjective | src/audit.ts:70-75 | A collision-free digest of previous hash and text tells entries apart up to canonical equality, and the previous hash from the text. |
| Hashing.HashIsCanonical | src/audit.ts:70-75 | Canonically equal entries hash alike. |
| Hashing.SameLedgerSameVerdict | src/audit.ts:304-344 | A ledger and its canonical equal verify together, so tamper evidence ends at canonical equality. |
| Hashing.SomeHashIsInjective | src/audit.ts:70-75 | There is such a hash, defined on every entry that has a text. |
| JsonText.WritableIff | src/canonical.ts:223-297 | A plain value can be canonicalized exactly when the printer writes it. |
| JsonText.PrintedAlikeIff | src/canonical.ts:300-303 | Two plain values are printed alike exactly when they are the same up to member order. |
| JsonText.IdenticalUnknownIff | src/draft02.ts:650-656 | Two unknown ceilings are identical exactly when the printer writes both, and alike. |
| Audit.AppendVerifies | src/audit.ts:177-200 | Appending keeps `verify` true and moves the head. |
| Audit.AuditLog.Append | src/audit.ts:177-200 | The three-way commit: the entry written, written but not persisted, or nothing changed. |
| Chains.NodeIdInjective | src/chain.ts:117-119 | Node ids of one chain are unique. |
| Chains.Chain.FindDelegationError | src/chain.ts:153-193 | Which structural precondition refuses, in the source's order. |
| Chains.Chain.AddRoot | src/chain.ts:121-138 | The new chain is a tree of one node. |
| Chains.Chain.AddChildNode | src/chain.ts:195-226 | A refusal changes nothing; otherwise the new node holds the meet, and the tree and attenuation invariants hold. |
| Chains.WithChildKeepsTree | src/chain.ts:195-226 | A permitted delegation keeps ids, depth and fanout bounds, parent links and closure of revocation and bans. |
| Chains.WithChildAttenuates | src/chain.ts:195-226 | Every child stays narrower than its parent. |
| Chains.NarrowerThanAncestors | src/chain.ts:195-226 | Every node is narrower than every ancestor, along the whole path. |
| Chains.DescentIsAcyclic | src/chain.ts:195-226 | No node is its ancestor's ancestor. |
| Chains.Chain.Revoke | src/chain.ts:231-245 | The worklist ends with the old set plus the whole subtree, although it skips what is revoked; the returned ids are the new ones, each once. |
| Chains.ClosedRevocation | src/chain.ts:231-245 | An empty worklist leaves exactly the old set and the subtree, closed under children. |
| Chains.Chain.RevokeAgent | src/chain.ts:258-267 | All nodes of the agent with their subtrees are revoked, the agent is banned, and the new ids are returned once each. |
| Chains.AgentRevoked | src/chain.ts:258-267 | Revoking node by node ends with the union of the subtrees, and the ban then holds. |
| Chains.Chain.CountCall | src/chain.ts:296-301 | One more under the node's key for the pattern, no other meter changed. |
| Chains.Chain.UncountCall | src/chain.ts:308-313 | One fewer and never below zero, no other meter changed. |
| Chains.Chain.RecordStrike | src/chain.ts:316-320 | The new count is stored and returned. |
| Chains.Chain.RegisterPending | src/chain.ts:325-332 | The call is pending on the node, in order, once. |
| Chains.Chain.ResolvePending | src/chain.ts:340-348 | The call is removed from the node that holds it, which is returned; null when there is none. |
| Chains.RegisterAt | src/chain.ts:325-332 | Registering changes what is pending on that node and on no other. |
| Chains.ResolveAt | src/chain.ts:340-348 | A call pending on one node is resolved there and every other pending call stays. |
| Guards.Guard.Issue | src/guard.ts:258-292 | A new chain holding its root, with the root entry committed, or the throw. |
| Guards.Guard.FillMeters | src/guard.ts:590-606 | Fills the count of each applicable call limit the caller left undeclared, from the stored meter. |
| Guards.Guard.EvaluateRequest | src/guard.ts:449-525 | Node state, then strict metering, then scope and ceilings: the evaluation whose every outcome `Decisions.AuthorizeIff` and `Decisions.ReasonIff` state of the node and the clock. |
| Guards.Guard.Check | src/guard.ts:663-815 | One check does to chain and ledger what the step says: meters, call id, commit or roll-back, pending call, strike revocation. |
| Guards.Guard.EnforceTransition | src/guard.ts:691-714 | An allow is counted before its call id is drawn and taken back when there is none. |
| Guards.Guard.CommitDecision | src/guard.ts:752-781 | A failure before the commit point restores the meters; one after it keeps them and the pending call. |
| Guards.Guard.ApplyStrikes | src/guard.ts:792-813 | A denial is counted and at the threshold the node's subtree is revoked and a kill written. |
| Guards.Guard.Delegate | src/guard.ts:397-424 | A child guard on the meet with a spawn entry, or the refusal recorded and the chain unchanged. |
| Guards.Guard.RecordDenial | src/guard.ts:869-904 | The deny entry, and no change to the chain. |
| Guards.Guard.RecordPassthrough | src/guard.ts:925-974 | The ungated allow entry under a recognised policy. |
| Guards.Guard.Complete | src/guard.ts:372-384 | Refused while a call of a version 2 chain is open, otherwise marked and recorded once. |
| Guards.Guard.RecordOutcome | src/guard.ts:993-1073 | One outcome per call id; the call is resolved only after the commit. |
| Guards.Guard.SnapshotPending | src/guard.ts:1082-1088 | The open calls of the revoked nodes, each once. |
| Guards.Guard.Revoke | src/guard.ts:1091-1097 | The cascade, its kill entry, and the newly revoked ids. |
| Guards.Guard.RevokeAgent | src/guard.ts:1106-1117 | The agent's cascade, the ban and the kill entry. |
| Guards.Guard.IsDescendantOf | src/guard.ts:347-355 | Terminates and decides proper ancestry in the same chain. |
| Decisions.MeteredReads | src/guard.ts:590-606 | The evaluation reads the next count of every held limit the caller left uncounted, and otherwise what the caller states. |
| Decisions.AuthorizeIff | src/guard.ts:449-525 | A check evaluates to an allow exactly when the node is unfinished, unrevoked and in its time and the request is declared, covered and within every ceiling; else it denies for the first cause in that order. |
| Decisions.ReasonIff | src/guard.ts:454-480 | A node is denied as expired exactly when it is neither finished nor revoked and its ttl is less than its age; and likewise for finished and revoked. |
| Decisions.AllowsIff | src/guard.ts:663-815 | A check returns an allow, and appends the one entry it is charged by, exactly when its options are accepted, the node may act now and the entry can be written. |
| Decisions.RefusedNeverActs | src/guard.ts:663-815 | Where the node may not act, no outcome of the call allows, nothing it would be charged by is appended, and every meter stands as it did. |
| Decisions.ExpiredNeverActs | src/guard.ts:466-478 | Past its ttl a node never acts, whatever is asked of it and however the call goes. |
| Decisions.DeniesIff | src/guard.ts:663-815 | A denial that is written gives its first cause. |
| Effects.AppendIff | src/audit.ts:177-200 | An entry that is written carries exactly its framing and the caller's members, and a hash that continues the last; one that is not leaves all but the clock. |
| Effects.CheckWritesEntry | src/guard.ts:530-570 | Member by member what a check writes. |
| Effects.UnwrittenCheck | src/guard.ts:735-781 | A decision that cannot be written is a throw, unless the request is what cannot be: then a denial without it is recorded. |
| Effects.CheckRegisters | src/guard.ts:781-792 | After a written allow whose capture promises an end its call is pending on the node, and nothing else is. |
| Effects.StrikesIff | src/guard.ts:792-813 | A denial is counted once under its own key, and the node and all below it are revoked exactly at the limit. |
| Effects.StrikeWritesKill | src/guard.ts:792-813 | What the kill of a strike writes. |
| Effects.OpenAtKillIff | src/guard.ts:1082-1088 | A call is reported open at a kill exactly when it is pending on a node the kill revoked. |
| Effects.DeclinedIff | src/chain.ts:153-226 | A delegation is declined with a reason exactly when that is its first cause, in terms of bans, revocation, clocks, depth, children and the meet. |
| Effects.DelegationDeclined | src/guard.ts:397-424 | A declined delegation leaves the chain as it was and records the cause. |
| Effects.DelegationGranted | src/guard.ts:397-424 | Any other adds one child, on the meet, and writes what was asked and what was granted. |
| Effects.CompletesIff | src/guard.ts:372-384 | A node completes once, and on version 2 not while a call of it is pending. |
| Effects.OutcomeTakenIff | src/guard.ts:993-1073 | A call has one outcome, and what it writes, member by member. |
| Effects.RevokesIff | src/guard.ts:1091-1097 | A node is revoked exactly when it was or it descends from the target, whatever becomes of the entry. |
| Effects.RevokesAgentIff | src/guard.ts:1106-1117 | And for an agent, when it descends from any node the agent holds. |
| Effects.DenialRecorded | src/guard.ts:869-904 | A denial from outside is recorded with the caller's reason alone, once it has its call id. |
| Effects.PassthroughRecorded | src/guard.ts:925-974 | A call passed through is recorded as an allow under the one policy that exists. |
| Effects.IssuesRoot | src/guard.ts:258-292 | The root entry states the root's authority and, on version 2, its salt. |
| EvidencePasses.NodeAuthorities | src/evidence.ts:602-644 | The table of authorities is what each node's first definition carries, and unreadable ones are reported. |
| EvidencePasses.MonotonicityPass | src/evidence.ts:3057-3124 | Reports, in ledger order, every definition that is a duplicate, has no earlier parent, has a revoked one or is wider than it: the findings `EntryVerdicts.MonotonicityIff` states of the entries. |
| Verifier.VersionPass | src/evidence.ts:2837-2889 | One supported version throughout and exactly one root. |
| Verifier.LedgerFieldsPass | src/evidence.ts:2890-2953 | Every entry's event is one its version defines and every member is known. |
| Verifier.NodePass | src/evidence.ts:2955-2970 | A node that is not text is reported where no other pass reads it. |
| Verifier.ChainPass | src/evidence.ts:2972-3056 | The retained head, one chain id and the hash chain. |
| Verifier.ContainmentPass | src/evidence.ts:3126-3206 | Every gated allow is judged against its node's authority and the kills before it; gated and ungated allows are counted. |
| Verifier.PolicyPass | src/evidence.ts:2293-2320 | A policy is one the format defines, and stands on an allow. |
| Verifier.VerifyBundle | src/evidence.ts:2792-3206 | The report is the failures `Verdicts.ReportedIff` characterizes, in order, and ok says there is none; the aggregate is the one `Accounts.AggregateIff` characterizes. |
| Evidence.AcceptsIff | src/evidence.ts:2792-3206 | Nothing is reported if and only if every rule holds of every entry. |
| EntryVerdicts.HoldsIff | src/evidence.ts:602-644 | The authority a node holds is what its first definition states and can be read. |
| EntryVerdicts.MonotonicityIff | src/evidence.ts:3057-3124 | A definition is reported exactly when an earlier one opens its node, no earlier one opens its parent, an earlier kill revokes its parent, or what it holds is not within what its parent holds. |
| EntryVerdicts.ContainmentIff | src/evidence.ts:3126-3206 | An allow is reported exactly when its node is not opened, revoked, without authority, or not granted the scope in the context stated. |
| EntryVerdicts.LinksIff | src/audit.ts:304-344 | The walk passes an entry exactly when it carries its number, the hash before it, and the hash of its other members. |
| EntryVerdicts.VersionIff | src/evidence.ts:2837-2889 | What is reported of the versions and the root. |
| EntryVerdicts.ChainIff | src/evidence.ts:2972-3056 | What is reported of the head, the chain ids and the hashes. |
| CallVerdicts.AllowIff | src/evidence.ts:2063-2114 | Which allow of a version 2 ledger is whole, read off its members. |
| CallVerdicts.OutcomeIff | src/evidence.ts:2126-2176 | Which outcome is. |
| CallVerdicts.OtherRecordsIff | src/evidence.ts:2116-2204 | Which deny, root and kill are. |
| CallVerdicts.LeakIff | src/evidence.ts:2322-2341 | An entry of a version 1 ledger is reported exactly when it carries a newer member. |
| CallVerdicts.RecordIff | src/evidence.ts:2362-2447 | What the first loop reports of an entry: a record that is not whole, a call judged before, an outcome given before. |
| CallVerdicts.BindingIff | src/evidence.ts:2459-2501 | What the second reports of a first outcome against the allow that stands for its call: another node, no larger seq, other arguments, or no such allow. |
| Verdicts.ReportedIff | src/evidence.ts:2792-3206 | A failure is reported, of an entry or of the whole, exactly when the bundle earns it, said of its members alone. |
| Verdicts.AcceptedIff | src/evidence.ts:2792-3206 | So a bundle is accepted exactly when it earns none. |
| Accounts.CallStateIff | src/evidence.ts:2503-2528 | A call is observed, unobserved or unaccounted by its outcome and by what its last whole allow promised. |
| Accounts.LifecycleIff | src/evidence.ts:2530-2543 | A node is finished, in progress, revoked, or revoked with a call owed. |
| Accounts.AggregateIff | src/evidence.ts:2545-2564 | Failed, clean or incomplete, said of the entries. |
| ExecutionBinding.RecordPass | src/evidence.ts:2362-2447 | The first loop reports what each entry earns and leaves tables that say what the ledger says. |
| ExecutionBinding.BindPass | src/evidence.ts:2459-2501 | Each first outcome is bound to the last valid allow of its call: node, order, arguments. |
| ExecutionBinding.OnlyFirstOutcomesBind | src/evidence.ts:2459-2501 | Walking the outcome table reports what a walk over all entries would. |
| ExecutionBinding.ScoreCalls | src/evidence.ts:2503-2528 | A call's state and the nodes with a call that never reported. |
| ExecutionBinding.ScoreNodes | src/evidence.ts:2530-2543 | Finished, in progress, revoked, or revoked with calls open. |
| ExecutionBinding.AggregateState | src/evidence.ts:2545-2564 | Clean, incomplete or failed, whatever the order of the tables. |
| ExecutionBinding.Score | src/evidence.ts:2343-2576 | The whole score under either version. |
| Soundness.OfflineSoundness | src/evidence.ts:3057-3206 | On any ledger: with no failure, every allow without a recognised policy is granted by its node and every ancestor up to the single root, no earlier kill names its node, and every link on the way was made before any kill of its parent. |
| Verdicts.AllowsAreSound | src/evidence.ts:3057-3206 | The same over members alone: an allow of an accepted ledger acts on an unrevoked node that hangs from the root by links made under unrevoked parents, and every authority on the way permits it. |
| Verdicts.SpawnHangs | src/evidence.ts:3085-3100 | Every spawn of an accepted ledger opens a new node under one opened earlier that no kill before it revokes, within its authority. |
| Verdicts.AcceptedBoundsTtl | src/evidence.ts:3057-3124 | On an accepted ledger the ttl of a bounded ancestor bounds that of every node below it. |
| Soundness.AncestorsGrant | src/evidence.ts:3057-3124 | What a defined node is granted every ancestor is granted. |
| Soundness.ReachesRoot | src/evidence.ts:3057-3124 | Every defined node hangs from a root. |
| Soundness.SingleRoot | src/evidence.ts:2855-2864 | An accepted bundle has one root entry. |
| Soundness.HeadPinsLedger | src/evidence.ts:2972-3008 | A bundle accepted against a retained head carries the retained ledger, entry for canonical entry. |
| Soundness.CallsAreDistinct | src/evidence.ts:2395-2423 | No two allows or denies of an accepted version 2 ledger share a call id. |
| Soundness.OutcomesAreDistinct | src/evidence.ts:2424-2446 | No two outcomes do. |
| Soundness.CleanMeansAccounted | src/evidence.ts:2362-2564 | With aggregate clean every allow on a defined node has exactly one outcome, on that node, at a larger seq. |
| Soundness.CleanNodesAreClosed | src/evidence.ts:2530-2564 | And every defined node is done or cleanly revoked. |
| Honest.AppendKeeps | src/guard.ts:438-440 | Every append of a guard keeps the tie between the live chain and the ledger. |
| Honest.SpawnRulesHold | src/evidence.ts:3057-3124 | The verifier finds nothing at a spawn the guard writes, or only that its grant does not read back within its parent. |
| Honest.InvAccepts | src/evidence.ts:2792-3206 | Once execution binding finds nothing, a ledger so tied is accepted exactly when every grant reads back within its parent. |
| Runs.MeetIsBuiltin | src/authority.ts:365-403 | A meet of built-in ceilings holds built-in ceilings. |
| Runs.DelegateKeeps | src/guard.ts:397-424 | Delegation keeps the tie, granted or refused. |
| Runs.CheckKeeps | src/guard.ts:663-815 | A check keeps it, whatever is refused, thrown or not persisted. |
| Runs.StepKeeps | src/guard.ts:258-1117 | Every call of a program keeps it, and none but a delegation changes what is found of the grants. |
| Delegations.MeetReadsBackIff | src/authority.ts:365-403 | A meet reads back within the parent exactly when it repeats no list and no object of the parent's. |
| Delegations.StepGrants | src/guard.ts:397-424 | A call leaves the grants found in order exactly when they were and it writes no grant that repeats one. |
| RunCalls.StepKeepsCalls | src/guard.ts:663-1073 | On a version 2 chain every call keeps pending calls, outcomes and completions in step with the ledger. |
| HonestCalls.NeverFailed | src/evidence.ts:2545-2564 | A ledger in step never aggregates to failed. |
| Completeness.IssueIsReachable | src/guard.ts:258-292 | A chain just issued is a reachable state. |
| Completeness.StepIsReachable | src/guard.ts:372-1117 | So is the state after any call a program can make in one. |
| Completeness.StepVerifiesIff | src/guard.ts:372-1117 | A call keeps an accepted ledger accepted, and a refused one refused, unless it is a delegation that commits a grant repeating a list or an object of its parent's. |
| Completeness.EveryRunVerifies | src/guard.ts:258-1117 | The ledger of a run passes every pass of the verifier with no failure if and only if no delegation of it commits such a grant. |
| PlainRuns.EveryPlainRunVerifies | src/guard.ts:258-1117 | Where the root and every request hold no list and no object in their lists, the ledger of any run verifies. |
| Completeness.EveryRunIsBound | src/guard.ts:372-384 | On every version 2 run execution binding reports nothing and never fails, and a completed node has no pending call. |
| Completeness.EveryRunKeepsTree | src/chain.ts:153-226 | In every reachable state depth is bounded, parents are acyclic, every node is narrower than every ancestor and outlives none that is bounded, and revocation reaches all descendants. |
| RunMeters.CheckMeters | src/guard.ts:691-781 | A check counts the limits it metered of a committed allow and nothing else; one that fails before the commit leaves every meter as it was. |
| Metering.CheckWrites | src/guard.ts:691-781 | A check writes a gated allow on its node, first of what it appends, exactly when it authorizes and commits. |
| Metering.AutoMeterFills | src/guard.ts:590-606 | A limit is filled exactly when it applies to the scope and the caller did not declare its count. |
| Metering.FillsIff | src/guard.ts:691-781 | Under the key of a held limit a call counts once or not at all: once exactly when it is a check on that node that writes a gated allow, the limit applies and its count was left undeclared. |
| Metering.MetersCountAllows | src/chain.ts:292-313 | Over a run the stored meter of a held limit is the number of those calls, each with its own gated allow on the ledger, in order, to which the limit applies. |
| RunMeters.MetersNeverExceed | src/guard.ts:590-606 | In every reachable state the meter of a held call limit is at most max(0, maxCalls). |
| RunMeters.StrikesNeverReach | src/guard.ts:792-813 | With an enabled policy no unrevoked node has n or more counted denials under one key. |
| RunMeters.NodeKeyInjective | src/strikes.ts:35-37 | Within a chain a node and a text are told apart by their key. |
| RunMeters.BanIsForever | src/chain.ts:258-267 | After `revokeAgent(a)` no state of the run has an unrevoked node held by `a`. |
| Completeness.OutcomeVerifiesIff | src/guard.ts:993-1073 | A committed outcome leaves a version 2 ledger accepted if and only if it was and the outcome reports a call its own node was allowed, with the arguments authorized. |
| Divergences.NotNarrowerThanItself | src/ceilings.ts:971-980 | An authority that is not narrower than itself. |
| Divergences.MeetEscapesRequest | src/ceilings.ts:878-890 | A meet that is not narrower than the request. |
| Divergences.MeetGrantsMarkedPath | src/ceilings.ts:878-890 | A meet that permits a path the request refuses. |
| Divergences.RegrantedListIsReported | src/ceilings.ts:346-368 | A run of one delegation, granted live, whose ledger the verifier refuses: the allow list holds a list. |
| Divergences.UnnamedChainNeverVerifies | src/audit.ts:361-367 | A chain without an id whose exported bundle is refused. |
| Exports.ExportBundle | src/evidence.ts:343-395 | The bundle carries the ledger, redacted or not, under the version and chain id read off it. |
| Exports.VersionReadIff | src/evidence.ts:195-218 | The bundle's version is that of the first root that states one, and 1 without any. |
| Exports.ChainReadIff | src/audit.ts:361-381 | Its chain id is the first text that is not empty, and "chain" without any. |
| Exports.ExportVerifiesIff | src/audit.ts:361-367 | The bundle a run exports verifies if and only if its chain id is not empty and no delegation of it repeats a list or an object of its parent's. |
| Exports.RedactedExportVerifiesIff | src/evidence.ts:329-341 | And so does the redacted one. |
| Redaction.Redact | src/evidence.ts:358-371 | Only tasks and the two hashes change, and the ledger that ships verifies when the source's entries are numbered. |
| Redaction.RedactionKeepsVerdict | src/evidence.ts:329-341 | The verifier reports of the redacted ledger exactly what it reports of the source. |
| Envelopes.SubjectIndex | src/evidence.ts:1043-1054 | A seq finds the last entry that answers to it: by its own integral seq, or by position when it has none. |
| Envelopes.RecomputedHashes | src/evidence.ts:1014-1031 | Each hash is recomputed from the genesis and never read off the entry. |
| Envelopes.ScoreEnvelope | src/evidence.ts:1698-1953 | One envelope: its failures in order, the entry it claims, and the entry it covers if it is first and passes. |
| Envelopes.ScoreEnvelopes | src/evidence.ts:1604-1667 | An entry is in `witnesses` if and only if exactly one envelope claims it and that envelope passes every later check, and it is filed under that envelope's key. |
| Envelopes.CoverageIsComplete | src/evidence.ts:1604-1667 | Scoring reports nothing if and only if as many entries are witnessed as there are envelopes. |
| Envelopes.PassesUnderTrustedKey | src/evidence.ts:1892-1922 | An envelope that passes names a trusted key. |
| Witnesses.PassesIff | src/evidence.ts:1698-1953 | An envelope passes against an entry exactly when it is of version 1 and its own members, its subject names the entry by number, hash and locators, the bytes received are canonical, and its signature verifies under the trusted key its kid names. |
| Witnesses.WitnessedOnce | src/evidence.ts:1604-1667 | An entry is witnessed exactly when one envelope stands behind it and no other claims it. |
| Witnesses.WitnessRefusedIff | src/evidence.ts:1892-1950 | Which reason each defect of the key or the signature earns. |
| Witnesses.RefusedIff | src/evidence.ts:1698-1953 | Which reasons are given for an envelope, from its members. |
| Witnesses.RecomputedIff | src/evidence.ts:1014-1031 | The recomputed hash is of the entry's other members after the one before it, or after 64 zeros at the start and past a break. |
| Envelopes.RecomputedIsStored | src/evidence.ts:1008-1013 | On a ledger that verifies the recomputed hashes are the stored ones. |
| Envelopes.EnvelopePinsLedger | src/evidence.ts:1838-1845 | One envelope passes against two ledgers that verify only if they agree, canonically, up to the entry it covers. |
| Canonical.CheckUnicode | src/canonical.ts:190-203 | The loop accepts exactly the texts without a lone surrogate. |
| Canonical.OneOrder | src/canonical.ts:223-297 | Of two names that differ exactly one stands before the other; that the order is the ascending one of UTF-16 code units (section 3.2.3 of RFC 8785) is `PrintedForms.PrecedesIff`. |
| PrintedForms.PrecedesIff | src/canonical.ts:287-290 | One name stands before another exactly when it is a proper prefix, or has the smaller code unit where they first differ. |
| PrintedForms.ArrangedIff | src/canonical.ts:287-290 | What is sorted is the one arrangement of the members in that order. |
| PrintedForms.ObjectForm | src/canonical.ts:272-293 | An object prints exactly as its members in that order, each a quoted name, a colon and its value, between braces and commas. |
| PrintedForms.ListForm | src/canonical.ts:247-267 | A list prints as its items in order. |
| PrintedForms.StringForm | src/canonical.ts:205-208 | A string prints as its units, each by the spelling of section 3.2.2.2 of RFC 8785, or is refused for a lone surrogate. |
| PrintedForms.IntegerForm | src/canonical.ts:210-216 | An integer in the safe range prints as its digits without a leading zero; any other is refused. |
| PrintedForms.PairedIff | src/canonical.ts:190-203 | A text is accepted exactly when every high surrogate is followed by a low one and every low one follows a high one. |
| CanonicalParser.Parser.ParseString | src/canonical.ts:420-459 | The moving cursor reads the string the text holds there, or fails where it fails. |
| CanonicalParser.Parser.ParseNumber | src/canonical.ts:461-472 | Likewise a number. |
| CanonicalParser.Parser.ParseArray | src/canonical.ts:401-418 | Likewise an array. |
| CanonicalParser.Parser.ParseObject | src/canonical.ts:375-399 | Likewise an object, refusing a member name seen before. |
| CanonicalParser.ParseText | src/canonical.ts:329-336 | One value, white space around it, and nothing after. |
| JsonGrammar.ParsesIff | src/canonical.ts:329-472 | The parser returns a value exactly when the text is one of that value by the grammar of RFC 8259, in both directions, with no member name repeated and no lone surrogate. |
| PrintedValues.ParsePrinted | src/canonical.ts:329-472 | A printed value is read back under any spelling of strings that itself reads back. |
| CanonicalLaws.SerializeIsPrint | src/canonical.ts:223-297 | The printer's text is the spelling of the value with its members arranged; which arrangement and which spelling are `PrintedForms.ObjectForm` and `PrintedForms.StringForm`. |
| CanonicalLaws.RoundTrip | src/canonical.ts:300-303 | The parser gives back the printed value with its members ordered. |
| CanonicalLaws.SameIffNormal | src/canonical.ts:223-297 | Two values are the same up to member order exactly when ordering makes them equal. |
| CanonicalLaws.PrintsAlikeIffSame | src/canonical.ts:300-303 | Two values print alike if and only if they are the same up to member order. |
| CanonicalLaws.ParsedIsValue | src/canonical.ts:329-336 | What the parser returns has distinct member names throughout. |
| CanonicalLaws.OneAcceptedText | src/wire.ts:381-410 | Each printable value has exactly one text that survives the byte comparison. |
| Display.PyJsonString | src/display.ts:166-181 | The loop writes the quoted ASCII spelling. |
| Display.SpellsAsciiIff | src/display.ts:166-181 | The spelling of each code unit. |
| Display.ShownAsItIsIff | src/display.ts:108-120 | A text of printable ASCII without space, quote and backslash is shown as it is, any other as its JSON. |
| Display.EscapedIsPrinted | src/display.ts:129-159 | Replacing spaces in the text is printing with another spelling, as spaces stand only inside strings. |
| Display.ShownIsOneToken | src/display.ts:108-120 | What is shown is printable ASCII with no space and not empty, so no value adds a token or a line. |
| Display.EscapedReadsBack | src/display.ts:129-131 | A JSON parser gives the escaped value back. |
| Display.ShownReadsBack | src/display.ts:108-120 | Any text without a lone surrogate is read back from the token it is shown as, bare or quoted. |
| Wire.CheckParHashes | src/wire.ts:821-850 | The loop stops at the first token whose commitment to its parent is missing, unreadable or wrong. |
| Wire.CheckSubsumption | src/wire.ts:910-949 | The loop carries the depth bound along the chain and stops at the first token that widens it or the authority. |
| Wire.CheckTimes | src/wire.ts:951-990 | The loop carries the previous expiry and stops at the first token outside its window or later than its parent. |
| Wire.Load | src/wire.ts:765-1019 | The first failure in the draft's order, or acceptance: the answer `TokenChains.DeniedIff` and `TokenChains.AcceptedIff` state of claims, commitments, authorities, windows and signatures. |
| TokenChains.AcceptedIff | src/wire.ts:765-1019 | A chain is accepted exactly when it is not empty and every token is read, signed, committed to the one before, in its place, of one principal, within its parent, in its time and expiring no later, and the leaf names the audience. |
| TokenChains.DeniedIff | src/wire.ts:765-1019 | It is denied with a reason exactly when that is the first thing it lacks, in the draft's order. |
| Wire.WithinEveryAncestor | src/wire.ts:910-949 | Every accepted token is narrower than every earlier one. |
| Wire.EveryAncestorGrants | src/wire.ts:910-949 | Whatever a token's authority permits every earlier token's permits. |
| Wire.TimesHold | src/wire.ts:951-990 | `now` is in every token's window and expiry never increases. |
| Wire.BoundsShrink | src/wire.ts:852-938 | The depth bound never grows and bounds the number of tokens. |
| Wire.LeafDeterminesChain | src/wire.ts:821-850 | Under an injective digest the leaf's signing input determines the whole chain and its length. |

## Left out

- Numbers: JSON numbers are integers. A number with a fraction or an exponent is carried as its literal where a text is
  parsed, and is neither printed nor escaped; a literal too large for a double is not told apart.
- Lone surrogates: plain strings are of Unicode scalar values, so none holds one. The printer, the parser and display
  are over UTF-16 units and refuse it as the code does (src/canonical.ts:190-203).
- Ceilings.SubsumesReflexive: an unknown ceiling that holds a lone surrogate is not narrower than itself either; the
  plain strings of the model cannot hold one.
- Authorities.NarrowerReflexive: likewise.
- Order: scopes, ceilings, list members and pending ids stand in the order they are held; the sorted order the source
  stores and writes is not modelled, and objects whose member names read as integers are not reordered.
- Authorities.NewAuthority: does not state the sorted order of the stored ceilings.
- Meets.MeetOf: likewise, of the resulting ceilings.
- Guards.Guard.SnapshotPending: likewise, of the ids.
- Signatures: `AuditLog.verifyAnchor`, the anchor and the independently retained anchor are foreign cryptography.
- Verifier.VersionPass: the anchor's version is not checked.
- Verifier.ChainPass: the retained head is compared, signed anchors are not.
- In-process seal: taken to hold, so an integrity refusal does not occur.
- Chains.Chain.FindDelegationError: without the integrity refusal.
- Guards.Guard.EvaluateRequest: without the integrity refusal.
- Guard chains of profile "02": the lattice, evaluation and the token chain are modelled in both profiles; the guard and
  the ledger's wire form are modelled for the default profile.
- Guards.Guard.FillMeters: without the totals of profile "02".
- Wire.Load: decoding, the comparison of canonical bytes, `authorityFromPayload` and `checkToken02` are parameters; the
  comparison is proved apart (`CanonicalLaws.OneAcceptedText`). `ceilingFromWire02` is not modelled.
- Verifier.LedgerFieldsPass: entries are objects; an entry that is not one, and an unreadable bundle, are reported
  before the modelled passes begin.
- Verifier.VerifyBundle: states the ledger passes; envelope failures are scored by `Envelopes.ScoreEnvelopes` beside it.
- ExecutionBinding.Score: parameter coverage is not counted.
- Exports.ExportBundle: without the anchor, the redaction report and envelopes.
- Envelopes.LaterFailures: an array or object in a locator or hash agrees with nothing, as strict equality has it for
  values parsed apart.
- Reports: failure sentences, `describe`, `delegationGraph`, `denials`, `redactionReport`, and the `states`, `results`
  and `lines` of envelope scoring are views; a failure is its reason and its entry.
- Reasons: the limit, the requested value and the message of a reason are not carried, and the first undeclared field
  stands for the `unmetered` reason.
- Chains.Chain.AddChildNode: one clock value serves for the expiry test and the time of issue, where the source reads
  its clock twice.
- Chains.Chain.RevokeAgent: bans the agent after revoking its nodes where the source bans first; nothing reads the bans
  in between.
- Hostile values: accessors, prototypes, cyclic values, subclassed and custom ceilings.
- Trust sets: the rows, their expiry and the clock they are judged by come as a set of trusted key ids.
- Authorities.NarrowerIsSound: assumes that paired ceilings read one field; without it the claim is false, and
  `Authorities.SoundIffGuarded` and `Ceilings.SoundIffFieldsAgree` give the exact conditions.
- Identity: of lists and objects in allow and deny lists it is modelled; the reading of a token gives each token its own
  authority, and the identities in it are a parameter of `Wire`.
- Completeness.EveryRunIsBound: assumes fresh call ids, non-empty adapter texts and outcomes reported on the guard
  that allowed the call with unchanged arguments; `Completeness.OutcomeVerifiesIff` shows the last is needed.
- Defaults: `recordDenial` and `recordPassthrough` are given their scope; the default of a missing one is not modelled.
- `wouldAllow`, `wouldDelegate`, `consume` and `graph` are dry runs and views of what is modelled.
- Display: `pyRepr`, `pyFloat` and `pyNumber` only format messages.
- Files, sinks, the command line and the framework adapter.
