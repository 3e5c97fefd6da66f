# Verification model of the authority runtime

A Dafny 4.11 model of the parts of this repository that decide who may do what: delegation chains and the identity
policy built on them, the pipeline from consent to execution contract, capability tokens accepted once per id, and the
stateful engines around them (revocation control plane, execution fabric, rate limiter, event-sourced orchestrator,
brokerage, billing). Run `dafny verify dfyconfig.toml` in this directory to check everything.

Code that updates state in place is a class or a method here (`ControlPlaneService`, `ExecutionFabric`,
`InMemoryRateLimiter`, `DistributedRuntimeOrchestrator`, `CapabilityBrokerageRuntime`, `InMemoryMonetizationService`,
the token registries, the breadth-first search, the validators that collect errors); each is proved against a
specification, and what the design promises is proved about that specification for every input or every run.
Parsing, minting, verification and the access decisions are functions, as they are expressions in the source.

| file | models |
|---|---|
| `Text`, `Patterns`, `Sorting`, `Values`, `Options` | trimming, patterns, code-unit order, stable sort, de-duplication, scope entries, values of unknown shape |
| `TrustChain`, `IdentityPolicy` | breadth-first search over grants, chain validation, the policy decision |
| `Consent`, `Capability`, `Enforcement`, `Execution` | consent, minting, verification, the two access decisions, execution contracts |
| `Allowed`, `Lifetimes` | what the access decisions come to, written out; consent and capability in time |
| `Samples`, `Unverifiable` | one consent and mint in the concrete, and the mints that verification turns down |
| `CapabilityToken` | token minting, validation, verification, the nonce and revocation registries |
| `Refusals` | the meaning of every error of minting and verifying capabilities and tokens |
| `RuntimeCapabilities`, `CapabilityUse` | delegation checks, attenuation, capability use, obligation merging; what they come to, written out |
| `ControlPlane`, `Decisions` | access requests, grants, revocation evidence, the idempotency cache; what runs make of requests and grants |
| `ExecutionFabric`, `FabricRuns` | plan and step lifecycle, progress of a driver; what runs make of a plan |
| `RateLimiter` | fixed windows |
| `Orchestrator`, `RuntimeStates` | event log, snapshots, replay; what a state says of its events |
| `Sdl` | the path parser, the validator and the vault's pattern |
| `Brokerage`, `Monetization`, `Bills`, `Pricing` | offer routing and reputation, usage billing, what a bill shows, which rule prices a usage |

Conventions. Strings are ASCII, ordered by code unit. SHA-256 over canonical JSON is a parameter: some function of the
canonical payload whose results are 64 hexadecimal digits, with no assumption on collisions. The revocation port and
`Date.parse` are parameters too. Clock readings and random ids are arguments of the operations that take them. Money
and scores are exact rationals, prices whole millionths after rounding.

## What the proofs found

Properties one would expect of the code that fail for some input, each with the exact condition under which it holds,
and with an instance or a lemma that makes a failing case out of any that qualifies:

- A minted capability verifies, unless its consent's market maker is blank or its metadata is there and no object:
  `Capability.MintedVerifies` (exact), `Unverifiable.BlankMarketMakerExample`, `Unverifiable.NullMetadataExample`.
- A snapshot is the replay of its relationship's events after every append, unless an event of it arrives late or
  another relationship has its key: `Orchestrator.AgreementIffInOrder`, `Orchestrator.SnapshotsAgreeIff` (exact),
  `Orchestrator.OutOfOrderDiffers`, `Orchestrator.ColonsCollide`. Tenants can share a key exactly when one name followed
  by two colons begins the other followed by two colons: `Text.PairKeyCollision`.
- An active capability finds its consent running, unless the clock reads before the consent's issue, or it was minted to
  the consent's own expiry and is used in the second that begins there: `Lifetimes.ConsentAtUse`,
  `Lifetimes.UsedBeforeConsentEndsIff` (exact), `Lifetimes.AuthorizedAfterConsentEndedExample`. The consent is timed in
  milliseconds, the capability by comparing texts of different precision.
- A capability is active only from its issue on, unless it has no start: `Capability.ActiveFromIssueIff` (exact),
  `Capability.ActiveBeforeIssue`.
- An attenuated capability ends within its parent's life, unless its expiry text is empty, unreadable or in a format
  that orders differently: `RuntimeCapabilities.ChainOutlivesIff` (exact), `RuntimeCapabilities.ExpiryEscapes`. Start
  times are not compared at all: `RuntimeCapabilities.StartsEarlierIff` (exact).
- A parent's required obligation survives a merge, unless a later entry of the parent under the same code is optional
  and no child requires it: `RuntimeCapabilities.DemandsSurviveIff` (exact), `RuntimeCapabilities.DemandDropped`.
- A standing token could have been minted, unless its version is not the one minting writes:
  `CapabilityToken.StandingIsMinted` (exact), `CapabilityToken.ReversionedStands`.
- A token is used once and a revoked one no more, as long as its id and its hash stay the same: sealed anew under another id it
  is accepted whatever became of it before, exactly while it is in force and the new id and hash are unused and unrevoked:
  `CapabilityToken.ReissuedAccepted` (exact).
- A denied request has no active grant, unless it was approved before and the grant not revoked: a denial takes nothing
  back (`Decisions.DecisionTells`, `Decisions.GrantsAreApprovals`, `Decisions.RevokedIff`, exact), and any approval
  followed by a denial is a case (`Decisions.DeniedStillGranted`).
- A completed step was started, and what it depends on completed before: only starting asks for that
  (`FabricRuns.StartTells`, `FabricRuns.StartsFollowCompletions`), completing asks for an attestation or no need of one
  (`FabricRuns.CompleteTells`, exact), so that any step without that need is a case (`FabricRuns.CompletesUnstarted`).
- An execution agreement is drawn up from the chosen offer, unless an offer under its id was published earlier:
  `Brokerage.AgreementIsChosenIff` (exact), `Brokerage.SharedOfferIdMisleads`.
- A bill's line charges the resource and action it shows, unless another pair has the same key: `Bills.LineIsPairIff`
  (exact), `Bills.ColonsMergeLines`. A bill does not show the order of recording, unless two of the earliest events
  under their keys are at one time for different pairs under one key or one label: `Bills.OrderIrrelevantIff` (exact),
  `Bills.ColonsMergeLines`, `Bills.LabelsTie`.
- A usage is priced by the rule of its own resource and action, unless a rule for another pair was set under its key and
  none for its own after that: `Pricing.PricedByOwnIff` (exact), `Pricing.ForeignPrice`.

Others are stronger than one would expect or simply worth knowing:

- The limiter's bound over any interval of one window's length is `2 * limit - 1`, one better than twice the limit, and
  it is reached.
- A mint sorts repeated scope entries without merging them, while it de-duplicates permissions; verification accepts the
  repetition.
- A fabric's plan with distinct step ids, in whatever state, can be driven to its completion exactly when it is not
  waiting and there is an order of work for its required steps (`ExecutionFabric.CompletableIff`).
- Only the first grant in force from root to delegate is consulted by the identity policy; a later one that would cover
  the request does not help (`IdentityPolicy.FirstGrantDecides`).
- A request, for enforcement or execution, that is `null` or whose `now` is no date ends in an exception and not in a
  denial.
- Reputation ranks and never gates (`Brokerage.ReputationNeverGates`), and a record without obligations counts as if
  none had been met (`Brokerage.NoObligationsCosts`).

## Model

| member | source | states |
|---|---|---|
| TrustChain.BuildTrustChain | protocol/identity/trust-chain.ts:3-51 | the chain is valid exactly when the target is reachable through the supplied grants; it then follows the least route (fewest grants, ties to the earliest supplied), link by link; at most 1 + number of grants dequeues, on cyclic graphs too |
| TrustChain.Advance | protocol/identity/trust-chain.ts:20-41 | one turn past an actor that is not the target keeps the search invariant: settled actors carry their least routes, queued routes are in route order, nothing reachable is lost |
| TrustChain.HeadIsLeast | protocol/identity/trust-chain.ts:18-41 | the head of the queue shows a route no longer and no later than any route to any actor not yet expanded |
| TrustChain.BuildAdjacency | protocol/identity/trust-chain.ts:4-10 | every actor is listed with exactly its outgoing grants, in supplied order |
| TrustChain.LexLeqIsLexicographic | protocol/identity/trust-chain.ts:18-41 | the tie-breaking order on routes is the lexicographic one |
| TrustChain.ValidateTrustChain | protocol/identity/trust-chain.ts:53-67 | a chain passes exactly when it is marked valid, has between one and the limit's links and no broken link; each failing check is reported once |
| TrustChain.RouteNeverBroken | protocol/identity/trust-chain.ts:3-67 | a chain that the search builds never contains a broken link |
| TrustChain.DirectGrantIsLeast | protocol/identity/trust-chain.ts:3-51 | beside a direct grant every least route to a different actor has length one |
| IdentityPolicy.ValidateDelegationGrant | protocol/identity/delegation.ts:33-50 | valid exactly when neither revoked nor expired at the instant and covering the action and every scope; the faults are exactly those that hold |
| IdentityPolicy.CheckDelegation | protocol/identity-policy/identity-policy-evaluator.ts:46-71 | a delegated request gets no deny reason exactly when a direct grant in force covers it and its chain is acceptable; the reasons are exactly those that apply |
| IdentityPolicy.BuiltChainCheck | protocol/identity-policy/identity-policy-evaluator.ts:60-70 | given a direct grant the built chain is valid and unbroken, of length one (none from an actor to itself), so only equality of the actors and the limits can reject it |
| IdentityPolicy.CheckAiActor | protocol/identity-policy/identity-policy-evaluator.ts:77-101 | one AI actor's restrictions: exactly its reasons, flags and obligations are added |
| IdentityPolicy.EvaluateIdentityPolicy | protocol/identity-policy/identity-policy-evaluator.ts:18-120 | allowed exactly when the declarative policy permits, exactly when there is no reason; the reasons are exactly those that apply, without repetition; obligations, all four flags, grant ids and the summary of a supplied chain as the policy says |
| IdentityPolicy.AllowedDelegationIsDirect | protocol/identity-policy/identity-policy-evaluator.ts:46-70 | an allowed delegation without a supplied chain rests on a direct grant in force from a different root that covers the request, and on a built chain of exactly one link within both depth limits |
| IdentityPolicy.FirstGrantDecides | protocol/identity-policy/identity-policy-evaluator.ts:7-16 | once a direct grant is in force it alone decides: grants supplied after it change nothing, and it must itself cover the request |
| Consent.ValidateConsent | protocol/consent/consent-validator.ts:14-105 | valid exactly when the consent is well formed; the errors are exactly the faults it has, or that it cannot be parsed |
| Consent.FaultlessIsValid | protocol/consent/consent-validator.ts:14-105 | a readable consent has no fault exactly when every pattern holds, nothing is repeated and its fields fit its action |
| Consent.NormalizeIdempotent | protocol/consent/consent-normalizer.ts:4-50 | normalising a normalised consent returns it unchanged, exactly when its trimmed issue date can still be read |
| Consent.NormalizedStrings | protocol/consent/consent-normalizer.ts:21-50 | every text field of a normalised consent is in normal form |
| Consent.NormalizedIff | protocol/consent/consent-normalizer.ts:21-50 | which records are read as which consents: field by field in any case and padding, lists in any order, nothing blank, the issue date readable |
| Consent.StateTells | protocol/consent/consent-state.ts:17-74 | each state of a well-formed grant, as an equivalence on the port's answer and the times |
| Consent.InvalidIff | protocol/consent/consent-state.ts:17-74 | which consents are in no other state |
| Capability.CanonicalVerifies | protocol/capability/capability-verify.ts:22-60 | a capability canonical in all that its hash covers verifies, in every reordering and repetition of its lists, to itself, unless its market maker is blank or else its metadata is no object, which is then the only fault |
| Capability.VerifyIsFixpoint | protocol/capability/capability-verify.ts:22-60 | whatever verification accepts is canonical and verifies again to itself |
| Capability.AcceptedIff | protocol/capability/capability-verify.ts:22-60 | which records are accepted as which capabilities: those that spell one that is canonical, not blank in its market maker, and sealed by the hash of its consent hash, parties, scope, permissions, three times and market maker |
| Capability.SealBinds | protocol/capability/capability-object.ts:168-190 | two capabilities accepted under one hash are the same but for metadata, or their payloads are a collision of the hash |
| Refusals.RejectionTells | protocol/capability/capability-verify.ts:22-60 | what every rejection says: the one thing that keeps a record from being read, or exactly those of three disorders of time and a wrong hash that it has |
| Capability.MintAttenuates | protocol/capability/capability-mint.ts:46-139 | a minted capability has its consent's parties, hash and market maker, scope and permissions inside the consent's, an expiry text not after the consent's, and exactly what was requested; the consent is a valid grant the port vouched for |
| Capability.MintedIff | protocol/capability/capability-mint.ts:46-139 | a mint succeeds exactly from a consent active at a readable issue time, with non-empty lists inside the consent's, no other market maker named, and times that are well formed, in order and inside the consent's |
| Refusals.MintRefusalTells | protocol/capability/capability-mint.ts:12-118 | what every refused mint says is wrong with issue time, consent, request or times |
| Capability.MintIsCanonical | protocol/capability/capability-mint.ts:46-139 | whatever is minted is canonical in all that the hash covers, under the hash of its own payload, and altogether exactly when the metadata asked for is absent or an object |
| Capability.MintedVerifies | protocol/capability/capability-mint.ts:46-139 | in every spelling a minted capability verifies to itself, exactly when the consent's market maker is absent or not blank and the metadata absent or an object |
| Unverifiable.BlankMarketMakerBreaks | protocol/capability/capability-mint.ts:89-95 | whatever can be minted without a market maker can be minted with a blank one, and is then rejected by verification for that reason alone |
| Unverifiable.BlankMarketMakerExample | protocol/capability/capability-mint.ts:89-95 | a concrete consent and request for which mint succeeds and verification rejects |
| Unverifiable.MetadataIsCopied | protocol/capability/capability-mint.ts:132-138 | metadata decides nothing in the mint and reaches the capability as it comes, outside the hash |
| Unverifiable.MetadataBreaks | protocol/capability/capability-object.ts:158-163 | whatever can be minted can be minted with metadata that is no object, and is then rejected by verification |
| Unverifiable.NullMetadataExample | protocol/capability/capability-object.ts:158-163 | a concrete consent without market maker and a request with `null` metadata for which mint succeeds and verification rejects |
| Capability.StateTells | protocol/capability/capability-state.ts:20-54 | each state of an accepted capability, as an equivalence on the port's answer and the texts compared |
| Capability.StateBySecond | protocol/capability/capability-state.ts:20-54 | with the port clear, a capability is not yet active exactly through its start's second and expired exactly once the instant's second is later than the expiry's |
| Capability.ActiveFromIssueIff | protocol/capability/capability-state.ts:20-54 | with the port clear, a capability is active only from the second of its issue on exactly when it has a start or is issued at the least time there is |
| Capability.ActiveBeforeIssue | protocol/capability/capability-state.ts:20-54 | whatever is minted without a start, at any but the least time, is active at some instant before its issue |
| Enforcement.DedupeScope | protocol/enforcement/enforcement-request.ts:141-155 | the map-and-sort loop returns the distinct entries in order |
| Enforcement.NormalizeIdempotent | protocol/enforcement/enforcement-request.ts:121-163 | a normalised request passes the parser and the normaliser again unchanged |
| Enforcement.FindScopeMismatch | protocol/enforcement/enforcement-engine.ts:13-28 | the loop returns the longest allowed prefix and the first entry not allowed, as the decision uses them |
| Enforcement.FindPermissionMismatch | protocol/enforcement/enforcement-engine.ts:30-45 | the same for permissions |
| Enforcement.ClosingCheckAgrees | protocol/enforcement/enforcement-engine.ts:93-185 | the closing access check never denies what the checks before it passed, and the decision equals that check's |
| Enforcement.DecisionsAgree | protocol/enforcement/enforcement-engine.ts:47-194 | enforcement allows exactly when the request parses and the independent access check allows its normal form; the invalid-request code means a parse failure and nothing else; an exception is thrown exactly for `null` and for a `now` that is no date |
| Enforcement.EnforcementAgreesWithAccess | protocol/capability/capability-machine.ts:10-71 | for requests in any spelling the two decision procedures agree once padding around kinds and bindings is removed |
| Allowed.NormalizedIff | protocol/enforcement/enforcement-request.ts:121-163 | which records are read as which requests: those that spell one in normal form, field by field |
| Allowed.AccessIff | protocol/capability/capability-machine.ts:10-71 | the access check allows exactly for an accepted, live capability that has every entry and permission asked for and whose subject, grantee and market maker equal those named |
| Allowed.AllowedIff | protocol/enforcement/enforcement-engine.ts:47-194 | the same of enforcement: a party named that differs from the capability's is never allowed |
| Allowed.DecisionTells | protocol/enforcement/enforcement-engine.ts:47-194 | every decision carries the request, the instant and the one reason that applies, in the order of the checks; a mismatch names a party other than the capability's |
| Allowed.MatchesTell | protocol/enforcement/enforcement-engine.ts:47-194 | what every decision lists as matched: scope and permissions up to the first that is not granted |
| Execution.AuthorizedExactly | protocol/execution/execution-engine.ts:22-80 | a contract is issued exactly when the request parses and the access check allows it at the request's time, and carries exactly the request's scope and permissions and the verified capability's parties and hashes; an exception is thrown exactly for `null` and for a `now` that is no date |
| Allowed.NormalizedExecutionIff | protocol/execution/execution-request.ts:109-146 | which records are read as which execution requests |
| Allowed.AuthorizedIff | protocol/execution/execution-engine.ts:22-80 | an execution is authorised exactly for an accepted, live capability that grants all that is asked for to the parties named, and the contract's fields are those of the request and of the capability |
| Allowed.AuthorizationTells | protocol/execution/execution-result.ts:23-79 | every answer to an execution request: what cannot be read is rejected with its target as far as it goes, what can carries the enforcement decision on it and that decision's reason |
| Execution.ContractAttenuatesConsent | protocol/execution/execution-engine.ts:22-80 | every contract issued on a minted capability, in any spelling, has scope and permissions inside the normalised parent consent's, names its parties and hash, and was issued with the port reporting no revocation, before the capability's expiry text, itself not after the consent's |
| Lifetimes.StateInMillis | protocol/capability/capability-state.ts:20-54 | in milliseconds, for an instant whose text and time agree: not active before a second after the start, expired from a second after the expiry |
| Lifetimes.ConsentAtUse | protocol/consent/consent-state.ts:17-74 | the state of an unrevoked consent at an instant at which a capability minted from it is active: running, except before the consent's issue and in the last second of a capability that lives as long as the consent, when it has expired |
| Lifetimes.UsedBeforeConsentEndsIff | protocol/capability/capability-mint.ts:97-107 | every use falls before the consent's end exactly when the capability was minted to expire earlier than the consent |
| Lifetimes.AuthorizedWhileConsentRuns | protocol/execution/execution-engine.ts:22-80 | the same of an authorised execution: the exact state of its consent at the time of the contract |
| Lifetimes.AuthorizedAfterConsentEnded | protocol/execution/execution-engine.ts:22-80 | whatever is minted to its consent's own expiry and verifies is authorised for execution at an instant at which that consent, not revoked, has expired |
| Lifetimes.AuthorizedAfterConsentEndedExample | protocol/capability/capability-mint.ts:97-107 | a concrete consent and a request without expiry of its own for which that happens |
| Execution.AcceptedIsMinted | protocol/execution/execution-engine.ts:22-80 | a spelling of a minted capability is accepted only as that capability |
| CapabilityToken.ValidateScope | capability/capabilityToken.ts:91-112 | the loop with its seen set reports the first fault of the list, in order |
| CapabilityToken.ValidatePermissions | shared/capabilityActions.ts:32-61 | the same for permissions |
| CapabilityToken.ListFaults | capability/capabilityToken.ts:91-121 | no fault exactly for non-empty bounded lists of well-formed entries without repetition |
| CapabilityToken.StandingIff | capability/capabilityToken.ts:290-497 | what verification asks whatever the time: shape of every field, order of the times, the hash of all other fields with the lists in order, and the consent's parties, scope, permissions and time |
| CapabilityToken.MintedIff | capability/capabilityToken.ts:192-288 | which tokens a mint writes, and exactly when |
| CapabilityToken.RefusalTells | capability/capabilityToken.ts:498-521 | for a standing token each refusal as an equivalence: past its expiry, before its start or else its issue, revoked, or its id seen |
| Refusals.TokenRefusalTells | capability/capabilityToken.ts:426-497 | what is wrong with a token that does not stand, fault by fault |
| Refusals.TokenMintRefusalTells | capability/capabilityToken.ts:192-294 | what is wrong with a request for a token that is refused, fault by fault |
| CapabilityToken.SealBinds | capability/canonical.ts:30-64 | two standing tokens under one hash differ in the order of their lists at most, or their payloads are a collision of the hash |
| CapabilityToken.StandingIsMinted | capability/capabilityToken.ts:192-497 | minting can produce a token from the consent exactly when the clock-free checks of verification accept it and its version is the one minting writes |
| CapabilityToken.ReversionedStands | capability/capabilityToken.ts:40-46 | a standing token sealed anew under any other version stands as well, and no request mints it |
| CapabilityToken.ReissuedStands | capability/capabilityToken.ts:426-497 | a standing token sealed anew under another id stands exactly when the id is well formed, and is in force with the original |
| CapabilityToken.MintedVerifies | capability/capabilityToken.ts:192-521 | a minted token verifies exactly while it is in force, its hash not revoked and its id not yet presented |
| CapabilityToken.LifeWithinConsent | capability/capabilityToken.ts:244-283 | a standing token is in force at its start and at its expiry, and only while its consent is |
| CapabilityToken.StandingAttenuates | capability/capabilityToken.ts:145-171 | containment of key texts is containment of entries, whatever the consent's own scope looks like |
| CapabilityToken.RespelledStands | capability/canonical.ts:30-64 | a token with its lists rearranged verifies wherever the original does, under the same hash and id |
| CapabilityToken.VerifyCapabilityToken | capability/capabilityToken.ts:426-521 | the first failing check in order; the id is marked on success and on success only |
| CapabilityToken.InMemoryRevocationRegistry.RevokeCapabilityToken | capability/revocation.ts:8-31 | a well-formed hash is added to the revoked ones, any other is an error that changes nothing |
| CapabilityToken.RegistriesTell | capability/capabilityToken.ts:505-521 | on every run the seen set is exactly the ids of successful presentations and the revoked set exactly the revoked hashes |
| CapabilityToken.AcceptedExactly | capability/capabilityToken.ts:426-521 | in the middle of any run a presentation succeeds exactly when the token stands, is in force, was not revoked before and its id was not accepted before |
| CapabilityToken.AcceptedOnce | capability/capabilityToken.ts:513-519 | an id is accepted at most once |
| CapabilityToken.RevokedForGood | capability/capabilityToken.ts:505-509 | nothing is accepted after its hash is revoked |
| CapabilityToken.ReissuedAccepted | capability/capabilityToken.ts:505-519 | what single use and revocation cover: in the middle of any run, whatever became of a token before, it is accepted under another id exactly while it is in force, the new hash unrevoked and the new id not accepted |
| CapabilityToken.FailureIsInert | capability/capabilityToken.ts:426-521 | with a failed operation left out of a run, every later operation fares the same |
| RuntimeCapabilities.ValidateDelegation | runtime/capabilities/governance.ts:113-122 | the issues are exactly those that hold |
| RuntimeCapabilities.AttenuatedExactly | runtime/capabilities/governance.ts:124-140 | attenuation succeeds exactly when no expiry text is later, no action is new and every scope extends a parent's |
| CapabilityUse.IssuesTell | runtime/capabilities/governance.ts:113-122 | each issue of a delegation as an equivalence, listed once and in the order of the checks |
| CapabilityUse.AttenuationTells | runtime/capabilities/governance.ts:124-140 | what an attenuation grants field by field, and which issues a refusal lists |
| CapabilityUse.UseTells | runtime/capabilities/capability-session.ts:17-71 | a use is allowed exactly for a live capability, its grantee, an action and resource of it and no objection of its AI boundary; otherwise the reason is the first of these to fail |
| RuntimeCapabilities.DescendantUse | runtime/capabilities/capability-session.ts:17-71 | what a descendant of any chain of attenuations allows, its root allows throughout its own life, and outside of it denies as not valid and for nothing else |
| RuntimeCapabilities.ChainOutlivesIff | runtime/capabilities/governance.ts:113-140 | a descendant of any chain ends within the root's life exactly when the root does not end, or the last expiry asked for can be read and is no later as an instant |
| RuntimeCapabilities.OrderlyChainEndsWithin | runtime/capabilities/governance.ts:117 | with readable expiry texts that order as instants do, no descendant outlives the root |
| RuntimeCapabilities.DescendantUseIff | runtime/capabilities/capability-lifecycle.ts:40-47 | for a use the descendant permits: at every instant at which the descendant allows it the root allows it just if it has started, exactly when the root does not end or the descendant ends before it could be used past that |
| RuntimeCapabilities.DescendantUseNow | runtime/capabilities/capability-session.ts:17-71 | at any instant at which a descendant that ends within its root's life allows a use, the root allows it exactly if it has started |
| RuntimeCapabilities.OutlivesIff | runtime/capabilities/governance.ts:117 | for one attenuation, with no assumption on date texts: it stays within the parent's life exactly when the parent does not end, or its expiry can be read and is no later as an instant |
| RuntimeCapabilities.ExpiryEscapes | runtime/capabilities/governance.ts:117 | two concrete attenuations used after their parent has ended: an empty expiry text, and a time with an offset that sorts before the earlier time in UTC |
| RuntimeCapabilities.StartsEarlierIff | runtime/capabilities/governance.ts:124-140 | attenuation succeeds whatever start is asked for; the child starts no earlier exactly when its start is readable and not before the parent's |
| RuntimeCapabilities.MergeCapabilityObligations | runtime/capabilities/governance.ts:93-111 | one entry per code of either list, in code order, each the merge of all entries under its code |
| RuntimeCapabilities.MergedIsCombined | runtime/capabilities/governance.ts:93-111 | a merged entry is required if the parent's or any child's is, and carries the last details given |
| RuntimeCapabilities.DemandedIff | runtime/capabilities/governance.ts:93-111 | a code is demanded after a merge exactly when some child demands it or the parent's last entry under it is required |
| RuntimeCapabilities.DemandsSurviveIff | runtime/capabilities/governance.ts:93-111 | no demand of a parent is lost, whatever the children, exactly when under each code it demands its last entry is required |
| RuntimeCapabilities.DemandDropped | runtime/capabilities/governance.ts:97 | a required entry followed by an optional one under its code, whose demand a merge drops |
| RuntimeCapabilities.MergeIdempotent | runtime/capabilities/governance.ts:93-111 | merging the same children in again changes nothing |
| ControlPlane.ControlPlaneService.CreateAccessRequest | runtime/controlPlane.ts:141-147 | the new state and the request are those of the specification step |
| ControlPlane.ControlPlaneService.DecideAccessRequest | runtime/controlPlane.ts:155-195 | the new state and the answer, errors included, are those of the specification step |
| Decisions.CreationTells | runtime/controlPlane.ts:141-147 | a new request is pending, under a fresh id, and nothing else changes |
| Decisions.DecisionTells | runtime/controlPlane.ts:155-195 | a decision is taken exactly on a known request for its subject; it sets the status, a denial or an error leaves the grants alone, an approval adds exactly one active grant, the one returned |
| Decisions.ReasonTells | runtime/controlPlane.ts:172-175 | the reason a decision carries |
| Decisions.StatusIsLastDecision | runtime/controlPlane.ts:155-195 | in every reachable state a request has the status of the last decision taken on it |
| Decisions.GrantsAreApprovals | runtime/controlPlane.ts:155-195 | in every reachable state a request has as many grants as it was approved times |
| Decisions.GrantCount | runtime/controlPlane.ts:155-195 | over every run the grants grow by the number of successful approvals |
| Decisions.DeniedStillGranted | runtime/controlPlane.ts:172-181 | a denial after an approval leaves the approval's grant active |
| ControlPlane.ControlPlaneService.RevokeGrant | runtime/controlPlane.ts:210-327 | the new state and the answer, from the cache, as a repeat or fresh, are those of the specification step |
| Decisions.RevocationTells | runtime/controlPlane.ts:245-279 | under a new key a revocation succeeds exactly for a known grant and its subject; an error changes nothing |
| Decisions.RepeatTells | runtime/controlPlane.ts:266-289 | revoking a revoked grant answers with it and leaves grants and evidence alone |
| Decisions.FreshTells | runtime/controlPlane.ts:291-327 | revoking an active grant revokes that grant only, at that time and for that reason, and adds one record |
| Decisions.KeyTells | runtime/controlPlane.ts:220-243 | under a key used before, after any operations, it succeeds exactly when grant, reason, subject and requester are those of the first time, and is a conflict otherwise; nothing changes |
| Decisions.RevokedIff | runtime/controlPlane.ts:210-327 | in every reachable state a grant is revoked exactly when some revocation of it succeeded |
| ControlPlane.ControlPlaneService.ListActiveGrants | runtime/controlPlane.ts:197-204 | the walk over the stored grants returns the specified listing |
| ControlPlane.ActiveExactly | runtime/controlPlane.ts:197-204 | the listing holds exactly the stored grants that are active and match the filters |
| ControlPlane.ActiveInOrder | runtime/controlPlane.ts:197-204 | the listing follows the order of granting, each grant once |
| ControlPlane.RunKeepsInv | runtime/controlPlane.ts:132-334 | every run of create, decide and revoke keeps the invariant, and never changes a revoked grant, a recorded piece of evidence or a cached answer |
| ControlPlane.EvidenceMatchesRevokedGrants | runtime/controlPlane.ts:210-334 | in every reachable state evidence and revoked grants correspond one to one with equal revocation id, reason and time; the counter is the length of the log; ids never repeat |
| ControlPlane.CacheAgreesWithUncachedPath | runtime/controlPlane.ts:220-279 | in every reachable state a matching cache hit answers exactly what the uncached path would, which would not fail and would change only the cache |
| ControlPlane.RevocationIsIdempotent | runtime/controlPlane.ts:210-327 | repeating a successful revocation after any other operations gives the first answer again, marked as a replay, and leaves grants and evidence alone |
| ExecutionFabric.ExecutionFabric.StartExecutionStep | runtime/execution-fabric/execution-fabric.ts:76-84 | the plan changes as the specification step says, or an error leaves everything as it was |
| ExecutionFabric.ExecutionFabric.CompleteExecutionStep | runtime/execution-fabric/execution-fabric.ts:86-95 | the same, with the attestation requirement |
| ExecutionFabric.ExecutionFabric.CompleteExecutionPlan | runtime/execution-fabric/execution-fabric.ts:46-53 | only a plan whose required steps are all completed becomes completed |
| ExecutionFabric.ExecutionFabric.AttachExecutionAttestation | runtime/execution-fabric/execution-fabric.ts:182-194 | a valid reference is recorded under plan and step even when the step then turns out not to exist |
| FabricRuns.StartTells | runtime/execution-fabric/execution-fabric.ts:76-84 | on any plan a start succeeds exactly when a step has the id and everything the first such step depends on is completed; a refusal leaves the plan alone |
| FabricRuns.CompleteTells | runtime/execution-fabric/execution-fabric.ts:86-95 | on any plan a completion succeeds exactly when the step has an attestation or needs none |
| FabricRuns.FailTells | runtime/execution-fabric/execution-fabric.ts:97-104 | a failing step is marked whatever its status, and a required one fails the plan unless that is completed or cancelled |
| FabricRuns.PlanTells | runtime/execution-fabric/execution-fabric.ts:32-67 | when starting, pausing, completing, cancelling and failing a plan succeed, and what they change |
| FabricRuns.AttestationTells | runtime/execution-fabric/execution-fabric.ts:182-205 | attaching and requiring attestations change that of the first step under the id only |
| FabricRuns.AddTells | runtime/execution-fabric/execution-fabric.ts:70-74 | a step is added last, and the others stay |
| FabricRuns.StartsFollowCompletions | runtime/execution-fabric/execution-fabric.ts:27-110 | over any operations on a plan, no start succeeds on a step before everything it depends on was completed, at the outset or by an earlier operation |
| FabricRuns.CompletesUnstarted | runtime/execution-fabric/execution-fabric.ts:86-95 | any step without need of an attestation can be completed unstarted, whatever it depends on |
| FabricRuns.CompletedIsFinal | runtime/execution-fabric/execution-fabric.ts:46-67 | over any operations a completed plan stays completed |
| FabricRuns.CompletedWithSteps | runtime/execution-fabric/execution-fabric.ts:46-53 | over any operations a plan that became completed had every required step completed at that time |
| ExecutionFabric.SomeStepExecutable | runtime/execution-fabric/execution-step.ts:3-13 | no deadlock: on an acyclic plan, while a step is planned some step is executable |
| ExecutionFabric.RoundKeeps | runtime/execution-fabric/execution-fabric.ts:76-95 | starting and completing an executable step succeeds, completes that step only, and keeps the plan drivable |
| ExecutionFabric.DriveProgress | runtime/execution-fabric/execution-fabric.ts:76-95 | whatever the driver chooses, each round completes exactly one planned step |
| ExecutionFabric.DriverFinishes | runtime/execution-fabric/execution-fabric.ts:46-95 | a driver is stuck exactly when every step is completed, after exactly as many rounds as steps were planned, and unless the plan is waiting completing it then succeeds |
| ExecutionFabric.DependencyOrder | runtime/execution-fabric/execution-step.ts:3-5 | a step's dependencies were completed before the drive or in an earlier round |
| ExecutionFabric.PlannedAreListed | runtime/execution-fabric/execution-step.ts:7-13 | every planned step is listed once, as executable or as blocked and not as both |
| ExecutionFabric.CompletableIff | runtime/execution-fabric/execution-fabric.ts:46-95 | a plan with distinct ids, in whatever state, can be driven until completing it succeeds exactly when it is not waiting and its required steps are completed or have a place in an order of planned, attested steps each depending on completed steps and on earlier ones |
| ExecutionFabric.FinishableIff | runtime/execution-fabric/execution-fabric.ts:76-95 | every step can be completed exactly when all of them have such a place or are completed |
| ExecutionFabric.CompletableIffAcyclic | runtime/execution-fabric/execution-fabric.ts:76-95 | in particular a fresh drivable plan can be finished exactly when its dependencies are acyclic |
| RateLimiter.InMemoryRateLimiter.Check | runtime/limits/rateLimiter.ts:27-58 | the new window table and the decision are those of the history semantics |
| RateLimiter.SlidingWindowBound | runtime/limits/rateLimiter.ts:27-58 | in any shared history with a forward clock for the key, fewer than twice the key's limit are allowed in any half-open interval of one window's length |
| RateLimiter.SlidingWindowBoundIsTight | runtime/limits/rateLimiter.ts:27-58 | a history that reaches the bound |
| RateLimiter.FixedWindowBound | runtime/limits/rateLimiter.ts:27-58 | at most one limit's worth is allowed from one fixed window |
| RateLimiter.DeniedOnlyWhenSpent | runtime/limits/rateLimiter.ts:45-58 | a call is denied only inside a window that has already allowed its tier's limit |
| RateLimiter.AnswerTells | runtime/limits/rateLimiter.ts:27-58 | every answer in every history, whatever the clock: limit, remainder and end of window, and allowed exactly when a window opens or has allowed fewer than the call's own tier permits |
| RateLimiter.KeysAreIndependent | runtime/limits/rateLimiter.ts:27-58 | a key is answered in a shared history as if its calls had been the only ones |
| Orchestrator.DistributedRuntimeOrchestrator.AppendEvent | runtime/distributed/orchestrator.ts:27-39 | the log and the snapshots change as the specification step says |
| Orchestrator.ReplayComposes | runtime/distributed/orchestrator.ts:41-61 | for n <= m, reconstruction to m is the fold of the window (n, m] in stable sequence order over reconstruction to n |
| Orchestrator.SnapshotIsArrivalFold | runtime/distributed/orchestrator.ts:27-39 | for every history and every key: the snapshot under the key is the fold, in arrival order, of exactly the events with that key, named after the last one |
| Orchestrator.AgreementIffInOrder | runtime/distributed/orchestrator.ts:27-48 | for a relationship with a key of its own: snapshot and replay agree after every append exactly when its own events arrive in sequence order, whatever the others do |
| Orchestrator.SnapshotsAgreeIff | runtime/distributed/orchestrator.ts:27-48 | for every history: all snapshots agree with replay after every append exactly when each relationship is in order and no two share a key |
| Orchestrator.LateEventDiffers | runtime/distributed/orchestrator.ts:76-116 | a late event always parts snapshot and replay, as the one remembers its sequence number as the last |
| Orchestrator.OutOfOrderDiffers | runtime/distributed/orchestrator.ts:27-48 | two events out of order for which even the trust scores differ |
| Orchestrator.ColonsCollide | runtime/distributed/orchestrator.ts:118-120 | two relationships with colons in their ids that share a snapshot |
| Orchestrator.ArrivalOrderIrrelevant | runtime/distributed/orchestrator.ts:41-48 | with distinct sequence numbers reconstruction does not depend on arrival order |
| Orchestrator.AlwaysSound | runtime/distributed/orchestrator.ts:76-116 | in every snapshot and reconstruction scores stay in range and no capability is listed twice |
| Orchestrator.HealthFollowsTrust | runtime/distributed/orchestrator.ts:76-116 | health matches trust from the first trust event on |
| RuntimeStates.ReduceTells | runtime/distributed/orchestrator.ts:76-116 | what one event changes and what it leaves: scores to the nearest in range, health by trust, lifecycle and exposure as asked |
| RuntimeStates.DefaultTells | runtime/distributed/orchestrator.ts:12-25 | where every relationship starts |
| RuntimeStates.LifecycleTells | runtime/distributed/orchestrator.ts:76-116 | the lifecycle is what the last event about it asked for |
| RuntimeStates.HeldIff | runtime/distributed/orchestrator.ts:93-109 | a capability is held exactly if it was delegated and not revoked since |
| RuntimeStates.ReadinessTells | runtime/distributed/orchestrator.ts:102-109 | readiness is twenty for each revocation, up to a hundred |
| RuntimeStates.TrustIsSum | runtime/distributed/orchestrator.ts:82-92 | while the sum of the changes stays in range, trust is that sum |
| Text.PairKeyEqual | runtime/distributed/orchestrator.ts:118-120 | exactly which pairs of names give one key |
| Text.PairKeyCollision | runtime/distributed/orchestrator.ts:118-120 | two first names can share a key exactly when one followed by two colons begins the other followed by two colons |
| Text.PairKeyInjective | runtime/distributed/orchestrator.ts:118-120 | in particular keys of colon-free first names determine both names |
| Text.TrimTells | protocol/consent/consent-normalizer.ts:4-50 | trimming takes white space off both ends, and all of it |
| Text.LowerTells | protocol/consent/consent-normalizer.ts:4-50 | lower-casing changes capital letters to small ones and nothing else |
| Text.StrLeqTells | protocol/capability/capability-mint.ts:100-117 | comparing texts is comparing code units where they first differ, or one begins the other |
| Patterns.HashLanguage | protocol/consent/consent-validator.ts:6 | the language of hashes |
| Patterns.DidLanguage | protocol/consent/consent-validator.ts:5 | the language of DIDs, part by part |
| Patterns.DateLanguage | protocol/consent/consent-validator.ts:7 | the language of dates to the second, number by number |
| Patterns.VersionLanguage | protocol/consent/consent-validator.ts:4 | the language of versions |
| Patterns.PermissionLanguage | protocol/consent/consent-validator.ts:8 | the language of permissions |
| Patterns.MarketMakerLanguage | shared/marketMakerId.ts:1 | the language of market maker ids |
| Orchestrator.TenantsApart | runtime/distributed/orchestrator.ts:118-120 | when no tenant name with its colons begins another, no two relationships share a key |
| Sdl.RecognisersAgree | vault/vault.ts:33-47 | the split-based parser succeeds on exactly the strings the vault's regular expression accepts |
| Sdl.PathLanguage | vault/vault.ts:33 | the pattern's language is exactly two or more segments joined by dots |
| Sdl.SegmentLanguage | sdl/parser.ts:12 | the segment test accepts exactly the language of the segment pattern |
| Sdl.ParseExactly | sdl/parser.ts:24-80 | the ordered checks come down to at least two segments, all well formed, and the path returned is made of them |
| Sdl.ParsedTells | sdl/parser.ts:24-80 | what the parser makes of a path: raw text, numbered segments, domain and attribute |
| Sdl.RefusedTells | sdl/parser.ts:24-80 | why an input is refused, each reason as an equivalence on the text itself |
| Sdl.ParsedIsNormal | sdl/parser.ts:24-80 | a parsed path prints back to its raw text, parses again to itself, and is valid and normal |
| Sdl.ValidatedReparses | sdl/validator.ts:46-87 | the normal form of any valid path, however its raw text reads, parses to itself |
| Sdl.ValidateSDLPath | sdl/validator.ts:46-87 | accepted exactly when valid; the errors are one per faulty segment after the count error, in order |
| Sdl.ErrorsTell | sdl/validator.ts:46-87 | which errors validation lists: one for too few segments and one for each faulty one |
| Sdl.ParseAndValidateSDLPath | sdl/validator.ts:97-108 | accepts exactly what the vault's pattern accepts and returns the parsed path; otherwise the parse error |
| Brokerage.CapabilityBrokerageRuntime.Route | runtime/marketplace/brokerageRuntime.ts:25-49 | allowed exactly when some offer is eligible; the row chosen has the highest reputation among the eligible, ties to the earliest published |
| Brokerage.FirstPassingIsBest | runtime/marketplace/brokerageRuntime.ts:27-37 | the first passing row of the stable ranking is the best one |
| Brokerage.AnswerTells | runtime/marketplace/brokerageRuntime.ts:25-49 | every answer written out: allowed exactly when an offer serves the request and its provider takes part, by the highest score and then the earliest offer; a denial names nobody |
| Brokerage.EvaluateRow | runtime/marketplace/brokerageRuntime.ts:121-150 | a row is allowed exactly when scope, budget, federation and consent all fit |
| Brokerage.RowTells | runtime/marketplace/brokerageRuntime.ts:121-150 | what the evaluation of a row reports, check by check |
| Brokerage.OfferOnlyImproves | runtime/marketplace/brokerageRuntime.ts:21-49 | publishing an offer changes an answer only if the new offer is then the best and outscores all others |
| Brokerage.ProviderOnlyAdds | runtime/marketplace/brokerageRuntime.ts:17-31 | publishing a provider takes no offer out of the running |
| Brokerage.AgreementIsChosenIff | runtime/marketplace/brokerageRuntime.ts:51-54 | an agreement is drawn up unless an id is empty, and from the chosen offer exactly when no offer under its id was published earlier |
| Brokerage.AgreementHonoursRequest | runtime/marketplace/brokerageRuntime.ts:51-74 | an agreement drawn up from the chosen offer keeps within the request's capability, budget and scope |
| Brokerage.SharedOfferIdMisleads | runtime/marketplace/brokerageRuntime.ts:51-54 | two offers under one id for which the agreement exceeds the budget |
| Brokerage.ScoreIsMeanMerit | runtime/marketplace/brokerageRuntime.ts:156-164 | with records in range the score is the rounded mean of what the records are worth, and the clamp never acts |
| Brokerage.ScoreIsCutMerit | runtime/marketplace/brokerageRuntime.ts:156-164 | for any records the score is the rounded mean of what they are worth, cut off at none and a hundred |
| Brokerage.ScoreTells | runtime/marketplace/brokerageRuntime.ts:152-154 | the score an offer is ranked by is that of the first profile of its provider, or none |
| Brokerage.RecordTells | runtime/marketplace/brokerageRuntime.ts:99-104 | a record goes to the first profile of its provider, whose score is computed anew, and to no other |
| Brokerage.PerfectNeverLowers | runtime/marketplace/brokerageRuntime.ts:99-104 | appending a perfect record never lowers a score |
| Brokerage.RecordIsLocal | runtime/marketplace/brokerageRuntime.ts:99-104 | a record moves no other provider's reputation |
| Monetization.InMemoryMonetizationService.RecordUsageAsBillable | runtime/monetization/service.ts:31-53 | without a rule nothing changes; with one exactly the priced event is appended under the next id |
| Monetization.InMemoryMonetizationService.GetConsumerSummary | runtime/monetization/service.ts:83-115 | the grouping loop, with its rounding at every step, computes the specified summary |
| Monetization.EventIdsDistinct | runtime/monetization/service.ts:37-39 | event ids never repeat, also past the padded width |
| Monetization.ListedExactly | runtime/monetization/service.ts:55-81 | a query lists each matching event as often as recorded, by time, equal times in recording order |
| Monetization.RoundedSum | runtime/monetization/service.ts:10-12 | rounding a sum of rounded amounts loses nothing |
| Monetization.CollectConserves | runtime/monetization/service.ts:86-102 | grouping by key neither loses nor doubles quantity, price or count |
| Monetization.SummaryConserves | runtime/monetization/service.ts:83-115 | a summary's totals are the consumer's event totals, and what it charges under each key text those of the events with that key text |
| Bills.LineIsPairIff | runtime/monetization/service.ts:86-102 | a line charges exactly the consumer's events for the resource and action it shows, exactly when no other pair of them has its key |
| Bills.PlainResourcesBilledApart | runtime/monetization/service.ts:86-102 | in particular every line is the bill of its pair when the consumer's own events have colon-free resources |
| Bills.ColonsMergeLines | runtime/monetization/service.ts:88 | two pairs with colons that are charged on one line |
| Monetization.LinesDistinct | runtime/monetization/service.ts:104-106 | one line per key, in label order |
| Monetization.LineTotals | runtime/monetization/service.ts:86-102 | a line charges what the consumer's events under its key add up to, and that is never nothing |
| Monetization.RecordingIsLocal | runtime/monetization/service.ts:31-115 | recording an event leaves every other consumer's summary alone |
| Monetization.RecordingAdds | runtime/monetization/service.ts:31-115 | recording an event adds exactly that event to its consumer's totals and to what is charged under its key text, and to no other key |
| Bills.RecordingAddsToPair | runtime/monetization/service.ts:31-115 | recording an event adds exactly that event to the totals of its resource and action and to those of no other pair |
| Monetization.TotalsOrderIrrelevant | runtime/monetization/service.ts:83-115 | the totals, and what is charged under each key, do not depend on the order of recording |
| Bills.LineIsFirst | runtime/monetization/service.ts:87-94 | a line is named after an earliest event under its key |
| Bills.OrderIrrelevantIff | runtime/monetization/service.ts:83-115 | the whole summary is the same for every order of recording exactly when no two of the earliest events under their keys are at one time for different pairs under one key or one label |
| Bills.PlainResourcesOrderIrrelevant | runtime/monetization/service.ts:83-115 | in particular the order of recording never shows when the consumer's own events have colon-free resources |
| Bills.LabelsTie | runtime/monetization/service.ts:104-106 | two pairs with one label whose two lines stand in the order of recording, so that the summaries differ |
| Pricing.PricedByOwnIff | runtime/monetization/pricing.ts:7-23 | a usage is priced by the rule last set for its resource and action, or not at all without one, exactly when every rule set for another pair under its key was followed by one for its own |
| Pricing.ChargeTells | runtime/monetization/service.ts:31-53 | what is charged: the quantity at the given or else the registered price, to the nearest millionth |
| Pricing.MoreCostsMore | runtime/monetization/service.ts:31-53 | at a price that is not negative using more never costs less |
| Pricing.PlainResourcesPricedByOwn | runtime/monetization/pricing.ts:3-5 | in particular with colon-free resources |
| Pricing.ForeignPrice | runtime/monetization/pricing.ts:3-5 | a rule for one pair that prices a usage of another, for which there is none |

## Left out

- Real hashing and JSON canonicalisation: the canonical payload is a record and the hash a parameter, so that collisions are neither assumed nor excluded.
- Unicode trimming, case folding and locale collation: ASCII and code-unit order instead, which differs from `localeCompare` on mixed-case labels.
- `Date.parse` and `Date` arithmetic: a parameter or integer milliseconds; calendar validity of a date text is not modelled.
- Grant and plan times are integer instants; the source compares their ISO texts, which is the same order within one format.
- Binary floating point: budgets, prices, quantities and scores are exact rationals, so that rounding errors and NaN do not occur.
- Mint requests whose fields are not of their declared types, but for `metadata`, which is taken as it comes.
- Error message texts and reason strings beyond their codes, audit and telemetry hooks, consent pricing.
- Aliasing: records returned by the source share arrays and objects with its stores; here they are copies.
- A revocation port that answers differently on two calls within one decision: ports are functions of their subject.
- The identity policy's supplied chain is taken as data; where it came from is not modelled.
- The revocation fingerprint is compared as a tuple of fields instead of as its JSON text.
- Execution leases, continuations, failures and retry recommendations of the fabric: single-branch map updates.
- Leases, portable continuity exports and the remaining agreement fields of the brokerage.
- `evaluateCapabilityLineage`, issuance from governance sessions, suspension and activation of runtime capabilities, and the policy adapter of `evaluateCapabilityUse`.
- The market maker registry argument of `validateCapabilityToken`, which verification never passes.
- The default registries shared by all callers of the token functions, and their reset: one explicit pair of registries instead.
- The HTTP server, SDK clients, vault access decisions, memory weighting, federation field checks, frontend.
- IdentityPolicy.EvaluateIdentityPolicy: does not model the normalised actor that the decision repeats.
- ExecutionFabric.CompletableIff: does not model drives of plans in which a step id occurs twice, where every operation reaches the first such step only.
- Lifetimes.ConsentAtUse: takes instants whose text and milliseconds agree and that order with the consent's expiry text as whole seconds do, as real calendar times do; nothing is asked of the capability's own texts but their shape.
