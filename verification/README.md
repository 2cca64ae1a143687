# A verified model of the mining pool's core

This project models, in Dafny, the parts of the TIG mining pool where a mistake
costs money or trust, and proves what they promise over every input, every
interleaving and every crash. Each module follows one component of the pool.

- **Decision engine** (`Numbers`, `Ratio`, `Bundles`, `Challenge`, `Algorithm`,
  `Source`, `Propose`, with `Ids` and `Compute`): exact checked ratios, the
  challenge, algorithm and source selections, bundle sizing, the whole deciding
  pass and the reserve it records.
- **Write ledger and admission** (`Ledger`, `LedgerMeaning`, `LedgerSafety`,
  `LedgerTheorems`, `LedgerHeights`, `LedgerStore`): intents, attempts,
  decisions, unverified intervals, snapshot anchors and fences, as atomic steps
  that any number of controllers and gateways interleave.
- **Identity service** (`Identity`, `IdentityMeaning`, `IdentitySafety`,
  `IdentityTheorems`, `IdentityService`): every operation is an ordered list of document writes. A
  crash keeps any prefix of it, and callers may retry anything.
- **Block intake** (`Intake`, `IntakeSafety`, `IntakeService`): the poll,
  ingestion with its gap record, reconciliation, cache warm-up and the deciding
  pass, with an error or a crash after any effect.
- **Snapshot assembly** (`Assembly`): reads against a chain that advances
  between them, behind the per-block cache.
- **Active-benchmark cache** (`ActiveCache`): budgeted passes, one and many.
- **Request replay memory** (`Replay`): the freshness check, the insert and the
  read as separate steps, with pruning and time between them.
- **Fake TIG** (`Sampling`, `FakeTig`, `FakeTigSafety`, `FakeTigTimes`,
  `FakeTigRulings`, `FakeTigServer`): the in-memory chain and its nonce
  sampling.
- **Timestamps** (`Calendar`): printing and parsing seconds as RFC 3339 text
  (section 5.6 of RFC 3339), against the Gregorian calendar.

The imperative components are classes and methods with loops, each proved
against a pure specification function and, field by field, against what its
tables, documents or answers must then hold. The guarantees over whole runs are
lemmas about those functions. Every integer is unbounded unless a width is written out:
`Numbers.U64` and `Numbers.U128` mark where the pool checks for overflow, and
the calendar stops at the last second of year 9999.

Clocks, randomness, the network, database answers and request bodies are
parameters. Hashes and keyed identifiers are taken to be injective, so an
identifier is the label it was derived from and a digest is the content it
covers. A signature verifies for the key it was made with. A database
transaction is one atomic step, and so is one document write.

`dafny verify dfyconfig.toml` checks the whole project.

## Where the code and its description differ

- `parse_rfc3339_seconds` says each instant has one accepted spelling. It also
  accepts a sign in a numeric field. `PrintOfParse` gives the exact condition,
  and `SignedSpellingIsAccepted` an instant with two spellings.
- `select_challenge` describes `considered` as being in id order. The code keeps
  the order of its input: the ids come out in order if and only if the
  considered challenges went in that way (`ConsideredInOrderIff`), and
  `ConsideredCanBeUnsorted` is an input where they do not.
- `reserve` promises to cover whichever track TIG picks. It saturates at the
  largest `u128`, so it covers every track if and only if no track's exposure is
  above that (`ReserveCovers`).
- The recorded anchor height of a decision is the caller's, and only the block
  id and digest are compared. Anchors follow snapshot order
  (`AnchorsNeverStepBack`). Recorded heights do, in every run, if and only if
  the caller's rule gives no later snapshot of another block a lower height
  (`HeightsFollowIffMonotone`); `RecordedHeightsCanStepBack` is a run where
  they do not.
- A precommit intent can also be created without the admission transaction, by
  the intent repository. No caller does that. `NoGenerationWhileSent` shows it
  is the one step that would add a generation while a precommit is out.
- A SECURITY revocation holds from the moment the worker's enrollment record is
  committed. Before that, a retried enrollment rewrites the worker document
  (`SecurityLostBeforeCommit`, a run from the empty store).
  `SecurityLiftedExactly` says which operations, complete or stopped after any
  write, lift a revocation.
- Recovery revokes the credentials its listing names. A rotation that stopped
  between its credential document and its marker leaves one the listing does not
  name (`CrashedRotationIsUnlisted`, `RecoveryRevokesTheListed`).
- `reads_complete` is false for a challenge listed twice whose first read failed
  and whose second succeeded, although every read is present
  (`RepeatedChallengeLooksIncomplete`). The flag says in every run whether all
  reads are present, if and only if the block lists no challenge twice
  (`CompleteIffAllPresent`).
- The fake's verified and fraud heights move when the ruling is requested again
  (`VerifiedHeightCanMove`), and exactly then (`VerifiedMovesIffMinted`,
  `FraudMovesIffMinted`). The other confirmation heights never do.
- The active-benchmark warm-up is meant to reach every id. With ids that keep
  failing it reaches one that can be read if and only if fewer of them than the
  budget come before it (`RetainedIffFewBlockers`).

## Model

| member | source | states |
|---|---|---|
| `Calendar.CivilFromDaysIsValid` | crates/pool-identity/src/lib.rs:112-131 | every day from the epoch on prints as a real Gregorian date that maps back to that day |
| `Calendar.CivilFromDaysOfDate` | crates/pool-identity/src/wallet.rs:284-293 | the day number of a real date prints as that date: the two conversions are inverse |
| `Calendar.DatesFollowTheCalendar` | crates/pool-identity/src/lib.rs:112-131 | day 0 is 1 January 1970, and the next day number is always the calendar's next day |
| `Calendar.PrintShows` | crates/pool-identity/src/lib.rs:112-131 | the printed text shows, at their RFC 3339 places, the date counted day by day on the calendar from 1 January 1970 and the hour, minute and second of the rest |
| `Calendar.ParseOfPrint` | crates/pool-identity/src/wallet.rs:238-293 | parsing the printed form of any u64 second gives it back exactly up to the last second of year 9999, and nothing after it |
| `Calendar.PrintOfParse` | crates/pool-identity/src/wallet.rs:238-293 | an accepted text is the printed form of its value if and only if its numeric fields are digits only |
| `Calendar.SignedSpellingIsAccepted` | crates/pool-identity/src/wallet.rs:246-256 | one instant with two accepted spellings, the second with a sign |
| `Numbers.GcdIsGreatest` | crates/pool-decision/src/ratio.rs:111-121 | the Euclidean gcd divides both numbers, and every common divisor divides it |
| `Numbers.GcdLoop` | crates/pool-decision/src/bundles.rs:98-106 | the in-place loop computes that gcd |
| `Ratio.LowestTermsAreUnique` | crates/pool-decision/src/ratio.rs:38-47 | two ratios in lowest terms are equal as records exactly when they are equal as numbers |
| `Ratio.New` | crates/pool-decision/src/ratio.rs:38-47 | a ratio exists exactly for a non-zero denominator, in lowest terms, with the exact value |
| `Ratio.CheckedSum` | crates/pool-decision/src/ratio.rs:68-87 | a sum succeeds exactly when it fits over the least common denominator, and is then exact and in lowest terms |
| `Ratio.LeastCommonDenominator` | crates/pool-decision/src/ratio.rs:68-87 | the common denominator of a sum is reached from both sides, and no common multiple of the two denominators is smaller |
| `Ratio.CheckedScale` | crates/pool-decision/src/ratio.rs:89-95 | scaling succeeds exactly when the numerator fits in u128, and is then exact |
| `Ratio.CheckedCompare` | crates/pool-decision/src/ratio.rs:98-108 | a comparison succeeds exactly when both cross products fit, and is then the order of the values |
| `Ratio.CheckedDivide` | crates/pool-decision/src/challenge.rs:342-352 | a quotient succeeds exactly when both cross products fit, and is then exact |
| `Bundles.FillsIffMultiple` | crates/pool-decision/src/bundles.rs:49-96 | a bundle count fills the cores evenly if and only if it is a multiple of cores / gcd(cores, nonces) |
| `Bundles.RoundedUpIsSmallest` | crates/pool-decision/src/bundles.rs:49-96 | rounding the minimum up to that multiple gives the smallest count at or above it that fills the cores |
| `Bundles.SizeTrack` | crates/pool-decision/src/bundles.rs:49-96 | one track gets its smallest filling count, with the divisor and the multiple it was derived from, and overflow exactly when that count is not a u64 |
| `Bundles.SizeBundles` | crates/pool-decision/src/bundles.rs:49-96 | every active track is sized so, aligned exactly for a CPU offer on a track the algorithm is best on, with a derivation for exactly those; zero cores are an error exactly with such a track, and an overflow names a track that cannot be sized |
| `Challenge.Project` | crates/pool-decision/src/challenge.rs:258-305 | the expected addition is the exact sum of the in-flight rates of each challenge, and it fails exactly when one of them, or the exact sum up to and with it, does not fit |
| `Challenge.ProjectedFactor` | crates/pool-decision/src/challenge.rs:307-353 | the factor is exactly (pool + addition) / (network + addition), and it fails exactly when a total, sum or quotient does not fit; a zero denominator hides no failing sum |
| `Challenge.LowestFactor` | crates/pool-decision/src/challenge.rs:356-372 | the tie set is exactly the challenges whose factor is the minimum, and it fails exactly when some factor cannot be compared with the lowest of those before it |
| `Challenge.ResolveTie` | crates/pool-decision/src/challenge.rs:376-402 | the winner of a tie comes first by draw rank and then by id |
| `Challenge.SelectChallenge` | crates/pool-decision/src/challenge.rs:170-245 | the considered challenges, the reason for every excluded one (its compute type, or its first active track without a source), their exact factors, the tie set and the winner; an arithmetic error exactly where one of those steps overflows, and a missing rank only for a considered challenge without one |
| `Challenge.ConsideredInOrderIff` | crates/pool-decision/src/challenge.rs:170-245 | the considered ids come out in id order if and only if the considered challenges were listed that way |
| `Challenge.ConsideredCanBeUnsorted` | crates/pool-decision/src/challenge.rs:170-245 | a selection of two challenges that reports them out of id order |
| `Challenge.SelectedIsMinimal` | crates/pool-decision/src/challenge.rs:170-402 | no considered challenge has a lower factor than the selected one, and any with the same factor is drawn after it |
| `Challenge.AdditionIsOrderFree` | crates/pool-decision/src/challenge.rs:258-305 | the exact addition does not depend on the order of the in-flight list |
| `Challenge.SelectionIsOrderFree` | crates/pool-decision/src/challenge.rs:170-245 | two orderings of the same challenges and in-flight work give the same factors, tie set and winner |
| `Algorithm.SelectMostAdopted` | crates/pool-decision/src/algorithm.rs:70-114 | the selected algorithm has the highest adoption among the selectable ones, ties by id, and none exactly when none is selectable |
| `Algorithm.BestOnTrack` | crates/pool-decision/src/algorithm.rs:148-213 | the best on a track has the highest exact rate of those with one, ties by id, and an error means two rates whose cross products do not fit |
| `Algorithm.SelectAlgorithm` | crates/pool-decision/src/algorithm.rs:70-140 | both of these together, with a best for exactly the active tracks |
| `Source.HighestBundle` | crates/pool-decision/src/source.rs:63-147 | the highest bundle quality of one benchmark |
| `Source.SelectSource` | crates/pool-decision/src/source.rs:63-147 | the source is the candidate with the highest bundle, ties by most recent confirmation and then smallest id, and none exactly when there is no candidate |
| `Propose.CandidatesAreListed` | crates/pool-controller/src/propose.rs:357-359 | the candidates are exactly the listed challenges with active tracks, and distinct ids stay distinct |
| `Propose.CandidatesAreCached` | crates/pool-controller/src/propose.rs:817-856 | the candidate sources are exactly the cached benchmarks with a fuel budget, each with that row's own fields |
| `Propose.DecideCandidate` | crates/pool-controller/src/propose.rs:869-897 | a candidate's algorithm and its sources per track, each source a cached benchmark of that algorithm and track; an error means two of its algorithms whose rates on one of its tracks cannot be compared |
| `Propose.Propose` | crates/pool-controller/src/propose.rs:905-1098 | with distinct ids, a pass proposes exactly the selected challenge's active tracks: each track's settings carry its own count, the smallest filling one where the selected algorithm is best and the minimum elsewhere, with the fuel budget and hyperparameters of the source decided for the track, which is a cached benchmark, and the fee base + rate x bundles; it does nothing only when nothing is considered; every error names its overflow in the block: incomparable rates, the selection's arithmetic, a count or a fee of the selected challenge; a missing rank or an unknown selection never arises |
| `Propose.Fees` | crates/pool-controller/src/propose.rs:1034-1045 | the exact fee of every track, or a track whose fee does not fit in u128 |
| `Propose.Reserve` | crates/pool-controller/src/decide.rs:139-179 | the reserve is the greatest of the tracks' exposures (penalty x bundles + fee + charge), each capped at the largest u128, and zero for no track |
| `Propose.ReserveCovers` | crates/pool-controller/src/decide.rs:139-179 | the reserve covers the exact exposure of every track if and only if none is above the largest u128 |
| `Propose.SaturationUnderstates` | crates/pool-controller/src/decide.rs:139-179 | a track whose reserve is less than half of what it exposes |
| `Ledger.Newest` | crates/pool-workflow/src/decision.rs:562-600 | a usable snapshot of the network that no other usable one is later than, and none exactly when there is none |
| `Ledger.NextNo` | crates/pool-workflow/src/attempt.rs:448-466 | one more than the highest number already used for the intent |
| `LedgerMeaning.AdmitIs` | crates/pool-workflow/src/decision.rs:278-547 | admission succeeds, given the one-usable-row-per-block index, if and only if the limit is at least one, the reserve canonical, the generation undecided, the anchor the newest usable snapshot, fewer intervals open than the limit, the workflow still decided or a testnet one not there yet, the compute type named, generation and height in range, no precommit possibly at TIG and no such intent; it then adds exactly the decision, its intent and, for a new workflow, its open interval, and otherwise the error is true of the tables |
| `LedgerMeaning.BeginIs` | crates/pool-workflow/src/attempt.rs:448-466 | an attempt begins if and only if the intent exists and neither its network's precommit lane nor its benchmark's lane holds an unsettled attempt; it adds one unresolved attempt of that intent and benchmark, numbered one past the intent's highest |
| `LedgerMeaning.ClaimExcludesOthers` | crates/pool-workflow/src/lease.rs:101-168 | a claimed lease is refused to every other holder until it runs out |
| `LedgerSafety.RunKeepsInv` | crates/pool-workflow/src/decision.rs:278-547 | every run keeps the lanes single, attempts numbered, an ambiguous attempt's intent never looking unattempted, an interval open exactly while its workflow is neither verified nor terminal, decisions with their intents, and anchors in order |
| `LedgerSafety.RunFollows` | crates/pool-workflow/src/attempt.rs:506-599 | over every run, rows are never deleted, outcomes and intent states only settle, a workflow never returns to decided or leaves a terminal state, a closed interval stays as it closed and fences only rise |
| `LedgerTheorems.LanesHoldOneWrite` | migrations/0004_tig_write_attempt.sql:73-82 | in every reachable state at most one precommit attempt per network, and one attempt per benchmark, is unresolved or ambiguous |
| `LedgerTheorems.OutcomesOnlySettle` | crates/pool-workflow/src/attempt.rs:506-599 | over every run an outcome goes from none to any, or from ambiguous to accepted or rejected, and a definitive one never changes |
| `LedgerTheorems.NoGenerationWhileSent` | crates/pool-workflow/src/attempt.rs:209-244 | while a workflow's precommit is unresolved, ambiguous or accepted, a step adds a generation if and only if it creates a precommit intent outside admission |
| `LedgerTheorems.NoGenerationOnceAccepted` | crates/pool-workflow/src/decision.rs:489-536 | once a precommit is accepted, no run through admission ever gives the workflow another generation |
| `LedgerTheorems.AcceptanceIsForever` | crates/pool-workflow/src/attempt.rs:506-599 | a precommit resolved as accepted, or an ambiguous one reconciled as accepted, stays accepted in every later state, and through admission the workflow never gets another generation |
| `LedgerTheorems.DecisionIffIntent` | crates/pool-workflow/src/decision.rs:429-547 | in every run through admission a decision exists exactly when its same-generation precommit intent does, once each |
| `LedgerTheorems.AdmitsExactly` | crates/pool-workflow/src/decision.rs:278-547 | in every reachable state admission succeeds if and only if the conditions of `AdmitIs` hold |
| `LedgerTheorems.EveryDecisionHadOpenWorkflow` | crates/pool-workflow/src/decision.rs:405-470 | every decision of every run was appended by a step before which its workflow was absent or still decided |
| `LedgerTheorems.NoDecisionOncePast` | crates/pool-workflow/src/decision.rs:417-426 | a workflow past its first state gains no decision in any run |
| `LedgerTheorems.CapacityIsNeverExceeded` | crates/pool-workflow/src/decision.rs:338-345 | under any interleaving the open unverified intervals of a network never exceed the largest limit anyone admitted under |
| `LedgerTheorems.AnchorsNeverStepBack` | crates/pool-workflow/src/decision.rs:562-600 | the snapshots behind a network's committed decisions never step back in (height, block id) |
| `LedgerHeights.HeightsFollowIffMonotone` | crates/pool-workflow/src/decision.rs:562-600 | for a caller's rule from snapshot to recorded height: recorded heights never step back in any run that follows it, if and only if it gives no later snapshot of another block a lower height |
| `LedgerHeights.OwnHeightIsSafe` | crates/pool-workflow/src/decision.rs:429-470 | recording the snapshot's own height is such a rule |
| `LedgerHeights.RecordedHeightsCanStepBack` | crates/pool-workflow/src/decision.rs:562-600 | a run in which the later decision, on the later snapshot, records the lower height |
| `LedgerTheorems.PassedFenceNeverBegins` | crates/pool-workflow/src/lease.rs:175-202 | a fence that was passed is refused in every later state |
| `LedgerTheorems.LaterClaimWins` | crates/pool-workflow/src/lease.rs:101-168 | of two successful claims the later one holds the higher fence, and only it can begin an attempt |
| `LedgerStore.Store.RequireNewestAnchor` | crates/pool-workflow/src/decision.rs:562-600 | passes only an anchor that names the newest usable snapshot by height and block id, and every such anchor while a block has one usable row; no snapshot is the answer exactly when none is usable, and a stale anchor names the newest block |
| `LedgerStore.Store.AdmitPrecommit` | crates/pool-workflow/src/decision.rs:278-547 | the transaction succeeds exactly under the conditions of `AdmitIs` and writes exactly its rows, field by field; from its first failing check on it leaves every table as it was and gives a reason that is true of them |
| `LedgerStore.Store.BeginAttempt` | crates/pool-workflow/src/attempt.rs:448-466 | succeeds exactly for a known intent whose lanes hold no unsettled attempt, and then appends one unresolved attempt with the intent's benchmark and the next number; otherwise it writes nothing |
| `LedgerStore.Store.BeginFencedAttempt` | crates/pool-workflow/src/attempt.rs:468-504 | the same, and only under the lease's current fence |
| `LedgerStore.Store.ResolveAttempt` | crates/pool-workflow/src/attempt.rs:506-562 | succeeds exactly on an attempt without an outcome; it then holds the given outcome and nothing else of it changes, and no intent changes except that a prepared one becomes unknown when the outcome is ambiguous |
| `LedgerStore.Store.ReconcileAttempt` | crates/pool-workflow/src/attempt.rs:564-599 | succeeds exactly from ambiguous to a definitive outcome, which the attempt then holds; nothing else changes |
| `IdentitySafety.OperationIsAllowed` | crates/pool-identity/src/service.rs:498-1213 | every document an operation writes respects what may be overwritten at that point of its list |
| `IdentitySafety.RunKeepsInv` | crates/pool-identity/src/service.rs:498-1587 | every run with crashes after any write keeps the store sound |
| `IdentitySafety.RunPreserves` | crates/pool-identity/src/service.rs:498-1587 | records, claims, commands and issuances, once written, are never rewritten in any run |
| `IdentityMeaning.EnrollWrote` | crates/pool-identity/src/service.rs:498-632 | a successful enrollment leaves exactly its claim, its credential, that credential in the worker's listing, the active worker and its record, and writes the record last |
| `IdentityMeaning.RotateWrote` | crates/pool-identity/src/service.rs:790-896 | a rotation leaves exactly the new listed credential, the old one ending at the answered time, and its record, written last; without the old credential only the new one |
| `IdentityMeaning.RecoverWrote` | crates/pool-identity/src/service.rs:1075-1213 | a recovery leaves exactly its claim, the new credential live and every other listed one revoked, the worker active and its record, written last, and answers with exactly the revoked ones |
| `IdentityMeaning.IssueWrote` | crates/pool-identity/src/service.rs:1457-1587 | a grant names the assignment of its id, the worker's member and the asked worker, slot and benchmark; it leaves exactly the assignment, the benchmark's mapping and the issuance, written last |
| `IdentityTheorems.BenchmarksAreUnique` | crates/pool-identity/src/service.rs:1457-1587 | no two committed issuances name the same benchmark, whatever crashed and was retried |
| `IdentityTheorems.IssuanceIsFixed` | crates/pool-identity/src/service.rs:1457-1587 | a committed issuance answers with its one grant forever, other facts conflict, and neither writes |
| `IdentityTheorems.ClaimIsForever` | crates/pool-identity/src/service.rs:459-494 | a ticket's claim is set once and never changes hands |
| `IdentityTheorems.OneWorkerPerTicket` | crates/pool-identity/src/service.rs:498-632 | at most one worker is ever written from one enrollment ticket |
| `IdentityTheorems.EnrollmentIsFixed` | crates/pool-identity/src/service.rs:498-632 | once its record exists, an enrollment's replays return it at any later time, changed content conflicts, and neither writes |
| `IdentityTheorems.SecurityHolds` | crates/pool-identity/src/service.rs:661-741 | for a committed worker a SECURITY revocation survives every run without its reinstatement, and no request of the worker verifies meanwhile |
| `IdentityTheorems.NoGrantWhileRevoked` | crates/pool-identity/src/service.rs:1521-1525 | while the SECURITY revocation of a committed worker stands, no run, with crashes after any write, adds an issuance or an assignment for it |
| `IdentityTheorems.SecurityLiftedExactly` | crates/pool-identity/src/service.rs:980-1068 | an operation, complete or stopped after any write, lifts a SECURITY revocation if and only if it is a new reinstatement of that worker or its enrollment before the record, and got as far as the worker document |
| `IdentityTheorems.SecurityLostBeforeCommit` | crates/pool-identity/src/service.rs:585-632 | a run from the empty store: a ticket, an enrollment stopped before its record, a SECURITY revocation, and the retry that lifts it |
| `IdentityTheorems.RecoveryRevokesTheListed` | crates/pool-identity/src/service.rs:1117-1191 | when recovery commits, a live credential of the worker is the new one or one its listing did not name |
| `IdentityTheorems.CrashedRotationIsUnlisted` | crates/pool-identity/src/service.rs:634-657 | a rotation stopped after its first write leaves a live credential that no listing names |
| `IdentityTheorems.UnlistedCredentialStillVerifies` | crates/pool-identity/src/service.rs:1147-1178 | such a credential is outside what a committed recovery revokes |
| `IdentityTheorems.RevocationIsFinal` | crates/pool-identity/src/service.rs:924-931 | once its issuing record is committed, a credential's revocation never returns to false, and no request with it verifies |
| `IdentityTheorems.RequestIdBindsOneContent` | crates/pool-identity/src/service.rs:661-783 | a credential's request id verifies for one signed content only, in every run |
| `IdentityService.Service.WriteDoc` | crates/pool-identity/src/service.rs:634-657 | one document write, kept in the journal |
| `IdentityService.Service.ClaimTicket` | crates/pool-identity/src/service.rs:459-494 | succeeds exactly for an unexpired ticket of the purpose, bound to the asked worker, that is unclaimed or the claimant's own, and then changes exactly its claim |
| `IdentityService.Service.EnrollWorker` | crates/pool-identity/src/service.rs:498-632 | a recorded id answers from its record or conflicts; a new one is enrolled if and only if the protocol is compatible, the proof valid and the ticket claimable, with the documents of `EnrollWrote`; each refusal has its code and changes nothing |
| `IdentityService.Service.VerifyRequest` | crates/pool-identity/src/service.rs:661-783 | verifies exactly a request within five minutes of a live credential of an active worker, signed with its key and under an id not used for other content; it answers the worker's member, remembers that content and changes nothing else |
| `IdentityService.Service.RotateCredential` | crates/pool-identity/src/service.rs:790-896 | a recorded id answers from its record or conflicts; a new one with a valid proof issues the credential and ends the rotating one exactly ten minutes from now, with the documents of `RotateWrote` |
| `IdentityService.Service.RevokeEachListed` | crates/pool-identity/src/service.rs:1147-1178 | the loop leaves every listed credential but the new one revoked and nothing else changed, and reports exactly those that exist |
| `IdentityService.Service.RecoverWorker` | crates/pool-identity/src/service.rs:1075-1213 | a recorded id answers from its record or conflicts; a new one recovers if and only if the proof is valid, the worker known and not SECURITY-revoked and the ticket claimable for it, with the documents of `RecoverWrote`; each refusal has its code and changes nothing |
| `IdentityService.Service.RevokeOneCredential` | crates/pool-identity/src/service.rs:908-943 | a new command revokes exactly that credential of that worker and is recorded; an unknown one is refused, a repeat answers without a write and another command under the id conflicts |
| `IdentityService.Service.RevokeOneWorker` | crates/pool-identity/src/service.rs:980-1033 | a new command leaves exactly that worker inactive for the given reason and is recorded; an accidental reason never replaces SECURITY, and a repeat answers without a write |
| `IdentityService.Service.ReinstateOneWorker` | crates/pool-identity/src/service.rs:1040-1068 | a new command leaves exactly that worker active with no reason and is recorded; a repeat answers without a write and another command under the id conflicts |
| `IdentityService.Service.IssueOneAssignment` | crates/pool-identity/src/service.rs:1457-1587 | a recorded id answers from its record or conflicts; a new one is granted if and only if the worker exists and is active, the slot exists, is the worker's and qualified, and the benchmark is unmapped or mapped to this assignment, with the grant and documents of `IssueWrote`; each refusal has its code and changes nothing |
| `IntakeSafety.RunKeepsInv` | crates/pool-controller/src/service.rs:310-385 | every run of polls with errors, crashes and restarts at any point keeps log, memory and heights sound |
| `IntakeSafety.EachBlockProposedOnce` | crates/pool-controller/src/service.rs:310-535 | across any crashes and restarts no block reaches the proposal twice |
| `IntakeSafety.ProposalFollowsReconciliation` | crates/pool-controller/src/service.rs:69-102 | every proposal follows a reconciliation of its block, in the same process run, that did not block claiming, the warm-up path included |
| `IntakeSafety.EveryHeightIsAccountedFor` | crates/pool-controller/src/ingest.rs:83-114 | each height strictly between two completely observed ones is completely observed or a recorded gap, and never both |
| `IntakeSafety.WarmUpIsDecided` | crates/pool-controller/src/service.rs:482-535 | over every run, a reconciled block that stays the head through any polls that do not cover it is usable after the uninterrupted poll that does, and is proposed in it if and only if there is an offer, its inputs and nothing blocking |
| `IntakeSafety.TakenInIsRemembered` | crates/pool-controller/src/service.rs:343-385 | an uninterrupted poll that takes a block in leaves exactly its row, its gaps and, with complete reads, its reconciliation, the memory of it and a proposal if it may decide |
| `IntakeService.Service.Ingest` | crates/pool-controller/src/ingest.rs:83-114 | records exactly the gap since the last complete height, before it persists exactly the block's row |
| `IntakeService.Service.Decide` | crates/pool-controller/src/service.rs:394-478 | proposes exactly with an offer, a reconciliation that ran and does not block, a usable block and its inputs at hand, and changes nothing else |
| `IntakeService.Service.ContinueWarmUp` | crates/pool-controller/src/service.rs:482-535 | answers whether the cache now covers the block and whether it was proposed; covered, it leaves the usable row, the usable memory and exactly that proposal, otherwise nothing |
| `IntakeService.Service.TakeIn` | crates/pool-controller/src/service.rs:343-385 | ingests, reconciles, remembers and decides in that order, skips the last three for incomplete reads, and answers exactly what it did |
| `IntakeService.Service.Poll` | crates/pool-controller/src/service.rs:310-385 | unchanged exactly for a remembered usable block, cache advanced for a remembered unusable one, already ingested for one an earlier run finished, not assembled where the reads failed and ingested otherwise, each with exactly the rows, gaps, memory, log and flags it then leaves |
| `IntakeService.Service.RecordBlockGap` | crates/pool-workflow/src/restart.rs:506-545 | a height is a gap afterwards exactly when it was one before or lies strictly between the two |
| `Assembly.PassIsConsistent` | crates/pool-snapshot/src/lib.rs:226-291 | for every schedule of advances, failures and cache hits, an accepted snapshot holds only what the server held while its block was latest, and a complete one is exactly the snapshot of a chain that stood still at that block |
| `Assembly.PassMeets` | crates/pool-snapshot/src/lib.rs:226-291 | a pass is accepted only if its opening and closing reads answered, only the transport failed between them and the head stayed, and is complete exactly when no request failed; an error is the fault of its last request, an unreadable challenge list, or the head that moved |
| `Assembly.ReadAllMeets` | crates/pool-snapshot/src/lib.rs:232-271 | a loop of reads loses exactly one answer per transport failure and stops at the first other failure, with its fault |
| `Assembly.CompleteIffAllPresent` | crates/pool-snapshot/src/lib.rs:226-291 | `reads_complete` says in every run whether all five reads and one track read per listed challenge are present, if and only if the block lists no challenge twice |
| `Assembly.RepeatedChallengeLooksIncomplete` | crates/pool-snapshot/src/lib.rs:252-271 | with a challenge listed twice, a run whose accepted snapshot holds every read and still counts as incomplete |
| `Assembly.FlagIsExactIffDistinct` | crates/pool-snapshot/src/lib.rs:232-271 | a read loop's flag says for all answers whether every key was kept, if and only if no key is read twice |
| `Assembly.Source.Put` | crates/pool-snapshot/src/cache.rs:52-68 | the answer is cached for its block, and another block's entry is replaced whole |
| `Assembly.Source.Get` | crates/pool-snapshot/src/tig_source.rs:127-161 | a cached answer for the block without a request; otherwise the fault of the one request made, or what the server holds at the head it met, then cached for the block |
| `Assembly.Source.GetBlock` | crates/pool-snapshot/src/tig_source.rs:111-125 | one request: its fault, or the head it met, never cached |
| `Assembly.Source.ReadAnchored` | crates/pool-snapshot/src/lib.rs:232-250 | keeps five answers less the transport failures, is complete exactly without one, and returns the first other failure, which was its last request |
| `Assembly.Source.ReadTracks` | crates/pool-snapshot/src/lib.rs:252-271 | one track read per listed challenge: complete exactly without a transport failure, each failure one answer less where no challenge repeats, and the first other failure returned |
| `Assembly.Source.AssembleOnce` | crates/pool-snapshot/src/lib.rs:226-291 | one pass: an accepted snapshot is consistent and of the opening block, which is still the latest, and complete exactly when no request failed; an error says why as in `PassMeets`, and the cache keeps only answers given since its block was latest |
| `Assembly.Source.Assemble` | crates/pool-snapshot/src/lib.rs:189-224 | retries exactly passes the chain outran, at most the given number of times, and reports that it was outpaced exactly when all of them were |
| `ActiveCache.PassSplitsTheWanted` | crates/pool-snapshot/src/active_cache.rs:242-304 | a pass splits the unretained active ids exactly into fetched and missing, in id order, and covers the set exactly when the store then holds it |
| `ActiveCache.TriedAreTheFirst` | crates/pool-snapshot/src/active_cache.rs:268-280 | the budget is spent on the ids with fewer than that many wanted ids before them |
| `ActiveCache.PassMakesProgress` | crates/pool-snapshot/src/active_cache.rs:256-304 | a pass retains every id that does not keep failing, or at least as many as the budget exceeds those that do |
| `ActiveCache.EveryOtherIdIsRetained` | crates/pool-snapshot/src/active_cache.rs:256-304 | while fewer ids than the budget keep failing, every other id is retained within as many passes as there were such ids missing |
| `ActiveCache.TheFirstCanStarveTheRest` | crates/pool-snapshot/src/active_cache.rs:268-304 | when the first ids, as many as the budget, keep failing, no other id is ever retained |
| `ActiveCache.RetainedIffFewBlockers` | crates/pool-snapshot/src/active_cache.rs:256-304 | with a fixed set of failing ids, an active id that can be read is retained in the end if and only if fewer failing ones than the budget come before it, and then within one pass more than there are readable ids before it |
| `ActiveCache.Store.Advance` | crates/pool-snapshot/src/active_cache.rs:256-304 | one pass makes exactly as many reads as the budget and the wanted ids allow, reports the split and leaves the store with exactly what was fetched; it fails if and only if the store would not take a fetched id, and then keeps a part of that |
| `Replay.IdMeansOneRequest` | crates/pool-api/src/auth.rs:356-422 | in every interleaving, two accepted requests with one id are the same signed bytes, or rest on rows at least a day apart |
| `Replay.RecordedOnce` | crates/pool-api/src/auth.rs:325-422 | a signed request is recorded in one row only, however often it is sent, if inserts follow their freshness checks soon enough |
| `Replay.SlowRequestIsRecordedTwice` | crates/pool-api/src/auth.rs:325-376 | a run with two rows for one request when an insert waits too long |
| `Replay.RecordedOnceIffPrompt` | crates/pool-api/src/auth.rs:325-422 | the exact bound: the delay plus the two-sided freshness window is less than the 24 hours remembered |
| `Replay.Table.RecordAttempt` | crates/pool-api/src/auth.rs:356-422 | accepts exactly a new id or the recorded bytes; a new id gets its row and no row is rewritten |
| `Sampling.StartsAreDistinct` | crates/fake-tig/src/lib.rs:323-338 | the evenly spaced offsets are distinct modulo the number of nonces |
| `Sampling.Probe` | crates/fake-tig/src/lib.rs:330-333 | the collision loop ends at the first free nonce whenever one is left, and takes no step exactly when the start is free |
| `Sampling.SampleIsSample` | crates/fake-tig/src/lib.rs:323-338 | the sample is min(count, n) distinct ascending nonces below n |
| `Sampling.SampleIsSpaced` | crates/fake-tig/src/lib.rs:323-338 | the sampled nonces are exactly (offset + i * n / count) mod n for i below count |
| `Sampling.SampleNonces` | crates/fake-tig/src/lib.rs:323-338 | the loops terminate with that sample, and the collision loop never takes a step |
| `FakeTigSafety.RunKeepsInv` | crates/fake-tig/src/lib.rs:370-442 | every run keeps each benchmark's heights in order, its sample published exactly with a confirmed benchmark that did not stop, and its active interval set with its proof |
| `FakeTigTimes.MintDoes` | crates/fake-tig/src/lib.rs:370-442 | what a block makes of one benchmark, field by field: pending rulings at its height, confirmations due by then, the sample of a benchmark it confirms and the active interval of a proof it confirms |
| `FakeTigTimes.ConfirmationsAreOnTime` | crates/fake-tig/src/lib.rs:370-442 | in every reachable world each precommit, benchmark and proof is confirmed at exactly max(1, delay) blocks after it was sent and not before, with exactly its sample, its submission delay and its active interval |
| `FakeTigSafety.HeightsAreOrdered` | crates/fake-tig/src/lib.rs:370-442 | in every reachable world started < precommit < benchmark < proof < verified, and verified <= fraud, wherever the later one exists |
| `FakeTigSafety.BlockIsSettledWhenMinted` | crates/fake-tig/src/lib.rs:444-519 | no write, injection or ruling request changes what the current block says |
| `FakeTigSafety.BlockStaysUntilTheNext` | crates/fake-tig/src/lib.rs:444-519 | nor does any run of them, until the next block is minted |
| `FakeTigSafety.ConfirmationsNeverMove` | crates/fake-tig/src/lib.rs:370-442 | precommit, benchmark and proof heights, samples and active intervals never change once set |
| `FakeTigSafety.PastConfirmationsAreFixed` | crates/fake-tig/src/lib.rs:444-463 | the confirmed ids of every block ever minted are fixed in every later world |
| `FakeTigRulings.VerifiedMovesIffMinted` | crates/fake-tig/src/lib.rs:370-392 | over every run, a published verification height changes if and only if a block is minted with a verification pending: from before, or requested ahead of any fraud ruling |
| `FakeTigRulings.FraudMovesIffMinted` | crates/fake-tig/src/lib.rs:370-392 | over every run, a fraud height changes if and only if a block is minted with a fraud ruling pending |
| `FakeTigRulings.VerifiedHeightCanMove` | crates/fake-tig/src/lib.rs:1311-1340 | a run from a fresh world that verifies a benchmark at one height and then at the next, so that the block that named it no longer does |
| `FakeTigServer.Server.MintBlock` | crates/fake-tig/src/lib.rs:370-442 | height, timestamp and round move on as configured, and the three loops together make of every benchmark what `MintDoes` says |
| `FakeTigServer.Server.ConfirmAll` | crates/fake-tig/src/lib.rs:379-420 | rulings and confirmations of every benchmark, and exactly those to sample and to activate |
| `FakeTigServer.Server.PublishSamples` | crates/fake-tig/src/lib.rs:421-429 | a sample for exactly the listed benchmarks |
| `FakeTigServer.Server.Activate` | crates/fake-tig/src/lib.rs:430-441 | the active interval for exactly the listed benchmarks |
| `FakeTigServer.Server.HandlePrecommit` | crates/fake-tig/src/lib.rs:910-1078 | accepts exactly a precommit of the pool on one of the last two blocks with settings for exactly the active tracks, enough bundles and little enough fuel on the first of them, and no injection; an ambiguous injection creates it and answers an error, any other stops it; the new benchmark has bundles x nonces, the fee base + rate x bundles, and starts now |
| `FakeTigServer.Server.HandleBenchmark` | crates/fake-tig/src/lib.rs:1080-1171 | accepts exactly the first well-formed submission of a confirmed precommit without an injection; an ambiguous one records it too, only that benchmark's submission changes, and the current block stays as it was |
| `FakeTigServer.Server.HandleProof` | crates/fake-tig/src/lib.rs:1173-1259 | accepts exactly the first well-formed proof of every sampled nonce once, compared by sorting both lists, of a confirmed benchmark that did not stop, without an injection; an ambiguous one records it too, with the blocks it took since the start |
| `FakeTigServer.SortingComparesMultisets` | crates/fake-tig/src/lib.rs:1236-1244 | sorting both lists and comparing them is equality as multisets |
| `FakeTigServer.Server.HandleVerify` | crates/fake-tig/src/lib.rs:1311-1340 | accepts exactly a confirmed proof with no fraud set or pending, sets only that benchmark's pending flag, and leaves the current block and, on refusal, everything as it was |
| `FakeTigServer.Server.HandleFraud` | crates/fake-tig/src/lib.rs:1362-1374 | accepts exactly a known benchmark, sets only its pending flag, and leaves the current block and, on refusal, everything as it was |

## Left out

- HTTP routing, telemetry, command-line entry points, configuration loading and secret files: single checks without state.
- Reading JSON bodies in `propose.rs`, `window.rs`, `active_cache::retain`, `block_identity` and the fake's handlers: the model starts from typed records, and a malformed body is a flag or an error.
- Ed25519, ECDSA recovery, HMAC, BLAKE3 and SHA-256: taken as injective labels and ideal signatures.
- SQL isolation below the level of one transaction, and the file system below one document write.
- The gateway's sending path and its sibling check: so no claim is made that at most one precommit of a workflow is ever accepted.
- The preconditions of benchmark and proof intents in migration 0011, revisions of workflow rows, and the transport details of an attempt: they only refuse more, or describe.
- The `expected_q`, rate and tie-candidate maps that only document a decision.
- The fallback of `track_rates` for a challenge without active tracks: the deciding pass drops such challenges first.
- BestOnTrack: states one way only that an error means two incomparable rates of the track, and SelectAlgorithm and DecideCandidate carry that on; the tie list is not modelled.
- Members and their documents in the identity service: every member id is taken to be known when a ticket is made.
- Audit rows of the identity service: they are appended after the commit point, and a crash can lose them.
- Slot registration and qualification are one operation that may write any slot, and marker documents are listed in the order they were written.
- UUID, hexadecimal and length validators, and uploads: easy members.
- The HTTP cache inside the TIG client: the assembly model has the per-block cache only.
- The floating-point activation delay of the fake is a function that picks any number of blocks, and the fake's u32 and u64 arithmetic is unbounded.
- More than one controller process taking blocks in at once: the intake model has one, with restarts.
- Chain reorganisations: one height has one block, in the intake and assembly models.
- Deadline bands and the aggregates read from unverified intervals: true, but easy members.
- The audit row of a rejected request id in the API: it changes the answer to "unavailable" when it cannot be written, and nothing else.
