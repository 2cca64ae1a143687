/**
 * The identity service's documents, and each of its operations as the list of
 * atomic document writes it makes under the writer lock.
 *
 * A crash can fall after any write, so what survives an operation is a prefix
 * of its list. Identifiers derived with the keyed hash are the labels they are
 * derived from, and request digests are the requests themselves.
 */
module Identity {
  import opened Wrappers

  datatype WorkerId = WorkerOf(enrollment: string)

  datatype CredentialId =
    | EnrollmentCredential(enrollment: string)
    | RotationCredential(rotator: WorkerId, rotation: string)
    | RecoveryCredential(recovered: WorkerId, recovery: string)

  datatype AssignmentId = AssignmentOf(issuance: string)

  datatype Purpose = WorkerEnrollment | WorkerRecovery

  datatype Reason = Accidental | Security

  datatype Ticket = Ticket(purpose: Purpose, member: string, worker: Option<WorkerId>, expiresAt: nat)

  datatype Worker = Worker(member: string, active: bool, reason: Option<Reason>)

  datatype Credential = Credential(worker: WorkerId, publicKey: string, revoked: bool, revokesAt: Option<nat>)

  /** `compatible` and `proofValid` are the two checks that read the request alone. */
  datatype EnrollRequest = EnrollRequest(id: string, ticket: string, name: string, publicKey: string, compatible: bool,
      proofValid: bool)

  datatype EnrollResponse = EnrollResponse(member: string, worker: WorkerId, credential: CredentialId, serverTime: nat)

  datatype RotateRequest = RotateRequest(id: string, publicKey: string, proofValid: bool)

  datatype RotateResponse = RotateResponse(credential: CredentialId, oldRevokesAt: nat, serverTime: nat)

  datatype RecoverRequest = RecoverRequest(id: string, worker: WorkerId, ticket: string, publicKey: string,
      proofValid: bool)

  /** The fields a recovery's digest covers. */
  datatype RecoverContent = RecoverContent(worker: WorkerId, ticket: string, publicKey: string)

  datatype RecoverResponse = RecoverResponse(credential: CredentialId, revoked: seq<CredentialId>, serverTime: nat)

  datatype Caller = Caller(worker: WorkerId, credential: CredentialId)

  datatype SignedRequest = SignedRequest(worker: WorkerId, credential: CredentialId, id: string, timestamp: nat,
      signed: string, signer: string)

  datatype Command = RevokeCredentialCommand(worker: WorkerId, credential: CredentialId)
                   | RevokeWorkerCommand(worker: WorkerId, reason: Reason)
                   | ReinstateCommand(worker: WorkerId)

  datatype Slot = Slot(worker: WorkerId, qualified: bool)

  datatype Facts = Facts(worker: WorkerId, slot: string, benchmark: string, digest: string, network: string)

  datatype Grant = Grant(assignment: AssignmentId, member: string, worker: WorkerId, slot: string, benchmark: string)

  datatype Docs = Docs(
    tickets: map<string, Ticket>,
    claims: map<string, string>,
    credentials: map<CredentialId, Credential>,
    markers: map<WorkerId, seq<CredentialId>>,
    workers: map<WorkerId, Worker>,
    enrollments: map<string, (EnrollRequest, EnrollResponse)>,
    rotations: map<(WorkerId, string), (string, RotateResponse)>,
    recoveries: map<string, (RecoverContent, RecoverResponse)>,
    commands: map<string, Command>,
    slots: map<string, Slot>,
    assignments: map<AssignmentId, Grant>,
    byBenchmark: map<string, AssignmentId>,
    issuances: map<string, (Facts, Grant)>,
    replay: map<(CredentialId, string), string>)

  const EMPTY := Docs(map[], map[], map[], map[], map[], map[], map[], map[], map[], map[], map[], map[], map[], map[])

  datatype Write =
    | PutTicket(secret: string, ticket: Ticket)
    | PutClaim(claimed: string, claimant: string)
    | PutCredential(credential: CredentialId, credentialDoc: Credential)
    | PutMarker(owner: WorkerId, enumerated: CredentialId)
    | PutWorker(worker: WorkerId, workerDoc: Worker)
    | PutEnrollment(enrollment: string, enrollmentDoc: (EnrollRequest, EnrollResponse))
    | PutRotation(rotation: (WorkerId, string), rotationDoc: (string, RotateResponse))
    | PutRecovery(recovery: string, recoveryDoc: (RecoverContent, RecoverResponse))
    | PutCommand(command: string, commandDoc: Command)
    | PutSlot(slot: string, slotDoc: Slot)
    | PutAssignment(assignment: AssignmentId, assignmentDoc: Grant)
    | PutBenchmark(benchmark: string, mapped: AssignmentId)
    | PutIssuance(issuance: string, issuanceDoc: (Facts, Grant))
    | PutReplay(request: (CredentialId, string), signed: string)

  function MarkersOf(d: Docs, w: WorkerId): seq<CredentialId> {
    if w in d.markers then d.markers[w] else []
  }

  function WithMarker(list: seq<CredentialId>, id: CredentialId): seq<CredentialId> {
    if id in list then list else list + [id]
  }

  /** `Store::write_doc`: one document replaced whole. */
  function Apply(d: Docs, w: Write): Docs {
    match w
    case PutTicket(k, v) => d.(tickets := d.tickets[k := v])
    case PutClaim(k, v) => d.(claims := d.claims[k := v])
    case PutCredential(k, v) => d.(credentials := d.credentials[k := v])
    case PutMarker(k, v) => d.(markers := d.markers[k := WithMarker(MarkersOf(d, k), v)])
    case PutWorker(k, v) => d.(workers := d.workers[k := v])
    case PutEnrollment(k, v) => d.(enrollments := d.enrollments[k := v])
    case PutRotation(k, v) => d.(rotations := d.rotations[k := v])
    case PutRecovery(k, v) => d.(recoveries := d.recoveries[k := v])
    case PutCommand(k, v) => d.(commands := d.commands[k := v])
    case PutSlot(k, v) => d.(slots := d.slots[k := v])
    case PutAssignment(k, v) => d.(assignments := d.assignments[k := v])
    case PutBenchmark(k, v) => d.(byBenchmark := d.byBenchmark[k := v])
    case PutIssuance(k, v) => d.(issuances := d.issuances[k := v])
    case PutReplay(k, v) => d.(replay := d.replay[k := v])
  }

  function ApplyAll(d: Docs, ws: seq<Write>): Docs
    decreases |ws|
  {
    if ws == [] then d else ApplyAll(Apply(d, ws[0]), ws[1..])
  }

  lemma {:induction false} ApplyConcat(d: Docs, a: seq<Write>, b: seq<Write>)
    ensures ApplyAll(d, a + b) == ApplyAll(ApplyAll(d, a), b)
    decreases |a|
  {
    if a == [] {
      assert a + b == b;
    } else {
      assert (a + b)[1..] == a[1..] + b;
      ApplyConcat(Apply(d, a[0]), a[1..], b);
    }
  }

  lemma ApplyAppend(d: Docs, ws: seq<Write>, w: Write)
    ensures ApplyAll(d, ws + [w]) == Apply(ApplyAll(d, ws), w)
  {
    ApplyConcat(d, ws, [w]);
    assert [w][1..] == [];
  }

  lemma ApplyTwo(d: Docs, a: Write, b: Write)
    ensures ApplyAll(d, [a, b]) == Apply(Apply(d, a), b)
  {
    ApplyAppend(d, [a], b);
    ApplyAppend(d, [], a);
    assert [] + [a] == [a] && [a] + [b] == [a, b];
  }

  // -- operations --------------------------------------------------------------

  datatype Code = TicketRejected | IdempotencyConflict | IncompatibleProtocol | BadProof | UnknownResource
                | NotAuthenticated | StaleTimestamp | ReplayRejected | CommandRefused | SlotNotQualified | Storage

  datatype Answer =
    | Failed(code: Code)
    | Done
    | Enrolled(enrolled: EnrollResponse)
    | Rotated(rotated: RotateResponse)
    | Recovered(recovered: RecoverResponse)
    | Verified(member: string)
    | Granted(grant: Grant)

  /** What an operation writes, in order, and what it answers. */
  datatype Run = Run(writes: seq<Write>, answer: Answer)

  const TICKET_TTL_SECS: nat := 900
  const REQUEST_FRESHNESS_SECS: nat := 300
  const ROTATION_GRACE_SECS: nat := 600

  function Refuse(code: Code): Run {
    Run([], Failed(code))
  }

  /** Whether `claim_ticket` accepts, and the claim it then writes. */
  predicate TicketAccepts(d: Docs, purpose: Purpose, secret: string, bound: Option<WorkerId>, claimant: string,
                          now: nat) {
    && secret in d.tickets && d.tickets[secret].purpose == purpose && now < d.tickets[secret].expiresAt
    && (bound.Some? ==> d.tickets[secret].worker == bound)
    && (secret in d.claims ==> d.claims[secret] == claimant)
  }

  function ClaimWrites(d: Docs, secret: string, claimant: string): seq<Write> {
    if secret in d.claims then [] else [PutClaim(secret, claimant)]
  }

  function NewCredential(w: WorkerId, publicKey: string): Credential {
    Credential(w, publicKey, false, None)
  }

  /** `write_credential`: the credential, then the marker that lists it. */
  function IssueWrites(c: CredentialId, w: WorkerId, publicKey: string): seq<Write> {
    [PutCredential(c, NewCredential(w, publicKey)), PutMarker(w, c)]
  }

  predicate EnrollProceeds(d: Docs, req: EnrollRequest, now: nat) {
    && req.id !in d.enrollments && req.compatible && req.proofValid
    && TicketAccepts(d, WorkerEnrollment, req.ticket, None, req.id, now)
  }

  function EnrollResponseOf(d: Docs, req: EnrollRequest, now: nat): EnrollResponse
    requires req.ticket in d.tickets
  {
    EnrollResponse(d.tickets[req.ticket].member, WorkerOf(req.id), EnrollmentCredential(req.id), now)
  }

  /** `enroll`. */
  function Enroll(d: Docs, req: EnrollRequest, now: nat): Run {
    if req.id in d.enrollments then
      if d.enrollments[req.id].0 != req then Refuse(IdempotencyConflict)
      else Run([], Enrolled(d.enrollments[req.id].1))
    else if !req.compatible then Refuse(IncompatibleProtocol)
    else if !req.proofValid then Refuse(BadProof)
    else if !TicketAccepts(d, WorkerEnrollment, req.ticket, None, req.id, now) then Refuse(TicketRejected)
    else
      var w, c := WorkerOf(req.id), EnrollmentCredential(req.id);
      var response := EnrollResponseOf(d, req, now);
      Run(ClaimWrites(d, req.ticket, req.id) + IssueWrites(c, w, req.publicKey)
          + [PutWorker(w, Worker(d.tickets[req.ticket].member, true, None)), PutEnrollment(req.id, (req, response))],
          Enrolled(response))
  }

  /** `verify_request`; a request verifies for the key it was signed with. */
  function Verify(d: Docs, sr: SignedRequest, now: nat): Run {
    if sr.credential !in d.credentials || d.credentials[sr.credential].worker != sr.worker || sr.worker !in d.workers
       || d.credentials[sr.credential].publicKey != sr.signer
    then Refuse(NotAuthenticated)
    else if d.credentials[sr.credential].revoked
            || (d.credentials[sr.credential].revokesAt.Some? && now >= d.credentials[sr.credential].revokesAt.value)
    then Refuse(NotAuthenticated)
    else if !d.workers[sr.worker].active then Refuse(NotAuthenticated)
    else if now > sr.timestamp + REQUEST_FRESHNESS_SECS
      || sr.timestamp > now + REQUEST_FRESHNESS_SECS then Refuse(StaleTimestamp)
    else
      var key := (sr.credential, sr.id);
      if key in d.replay && d.replay[key] != sr.signed then Refuse(ReplayRejected)
      else Run(if key in d.replay then [] else [PutReplay(key, sr.signed)], Verified(d.workers[sr.worker].member))
  }

  /** `rotate`. The rotating credential is read again after the new one is written. */
  function Rotate(d: Docs, caller: Caller, req: RotateRequest, now: nat): Run {
    var key := (caller.worker, req.id);
    if key in d.rotations then
      if d.rotations[key].0 == req.publicKey then Run([], Rotated(d.rotations[key].1)) else Refuse(IdempotencyConflict)
    else if !req.proofValid then Refuse(BadProof)
    else
      var c := RotationCredential(caller.worker, req.id);
      var issue := IssueWrites(c, caller.worker, req.publicKey);
      var now_ := ApplyAll(d, issue);
      if caller.credential !in now_.credentials then Run(issue, Failed(Storage))
      else
        var revokesAt := now + ROTATION_GRACE_SECS;
        var response := RotateResponse(c, revokesAt, now);
        Run(issue + [PutCredential(caller.credential,
            now_.credentials[caller.credential].(revokesAt := Some(revokesAt))),
                     PutRotation(key, (req.publicKey, response))],
            Rotated(response))
  }

  /** `check_command`: `None` when the command is new. */
  function CheckCommand(d: Docs, id: string, command: Command): Option<Run> {
    if id !in d.commands then None
    else if d.commands[id] == command then Some(Run([], Done))
    else Some(Refuse(IdempotencyConflict))
  }

  /** `revoke_credential`. */
  function RevokeCredential(d: Docs, w: WorkerId, c: CredentialId, commandId: string): Run {
    var command := RevokeCredentialCommand(w, c);
    var seen := CheckCommand(d, commandId, command);
    if seen.Some? then seen.value
    else if c !in d.credentials || d.credentials[c].worker != w then Refuse(UnknownResource)
    else Run([PutCredential(c, d.credentials[c].(revoked := true)), PutCommand(commandId, command)], Done)
  }

  /** `revoke_worker`. */
  function RevokeWorker(d: Docs, w: WorkerId, reason: Reason, commandId: string): Run {
    var command := RevokeWorkerCommand(w, reason);
    var seen := CheckCommand(d, commandId, command);
    if seen.Some? then seen.value
    else if w !in d.workers then Refuse(UnknownResource)
    else if d.workers[w].reason == Some(Security) && reason == Accidental then Refuse(CommandRefused)
    else Run([PutWorker(w, d.workers[w].(active := false, reason := Some(reason))), PutCommand(commandId, command)],
        Done)
  }

  /** `reinstate_worker`. */
  function ReinstateWorker(d: Docs, w: WorkerId, commandId: string): Run {
    var command := ReinstateCommand(w);
    var seen := CheckCommand(d, commandId, command);
    if seen.Some? then seen.value
    else if w !in d.workers then Refuse(UnknownResource)
    else Run([PutWorker(w, d.workers[w].(active := true, reason := None)), PutCommand(commandId, command)], Done)
  }

  function RevokeIfLive(d: Docs, c: CredentialId, keep: CredentialId): seq<Write> {
    if c != keep && c in d.credentials && !d.credentials[c].revoked
    then [PutCredential(c, d.credentials[c].(revoked := true))] else []
  }

  /** The loop of `recover_worker`: revoke each listed credential but the new one. */
  function RevokeListed(d: Docs, list: seq<CredentialId>, keep: CredentialId): seq<Write>
    decreases |list|
  {
    if list == [] then []
    else
      var first := RevokeIfLive(d, list[0], keep);
      first + RevokeListed(ApplyAll(d, first), list[1..], keep)
  }

  function RevokedIds(d: Docs, list: seq<CredentialId>, keep: CredentialId): seq<CredentialId> {
    if list == [] then []
    else (if list[0] != keep && list[0] in d.credentials then [list[0]] else []) + RevokedIds(d, list[1..], keep)
  }

  function ContentOf(req: RecoverRequest): RecoverContent {
    RecoverContent(req.worker, req.ticket, req.publicKey)
  }

  function RestoreWrites(d: Docs, w: WorkerId): seq<Write>
    requires w in d.workers
  {
    if d.workers[w].active then [] else [PutWorker(w, d.workers[w].(active := true, reason := None))]
  }

  /** Claim, issue, revoke the listed credentials, and restore the worker. */
  function RecoverWrites(d: Docs, req: RecoverRequest): seq<Write>
    requires req.worker in d.workers
  {
    var c := RecoveryCredential(req.worker, req.id);
    var issue := ClaimWrites(d, req.ticket, req.id) + IssueWrites(c, req.worker, req.publicKey);
    var issued := ApplyAll(d, issue);
    issue + RevokeListed(issued, MarkersOf(issued, req.worker), c) + RestoreWrites(d, req.worker)
  }

  predicate RecoverProceeds(d: Docs, req: RecoverRequest, now: nat) {
    && req.id !in d.recoveries && req.proofValid && req.worker in d.workers
      && d.workers[req.worker].reason != Some(Security)
    && TicketAccepts(d, WorkerRecovery, req.ticket, Some(req.worker), req.id, now)
  }

  function RecoverResponseOf(d: Docs, req: RecoverRequest, now: nat): RecoverResponse {
    var c := RecoveryCredential(req.worker, req.id);
    var issued := ApplyAll(d, ClaimWrites(d, req.ticket, req.id) + IssueWrites(c, req.worker, req.publicKey));
    RecoverResponse(c, RevokedIds(issued, MarkersOf(issued, req.worker), c), now)
  }

  /** `recover_worker`. */
  function Recover(d: Docs, req: RecoverRequest, now: nat): Run {
    if req.id in d.recoveries then
      if d.recoveries[req.id].0 != ContentOf(req) then Refuse(IdempotencyConflict)
      else Run([], Recovered(d.recoveries[req.id].1))
    else if !req.proofValid then Refuse(BadProof)
    else if req.worker !in d.workers then Refuse(UnknownResource)
    else if d.workers[req.worker].reason == Some(Security) then Refuse(TicketRejected)
    else if !TicketAccepts(d, WorkerRecovery, req.ticket, Some(req.worker), req.id, now) then Refuse(TicketRejected)
    else
      var response := RecoverResponseOf(d, req, now);
      Run(RecoverWrites(d, req) + [PutRecovery(req.id, (ContentOf(req), response))], Recovered(response))
  }

  /** `create_enrollment_ticket` and `create_recovery_ticket`, with the drawn secret as an argument. */
  function CreateTicket(d: Docs, purpose: Purpose, secret: string, member: string, worker: Option<WorkerId>,
                        now: nat): Run {
    if purpose.WorkerRecovery? && (worker.None? || worker.value !in d.workers
        || d.workers[worker.value].member != member) then Refuse(UnknownResource)
    else if purpose.WorkerRecovery? && d.workers[worker.value].reason == Some(Security) then Refuse(TicketRejected)
    else Run([PutTicket(secret, Ticket(purpose, member, worker, now + TICKET_TTL_SECS))], Done)
  }

  /** `issue_assignment`. */
  function IssueAssignment(d: Docs, id: string, facts: Facts): Run {
    if id in d.issuances then
      if d.issuances[id].0 != facts then Refuse(IdempotencyConflict) else Run([], Granted(d.issuances[id].1))
    else if facts.worker !in d.workers then Refuse(UnknownResource)
    else if !d.workers[facts.worker].active then Refuse(NotAuthenticated)
    else if facts.slot !in d.slots || d.slots[facts.slot].worker != facts.worker then Refuse(UnknownResource)
    else if !d.slots[facts.slot].qualified then Refuse(SlotNotQualified)
    else
      var a := AssignmentOf(id);
      if facts.benchmark in d.byBenchmark && d.byBenchmark[facts.benchmark] != a then Refuse(IdempotencyConflict)
      else
        var grant := Grant(a, d.workers[facts.worker].member, facts.worker, facts.slot, facts.benchmark);
        Run([PutAssignment(a, grant), PutBenchmark(facts.benchmark, a), PutIssuance(id, (facts, grant))],
            Granted(grant))
  }

  datatype Op =
    | CreateTicketOp(purpose: Purpose, secret: string, member: string, forWorker: Option<WorkerId>)
    | EnrollOp(enroll: EnrollRequest)
    | VerifyOp(signedRequest: SignedRequest)
    | RotateOp(caller: Caller, rotate: RotateRequest)
    | RevokeCredentialOp(ofWorker: WorkerId, credential: CredentialId, commandId: string)
    | RevokeWorkerOp(worker: WorkerId, reason: Reason, commandId: string)
    | ReinstateOp(reinstated: WorkerId, commandId: string)
    | RecoverOp(recover: RecoverRequest)
    | ChangeSlotOp(slot: string, slotDoc: Slot)
    | IssueOp(issuance: string, facts: Facts)

  function Execute(d: Docs, op: Op, now: nat): Run {
    match op
    case CreateTicketOp(p, s, m, w) => CreateTicket(d, p, s, m, w, now)
    case EnrollOp(req) => Enroll(d, req, now)
    case VerifyOp(sr) => Verify(d, sr, now)
    case RotateOp(caller, req) => Rotate(d, caller, req, now)
    case RevokeCredentialOp(w, c, id) => RevokeCredential(d, w, c, id)
    case RevokeWorkerOp(w, r, id) => RevokeWorker(d, w, r, id)
    case ReinstateOp(w, id) => ReinstateWorker(d, w, id)
    case RecoverOp(req) => Recover(d, req, now)
    case ChangeSlotOp(s, v) => Run([PutSlot(s, v)], Done)
    case IssueOp(id, facts) => IssueAssignment(d, id, facts)
  }
}
