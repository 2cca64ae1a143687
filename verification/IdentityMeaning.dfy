/**
 * When each operation of the identity service succeeds and which documents it
 * then leaves, told from the documents alone.
 */
module IdentityMeaning {
  import opened Wrappers
  import opened Identity
  import opened IdentitySafety

  ghost predicate SameExcept<K(!new), V>(before: map<K, V>, after: map<K, V>, key: K) {
    forall k :: k != key ==> (k in before <==> k in after) && (k in before ==> after[k] == before[k])
  }

  /** The ticket is for this, unexpired, bound to this worker where one is asked for, and nobody else's. */
  ghost predicate MayClaim(d: Docs, purpose: Purpose, secret: string, bound: Option<WorkerId>, claimant: string,
                           now: nat) {
    && secret in d.tickets
    && d.tickets[secret].purpose == purpose
    && now < d.tickets[secret].expiresAt
    && (bound == None || d.tickets[secret].worker == bound)
    && (secret !in d.claims || d.claims[secret] == claimant)
  }

  /** One credential more in the worker's listing, and no other listing touched. */
  ghost predicate Lists(before: Docs, after: Docs, w: WorkerId, c: CredentialId) {
    && SameExcept(before.markers, after.markers, w)
    && w in after.markers
    && (forall x :: x in after.markers[w] <==> x == c || (w in before.markers && x in before.markers[w]))
  }

  // -------------------------------------------------------------- enrollment

  /** The documents of an enrollment: claim, credential, listing, worker and record. */
  ghost predicate IsEnrolled(before: Docs, after: Docs, req: EnrollRequest, response: EnrollResponse) {
    && after == before.(
         claims := before.claims[req.ticket := req.id],
         credentials := before.credentials[EnrollmentCredential(req.id) :=
           Credential(WorkerOf(req.id), req.publicKey, false, None)],
         markers := after.markers,
         workers := before.workers[WorkerOf(req.id) := Worker(response.member, true, None)],
         enrollments := before.enrollments[req.id := (req, response)])
    && Lists(before, after, WorkerOf(req.id), EnrollmentCredential(req.id))
  }

  lemma EnrollAnswers(d: Docs, req: EnrollRequest, now: nat)
    requires req.id !in d.enrollments
    ensures var answer := Enroll(d, req, now).answer;
      if !req.compatible then answer == Failed(IncompatibleProtocol)
      else if !req.proofValid then answer == Failed(BadProof)
      else if !MayClaim(d, WorkerEnrollment, req.ticket, None, req.id, now) then answer == Failed(TicketRejected)
      else answer == Enrolled(EnrollResponse(d.tickets[req.ticket].member, WorkerOf(req.id),
                                             EnrollmentCredential(req.id), now))
    ensures Enroll(d, req, now).answer.Enrolled? <==> EnrollProceeds(d, req, now)
    ensures !EnrollProceeds(d, req, now) ==> Enroll(d, req, now).writes == []
  {
  }

  lemma EnrolledDocs(d: Docs, issued: Docs, after: Docs, req: EnrollRequest, response: EnrollResponse)
    requires issued == Issued(d.(claims := d.claims[req.ticket := req.id]), EnrollmentCredential(req.id),
                              WorkerOf(req.id), req.publicKey)
    requires after == issued.(workers := d.workers[WorkerOf(req.id) := Worker(response.member, true, None)],
                              enrollments := d.enrollments[req.id := (req, response)])
    ensures IsEnrolled(d, after, req, response)
  {
  }

  lemma EnrollWrote(d: Docs, req: EnrollRequest, now: nat)
    requires EnrollProceeds(d, req, now)
    ensures var run := Enroll(d, req, now);
      && IsEnrolled(d, ApplyAll(d, run.writes), req, run.answer.enrolled)
      && run.writes != [] && run.writes[|run.writes| - 1] == PutEnrollment(req.id, (req, run.answer.enrolled))
  {
    var w, c := WorkerOf(req.id), EnrollmentCredential(req.id);
    var response := EnrollResponseOf(d, req, now);
    var start := ClaimWrites(d, req.ticket, req.id) + IssueWrites(c, w, req.publicKey);
    ClaimAndIssue(d, EnrollOp(req), req.ticket, req.id, c, w, req.publicKey);
    var issued := ApplyAll(d, start);
    var worker := PutWorker(w, Worker(response.member, true, None));
    var record := PutEnrollment(req.id, (req, response));
    ApplyConcat(d, start, [worker, record]);
    ApplyTwo(issued, worker, record);
    WorkerThenRecord(issued, worker, record);
    EnrolledDocs(d, issued, ApplyAll(d, start + [worker, record]), req, response);
  }

  lemma WorkerThenRecord(d: Docs, worker: Write, record: Write)
    requires worker.PutWorker? && record.PutEnrollment?
    ensures Apply(Apply(d, worker), record) == d.(
      workers := d.workers[worker.worker := worker.workerDoc],
      enrollments := d.enrollments[record.enrollment := record.enrollmentDoc])
  {
  }

  // ---------------------------------------------------------------- rotation

  /** The new credential and its listing. */
  ghost predicate IsIssuedTo(before: Docs, after: Docs, c: CredentialId, w: WorkerId, publicKey: string) {
    && after == before.(
         credentials := before.credentials[c := Credential(w, publicKey, false, None)],
         markers := after.markers)
    && Lists(before, after, w, c)
  }

  /** The new credential, the end of the old one's grace, and the record. */
  ghost predicate IsRotated(before: Docs, after: Docs, caller: Caller, req: RotateRequest, response: RotateResponse) {
    var c := RotationCredential(caller.worker, req.id);
    var issued := before.credentials[c := Credential(caller.worker, req.publicKey, false, None)];
    && caller.credential in issued
    && after == before.(
         credentials := issued[caller.credential :=
           issued[caller.credential].(revokesAt := Some(response.oldRevokesAt))],
         markers := after.markers,
         rotations := before.rotations[(caller.worker, req.id) := (req.publicKey, response)])
    && Lists(before, after, caller.worker, c)
  }

  lemma RotateAnswers(d: Docs, caller: Caller, req: RotateRequest, now: nat)
    requires (caller.worker, req.id) !in d.rotations
    ensures var answer := Rotate(d, caller, req, now).answer;
      var c := RotationCredential(caller.worker, req.id);
      if !req.proofValid then answer == Failed(BadProof)
      else if caller.credential != c && caller.credential !in d.credentials then answer == Failed(Storage)
      else answer == Rotated(RotateResponse(c, now + 600, now))
    ensures !req.proofValid ==> Rotate(d, caller, req, now).writes == []
  {
    var c := RotationCredential(caller.worker, req.id);
    IssueWritesAreAllowed(d, RotateOp(caller, req), c, caller.worker, req.publicKey);
  }

  lemma RotatedDocs(d: Docs, issued: Docs, after: Docs, caller: Caller, req: RotateRequest, response: RotateResponse)
    requires issued == Issued(d, RotationCredential(caller.worker, req.id), caller.worker, req.publicKey)
    requires caller.credential in issued.credentials
    requires after == issued.(
      credentials := issued.credentials[caller.credential :=
        issued.credentials[caller.credential].(revokesAt := Some(response.oldRevokesAt))],
      rotations := d.rotations[(caller.worker, req.id) := (req.publicKey, response)])
    ensures IsRotated(d, after, caller, req, response)
  {
  }

  lemma CredentialThenRotation(d: Docs, credential: Write, record: Write)
    requires credential.PutCredential? && record.PutRotation?
    ensures Apply(Apply(d, credential), record) == d.(
      credentials := d.credentials[credential.credential := credential.credentialDoc],
      rotations := d.rotations[record.rotation := record.rotationDoc])
  {
  }

  lemma RotateWrote(d: Docs, caller: Caller, req: RotateRequest, now: nat)
    requires (caller.worker, req.id) !in d.rotations && req.proofValid
    ensures var run := Rotate(d, caller, req, now);
      var c := RotationCredential(caller.worker, req.id);
      var after := ApplyAll(d, run.writes);
      if run.answer.Rotated? then
        && IsRotated(d, after, caller, req, run.answer.rotated)
        && run.writes != []
        && run.writes[|run.writes| - 1] == PutRotation((caller.worker, req.id), (req.publicKey, run.answer.rotated))
      else
        after == Issued(d, c, caller.worker, req.publicKey)
  {
    var c := RotationCredential(caller.worker, req.id);
    var start := IssueWrites(c, caller.worker, req.publicKey);
    IssueWritesAreAllowed(d, RotateOp(caller, req), c, caller.worker, req.publicKey);
    var issued := ApplyAll(d, start);
    if caller.credential in issued.credentials {
      var response := RotateResponse(c, now + ROTATION_GRACE_SECS, now);
      var rotated := PutCredential(caller.credential,
        issued.credentials[caller.credential].(revokesAt := Some(response.oldRevokesAt)));
      var record := PutRotation((caller.worker, req.id), (req.publicKey, response));
      ApplyConcat(d, start, [rotated, record]);
      ApplyTwo(issued, rotated, record);
      CredentialThenRotation(issued, rotated, record);
      RotatedDocs(d, issued, ApplyAll(d, start + [rotated, record]), caller, req, response);
    }
  }

  lemma IssuedDocs(d: Docs, after: Docs, c: CredentialId, w: WorkerId, publicKey: string)
    requires after == Issued(d, c, w, publicKey)
    ensures IsIssuedTo(d, after, c, w, publicKey)
  {
  }

  // ---------------------------------------------------------------- recovery

  /** Every credential the worker's listing names is revoked, but the new one. */
  ghost predicate OnlyNewIsLive(before: Docs, after: Docs, w: WorkerId, c: CredentialId, publicKey: string) {
    && after.credentials.Keys == before.credentials.Keys + {c}
    && after.credentials[c] == Credential(w, publicKey, false, None)
    && (forall x :: x in before.credentials && x != c ==>
          after.credentials[x] == if w in before.markers && x in before.markers[w]
                                  then before.credentials[x].(revoked := true) else before.credentials[x])
  }

  /** The documents of a recovery: claim, credentials, listing, worker and record. */
  ghost predicate IsRecovery(before: Docs, after: Docs, req: RecoverRequest, response: RecoverResponse)
    requires req.worker in before.workers
  {
    var c := RecoveryCredential(req.worker, req.id);
    var worker := before.workers[req.worker];
    && after == before.(
         claims := before.claims[req.ticket := req.id],
         credentials := after.credentials,
         markers := after.markers,
         workers := before.workers[req.worker :=
           if worker.active then worker else Worker(worker.member, true, None)],
         recoveries := before.recoveries[req.id :=
           (RecoverContent(req.worker, req.ticket, req.publicKey), response)])
    && OnlyNewIsLive(before, after, req.worker, c, req.publicKey)
    && Lists(before, after, req.worker, c)
  }

  /** The answer names the new credential and exactly the listed ones it revoked. */
  ghost predicate IsRecoverResponse(before: Docs, req: RecoverRequest, now: nat, response: RecoverResponse) {
    var c := RecoveryCredential(req.worker, req.id);
    && response.credential == c
    && response.serverTime == now
    && (forall x :: x in response.revoked <==>
          x != c && x in before.credentials && req.worker in before.markers && x in before.markers[req.worker])
  }

  lemma {:induction false} RevokedIdsAre(d: Docs, list: seq<CredentialId>, keep: CredentialId, x: CredentialId)
    ensures x in RevokedIds(d, list, keep) <==> x != keep && x in d.credentials && x in list
  {
    if list != [] {
      RevokedIdsAre(d, list[1..], keep, x);
      assert list == [list[0]] + list[1..];
    }
  }

  /** Each listed credential but the kept one is revoked, and nothing else changed. */
  ghost predicate AreRevoked(before: Docs, after: Docs, list: seq<CredentialId>, keep: CredentialId) {
    && after == before.(credentials := after.credentials)
    && after.credentials.Keys == before.credentials.Keys
    && (forall x :: x in before.credentials ==>
          after.credentials[x] == if x in list && x != keep then before.credentials[x].(revoked := true)
                                  else before.credentials[x])
  }

  lemma RevokeLoopIs(d: Docs, start: Docs, writes: seq<Write>, list: seq<CredentialId>, keep: CredentialId)
    requires d == ApplyAll(start, writes)
    ensures AreRevoked(d, ApplyAll(start, writes + RevokeListed(d, list, keep)), list, keep)
    ensures forall x :: x in RevokedIds(d, list, keep) <==> x != keep && x in d.credentials && x in list
  {
    ApplyConcat(start, writes, RevokeListed(d, list, keep));
    RevokeListedIsAllowed(d, ChangeSlotOp("", Slot(WorkerOf(""), false)), list, keep);
    forall x ensures x in RevokedIds(d, list, keep) <==> x != keep && x in d.credentials && x in list {
      RevokedIdsAre(d, list, keep, x);
    }
  }

  lemma RecoverResponseIs(d: Docs, req: RecoverRequest, now: nat)
    requires req.ticket in d.claims ==> d.claims[req.ticket] == req.id
    requires req.id !in d.recoveries
    ensures IsRecoverResponse(d, req, now, RecoverResponseOf(d, req, now))
  {
    var c := RecoveryCredential(req.worker, req.id);
    ClaimAndIssue(d, RecoverOp(req), req.ticket, req.id, c, req.worker, req.publicKey);
    var issued := RecoverIssued(d, req);
    var response := RecoverResponseOf(d, req, now);
    forall x ensures x in response.revoked <==>
      x != c && x in d.credentials && req.worker in d.markers && x in d.markers[req.worker]
    {
      RevokedIdsAre(issued, MarkersOf(issued, req.worker), c, x);
    }
  }

  lemma RecoverAnswers(d: Docs, req: RecoverRequest, now: nat)
    requires req.id !in d.recoveries
    ensures var run := Recover(d, req, now);
      if !req.proofValid then run == Run([], Failed(BadProof))
      else if req.worker !in d.workers then run == Run([], Failed(UnknownResource))
      else if d.workers[req.worker].reason == Some(Security)
              || !MayClaim(d, WorkerRecovery, req.ticket, Some(req.worker), req.id, now)
      then run == Run([], Failed(TicketRejected))
      else run.answer.Recovered? && RecoverProceeds(d, req, now)
  {
  }

  lemma RecoverWrote(d: Docs, req: RecoverRequest, now: nat)
    requires RecoverProceeds(d, req, now)
    ensures var run := Recover(d, req, now);
      && IsRecoverResponse(d, req, now, run.answer.recovered)
      && IsRecovery(d, ApplyAll(d, run.writes), req, run.answer.recovered)
      && run.writes != []
      && run.writes[|run.writes| - 1]
         == PutRecovery(req.id, (RecoverContent(req.worker, req.ticket, req.publicKey), run.answer.recovered))
  {
    var response := RecoverResponseOf(d, req, now);
    RecoverResponseIs(d, req, now);
    RecoverDocs(d, req, now, RecoverWrites(d, req), response);
  }

  lemma RecoverDocs(d: Docs, req: RecoverRequest, now: nat, ws: seq<Write>, response: RecoverResponse)
    requires RecoverProceeds(d, req, now) && ws == RecoverWrites(d, req)
    ensures IsRecovery(d, ApplyAll(d, ws + [PutRecovery(req.id, (ContentOf(req), response))]), req, response)
  {
    RecoverWritesAreAllowed(d, req, now);
    var prepared := ApplyAll(d, ws);
    RecordLast(d, ws, req.id, (ContentOf(req), response));
    PreparedIsRecovery(d, prepared, ApplyAll(d, ws + [PutRecovery(req.id, (ContentOf(req), response))]), req, response);
  }

  lemma PreparedIsRecovery(d: Docs, prepared: Docs, after: Docs, req: RecoverRequest, response: RecoverResponse)
    requires req.worker in d.workers && IsRecovered(d, req, RecoverIssued(d, req), prepared)
    requires after == prepared.(recoveries := prepared.recoveries[req.id := (ContentOf(req), response)])
    ensures IsRecovery(d, after, req, response)
  {
    var c := RecoveryCredential(req.worker, req.id);
    var issued := RecoverIssued(d, req);
    RecoveredFrame(d, issued, prepared, req);
    RecoveredListing(d, issued, req.worker, c, req.publicKey, d.claims[req.ticket := req.id]);
    RecoveredCredentials(d, issued, prepared, req.worker, c, req.publicKey);
  }

  lemma RecoveredFrame(d: Docs, issued: Docs, prepared: Docs, req: RecoverRequest)
    requires req.worker in d.workers && IsRecovered(d, req, issued, prepared) && issued == RecoverIssued(d, req)
    ensures prepared == d.(
      claims := d.claims[req.ticket := req.id], credentials := prepared.credentials, markers := issued.markers,
      workers := d.workers[req.worker := Restored(d.workers[req.worker])])
  {
    assert prepared.(workers := d.workers) == issued.(credentials := prepared.credentials);
  }

  lemma RecoveredListing(d: Docs, issued: Docs, w: WorkerId, c: CredentialId, publicKey: string,
                         claims: map<string, string>)
    requires issued == Issued(d.(claims := claims), c, w, publicKey)
    ensures Lists(d, issued, w, c)
    ensures issued.credentials == d.credentials[c := Credential(w, publicKey, false, None)]
    ensures forall x :: x in MarkersOf(issued, w) <==> x == c || (w in d.markers && x in d.markers[w])
  {
  }

  lemma RecoveredCredentials(d: Docs, issued: Docs, prepared: Docs, w: WorkerId, c: CredentialId, publicKey: string)
    requires issued.credentials == d.credentials[c := Credential(w, publicKey, false, None)]
    requires forall x :: x in MarkersOf(issued, w) <==> x == c || (w in d.markers && x in d.markers[w])
    requires prepared.credentials.Keys == issued.credentials.Keys
    requires forall x :: x in issued.credentials ==>
      prepared.credentials[x] == if x in MarkersOf(issued, w) && x != c then issued.credentials[x].(revoked := true)
                                 else issued.credentials[x]
    ensures OnlyNewIsLive(d, prepared, w, c, publicKey)
  {
  }

  // ------------------------------------------------------------- assignments

  /** The worker may take the assignment: it is active, the slot its own and qualified, the benchmark free. */
  ghost predicate MayGrant(d: Docs, id: string, facts: Facts) {
    && facts.worker in d.workers && d.workers[facts.worker].active
    && facts.slot in d.slots && d.slots[facts.slot].worker == facts.worker && d.slots[facts.slot].qualified
    && (facts.benchmark !in d.byBenchmark || d.byBenchmark[facts.benchmark] == AssignmentOf(id))
  }

  /** The documents of a grant: the assignment, the benchmark's mapping and the issuance. */
  ghost predicate IsGranted(before: Docs, after: Docs, id: string, facts: Facts, grant: Grant) {
    && facts.worker in before.workers
    && grant.assignment == AssignmentOf(id)
    && grant.member == before.workers[facts.worker].member
    && grant.worker == facts.worker
    && grant.slot == facts.slot
    && grant.benchmark == facts.benchmark
    && after == before.(
         assignments := before.assignments[AssignmentOf(id) := grant],
         byBenchmark := before.byBenchmark[facts.benchmark := AssignmentOf(id)],
         issuances := before.issuances[id := (facts, grant)])
  }

  ghost predicate IsGrantRefusal(d: Docs, id: string, facts: Facts, code: Code) {
    if facts.worker !in d.workers then code == UnknownResource
    else if !d.workers[facts.worker].active then code == NotAuthenticated
    else if facts.slot !in d.slots || d.slots[facts.slot].worker != facts.worker then code == UnknownResource
    else if !d.slots[facts.slot].qualified then code == SlotNotQualified
    else code == IdempotencyConflict
  }

  lemma IssueAnswers(d: Docs, id: string, facts: Facts)
    requires id !in d.issuances
    ensures var run := IssueAssignment(d, id, facts);
      if MayGrant(d, id, facts) then run.answer.Granted?
      else run.writes == [] && run.answer.Failed? && IsGrantRefusal(d, id, facts, run.answer.code)
  {
  }

  lemma GrantDocs(d: Docs, a: Write, b: Write, c: Write)
    requires a.PutAssignment? && b.PutBenchmark? && c.PutIssuance?
    ensures ApplyAll(d, [a, b, c]) == d.(
      assignments := d.assignments[a.assignment := a.assignmentDoc],
      byBenchmark := d.byBenchmark[b.benchmark := b.mapped],
      issuances := d.issuances[c.issuance := c.issuanceDoc])
  {
    assert [a, b, c] == [a, b] + [c];
    ApplyAppend(d, [a, b], c);
    ApplyTwo(d, a, b);
  }

  lemma IssueWrote(d: Docs, id: string, facts: Facts)
    requires id !in d.issuances && IssueAssignment(d, id, facts).answer.Granted?
    ensures var run := IssueAssignment(d, id, facts);
      && IsGranted(d, ApplyAll(d, run.writes), id, facts, run.answer.grant)
      && run.writes != [] && run.writes[|run.writes| - 1] == PutIssuance(id, (facts, run.answer.grant))
  {
    var run := IssueAssignment(d, id, facts);
    GrantDocs(d, run.writes[0], run.writes[1], run.writes[2]);
    assert run.writes == [run.writes[0], run.writes[1], run.writes[2]];
  }

  // ----------------------------------------------------------------- tickets

  /** A ticket lives fifteen minutes; a recovery ticket is for a worker of the member that is not SECURITY-revoked. */
  lemma CreateTicketIs(d: Docs, purpose: Purpose, secret: string, member: string, worker: Option<WorkerId>, now: nat)
    ensures var run := CreateTicket(d, purpose, secret, member, worker, now);
      if purpose == WorkerEnrollment
         || (worker.Some? && worker.value in d.workers && d.workers[worker.value].member == member
             && d.workers[worker.value].reason != Some(Security))
      then run.answer == Done && ApplyAll(d, run.writes)
             == d.(tickets := d.tickets[secret := Ticket(purpose, member, worker, now + 900)])
      else run.writes == [] && run.answer.Failed?
  {
    var run := CreateTicket(d, purpose, secret, member, worker, now);
    if run.writes != [] { OneWrite(d, CreateTicketOp(purpose, secret, member, worker), run.writes[0]); }
  }
}
