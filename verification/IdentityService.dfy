/**
 * The service object: each method reads and rewrites the stored documents one
 * at a time, and its journal of writes is the list the operation is specified
 * by, so a crash inside a method leaves exactly a prefix of that list.
 */
module IdentityService {
  import opened Wrappers
  import opened Identity
  import opened IdentityMeaning
  import IdentitySafety

  lemma IssueKeepsWorkers(d: Docs, ticket: string, claimant: string, c: CredentialId, w: WorkerId, publicKey: string)
    ensures ApplyAll(d, ClaimWrites(d, ticket, claimant) + IssueWrites(c, w, publicKey)).workers == d.workers
  {
    var claim := ClaimWrites(d, ticket, claimant);
    ApplyConcat(d, claim, IssueWrites(c, w, publicKey));
    if claim != [] {
      ApplyAppend(d, [], PutClaim(ticket, claimant));
      assert [] + [PutClaim(ticket, claimant)] == claim;
    }
    ApplyTwo(ApplyAll(d, claim), PutCredential(c, NewCredential(w, publicKey)), PutMarker(w, c));
  }

  lemma RevokeStep(whole: seq<Write>, done: seq<Write>, d: Docs, rest: seq<CredentialId>, keep: CredentialId)
    requires rest != [] && whole == done + RevokeListed(d, rest, keep)
    ensures var first := RevokeIfLive(d, rest[0], keep);
            whole == done + first + RevokeListed(ApplyAll(d, first), rest[1..], keep)
  {
  }

  lemma {:induction false} SameIds(d: Docs, d': Docs, list: seq<CredentialId>, keep: CredentialId)
    requires d.credentials.Keys == d'.credentials.Keys
    ensures RevokedIds(d, list, keep) == RevokedIds(d', list, keep)
  {
    if list != [] { SameIds(d, d', list[1..], keep); }
  }

  lemma IdsStep(whole: seq<CredentialId>, done: seq<CredentialId>, d: Docs, d': Docs, rest: seq<CredentialId>,
                keep: CredentialId)
    requires rest != [] && whole == done + RevokedIds(d, rest, keep) && d.credentials.Keys == d'.credentials.Keys
    ensures whole == (if rest[0] != keep && rest[0] in d'.credentials then done + [rest[0]]
      else done) + RevokedIds(d', rest[1..], keep)
  {
    SameIds(d, d', rest[1..], keep);
  }

  /** The credential may act for the worker now: its own, signed with its key, live, and the worker active. */
  ghost predicate MayAct(d: Docs, sr: SignedRequest, now: nat) {
    && sr.credential in d.credentials
    && d.credentials[sr.credential].worker == sr.worker
    && d.credentials[sr.credential].publicKey == sr.signer
    && !d.credentials[sr.credential].revoked
    && (d.credentials[sr.credential].revokesAt.Some? ==> now < d.credentials[sr.credential].revokesAt.value)
    && sr.worker in d.workers
    && d.workers[sr.worker].active
  }

  /** Within five minutes of now, in either direction. */
  ghost predicate IsFresh(sr: SignedRequest, now: nat) {
    now <= sr.timestamp + 300 && sr.timestamp <= now + 300
  }

  class Service {
    var docs: Docs
    /** Every document write so far, oldest first. */
    ghost var journal: seq<Write>

    /** What a method has done since `start`, when its journal stood at `mark`. */
    ghost predicate Wrote(start: Docs, mark: seq<Write>, writes: seq<Write>)
      reads this
    {
      journal == mark + writes && docs == ApplyAll(start, writes)
    }

    constructor ()
      ensures docs == EMPTY && journal == []
    {
      docs := EMPTY;
      journal := [];
    }

    method WriteDoc(w: Write, ghost start: Docs, ghost mark: seq<Write>, ghost writes: seq<Write>)
      requires Wrote(start, mark, writes)
      modifies this
      ensures docs == Apply(old(docs), w) && Wrote(start, mark, writes + [w])
    {
      docs := Apply(docs, w);
      journal := journal + [w];
      ApplyAppend(start, writes, w);
      assert mark + (writes + [w]) == mark + writes + [w];
    }

    /** `claim_ticket`. */
    method ClaimTicket(purpose: Purpose, secret: string, bound: Option<WorkerId>, claimant: string, now: nat)
      returns (ticket: Option<Ticket>)
      modifies this
      ensures ticket.Some? <==> MayClaim(old(docs), purpose, secret, bound, claimant, now)
      ensures ticket.Some? <==> TicketAccepts(old(docs), purpose, secret, bound, claimant, now)
      ensures ticket.Some? ==>
        && ticket.value == old(docs).tickets[secret]
        && docs == old(docs).(claims := old(docs).claims[secret := claimant])
        && Wrote(old(docs), old(journal), ClaimWrites(old(docs), secret, claimant))
      ensures ticket.None? ==> docs == old(docs) && journal == old(journal)
    {
      if secret !in docs.tickets || docs.tickets[secret].purpose != purpose || now >= docs.tickets[secret].expiresAt
         || (bound.Some? && docs.tickets[secret].worker != bound) {
        return None;
      }
      ticket := Some(docs.tickets[secret]);
      if secret in docs.claims {
        if docs.claims[secret] != claimant { return None; }
        assert docs.claims == docs.claims[secret := claimant];
        assert Wrote(old(docs), old(journal), []);
      } else {
        WriteDoc(PutClaim(secret, claimant), docs, journal, []);
        assert [] + [PutClaim(secret, claimant)] == ClaimWrites(old(docs), secret, claimant);
      }
    }

    /** `write_credential`. */
    method WriteCredential(c: CredentialId, w: WorkerId, publicKey: string, ghost start: Docs, ghost mark: seq<Write>,
                           ghost writes: seq<Write>)
      requires Wrote(start, mark, writes)
      modifies this
      ensures Wrote(start, mark, writes + IssueWrites(c, w, publicKey))
    {
      var credential, marker := PutCredential(c, NewCredential(w, publicKey)), PutMarker(w, c);
      WriteDoc(credential, start, mark, writes);
      WriteDoc(marker, start, mark, writes + [credential]);
      assert writes + [credential] + [marker] == writes + IssueWrites(c, w, publicKey);
    }

    /**
     * `enroll`: a recorded id answers from its record; a new one is enrolled
     * exactly when protocol, proof and ticket allow it, and its record is written last.
     */
    method EnrollWorker(req: EnrollRequest, now: nat) returns (answer: Answer)
      modifies this
      ensures answer == Enroll(old(docs), req, now).answer
      ensures Wrote(old(docs), old(journal), Enroll(old(docs), req, now).writes)
      ensures req.id in old(docs).enrollments ==>
        answer == if old(docs).enrollments[req.id].0 == req then Enrolled(old(docs).enrollments[req.id].1)
                  else Failed(IdempotencyConflict)
      ensures req.id in old(docs).enrollments ==> docs == old(docs)
      ensures req.id !in old(docs).enrollments ==>
        if !req.compatible then
          answer == Failed(IncompatibleProtocol) && docs == old(docs)
        else if !req.proofValid then
          answer == Failed(BadProof) && docs == old(docs)
        else if !MayClaim(old(docs), WorkerEnrollment, req.ticket, None, req.id, now) then
          answer == Failed(TicketRejected) && docs == old(docs)
        else
          && answer == Enrolled(EnrollResponse(old(docs).tickets[req.ticket].member, WorkerOf(req.id),
                                               EnrollmentCredential(req.id), now))
          && IsEnrolled(old(docs), docs, req, answer.enrolled)
          && journal != [] && journal[|journal| - 1] == PutEnrollment(req.id, (req, answer.enrolled))
    {
      if req.id !in docs.enrollments {
        EnrollAnswers(docs, req, now);
        if EnrollProceeds(docs, req, now) { EnrollWrote(docs, req, now); }
      }
      answer := EnrollByWrites(req, now);
    }

    // The same, as its list of writes.
    method EnrollByWrites(req: EnrollRequest, now: nat) returns (answer: Answer)
      modifies this
      ensures answer == Enroll(old(docs), req, now).answer
      ensures Wrote(old(docs), old(journal), Enroll(old(docs), req, now).writes)
    {
      ghost var start, mark := docs, journal;
      assert Wrote(start, mark, []);
      if req.id in docs.enrollments {
        if docs.enrollments[req.id].0 != req { return Failed(IdempotencyConflict); }
        return Enrolled(docs.enrollments[req.id].1);
      }
      if !req.compatible { return Failed(IncompatibleProtocol); }
      if !req.proofValid { return Failed(BadProof); }
      var ticket := ClaimTicket(WorkerEnrollment, req.ticket, None, req.id, now);
      if ticket.None? { return Failed(TicketRejected); }
      var w, c := WorkerOf(req.id), EnrollmentCredential(req.id);
      ghost var done := ClaimWrites(start, req.ticket, req.id);
      WriteCredential(c, w, req.publicKey, start, mark, done);
      done := done + IssueWrites(c, w, req.publicKey);
      var worker := PutWorker(w, Worker(ticket.value.member, true, None));
      WriteDoc(worker, start, mark, done);
      var response := EnrollResponse(ticket.value.member, w, c, now);
      var record := PutEnrollment(req.id, (req, response));
      WriteDoc(record, start, mark, done + [worker]);
      assert done + [worker] + [record] == done + [worker, record];
      answer := Enrolled(response);
    }

    /** `verify_request`. */
    method VerifyRequest(sr: SignedRequest, now: nat) returns (answer: Answer)
      modifies this
      ensures answer == Verify(old(docs), sr, now).answer
      ensures Wrote(old(docs), old(journal), Verify(old(docs), sr, now).writes)
      ensures answer.Verified? <==>
        && MayAct(old(docs), sr, now)
        && IsFresh(sr, now)
        && ((sr.credential, sr.id) in old(docs).replay ==> old(docs).replay[(sr.credential, sr.id)] == sr.signed)
      ensures answer.Verified? ==>
        && (sr.credential, sr.id) in docs.replay && docs.replay[(sr.credential, sr.id)] == sr.signed
        && docs == old(docs).(replay := docs.replay)
        && SameExcept(old(docs).replay, docs.replay, (sr.credential, sr.id))
      ensures answer.Verified? ==> answer.member == old(docs).workers[sr.worker].member
      ensures !answer.Verified? ==> docs == old(docs)
      ensures answer == Failed(NotAuthenticated) <==> !MayAct(old(docs), sr, now)
      ensures answer == Failed(StaleTimestamp) <==> MayAct(old(docs), sr, now) && !IsFresh(sr, now)
    {
      assert Wrote(docs, journal, []);
      if sr.credential !in docs.credentials || docs.credentials[sr.credential].worker != sr.worker
        || sr.worker !in docs.workers {
        return Failed(NotAuthenticated);
      }
      var credential, worker := docs.credentials[sr.credential], docs.workers[sr.worker];
      if credential.publicKey != sr.signer { return Failed(NotAuthenticated); }
      if credential.revoked || (credential.revokesAt.Some?
          && now >= credential.revokesAt.value) { return Failed(NotAuthenticated); }
      if !worker.active { return Failed(NotAuthenticated); }
      if now > sr.timestamp + REQUEST_FRESHNESS_SECS
        || sr.timestamp > now + REQUEST_FRESHNESS_SECS { return Failed(StaleTimestamp); }
      var key := (sr.credential, sr.id);
      if key in docs.replay {
        if docs.replay[key] != sr.signed { return Failed(ReplayRejected); }
      } else {
        WriteDoc(PutReplay(key, sr.signed), docs, journal, []);
        assert [] + [PutReplay(key, sr.signed)] == [PutReplay(key, sr.signed)];
      }
      answer := Verified(worker.member);
    }

    /**
     * `rotate`: a recorded id answers from its record; a new one issues the
     * credential, ends the rotating one ten minutes from now, and is recorded last.
     */
    method RotateCredential(caller: Caller, req: RotateRequest, now: nat) returns (answer: Answer)
      modifies this
      ensures answer == Rotate(old(docs), caller, req, now).answer
      ensures Wrote(old(docs), old(journal), Rotate(old(docs), caller, req, now).writes)
      ensures (caller.worker, req.id) in old(docs).rotations ==>
        && docs == old(docs)
        && var (publicKey, response) := old(docs).rotations[(caller.worker, req.id)];
           answer == if publicKey == req.publicKey then Rotated(response) else Failed(IdempotencyConflict)
      ensures (caller.worker, req.id) !in old(docs).rotations ==>
        var c := RotationCredential(caller.worker, req.id);
        if !req.proofValid then
          answer == Failed(BadProof) && docs == old(docs)
        else if caller.credential != c && caller.credential !in old(docs).credentials then
          answer == Failed(Storage) && IsIssuedTo(old(docs), docs, c, caller.worker, req.publicKey)
        else
          && answer == Rotated(RotateResponse(c, now + 600, now))
          && IsRotated(old(docs), docs, caller, req, answer.rotated)
          && journal != []
          && journal[|journal| - 1] == PutRotation((caller.worker, req.id), (req.publicKey, answer.rotated))
    {
      var c := RotationCredential(caller.worker, req.id);
      if (caller.worker, req.id) !in docs.rotations {
        RotateAnswers(docs, caller, req, now);
        if req.proofValid {
          RotateWrote(docs, caller, req, now);
          IssuedDocs(docs, IdentitySafety.Issued(docs, c, caller.worker, req.publicKey), c, caller.worker,
                     req.publicKey);
        }
      }
      answer := RotateByWrites(caller, req, now);
    }

    // The same, as its list of writes.
    method RotateByWrites(caller: Caller, req: RotateRequest, now: nat) returns (answer: Answer)
      modifies this
      ensures answer == Rotate(old(docs), caller, req, now).answer
      ensures Wrote(old(docs), old(journal), Rotate(old(docs), caller, req, now).writes)
    {
      ghost var start, mark := docs, journal;
      assert Wrote(start, mark, []);
      var key := (caller.worker, req.id);
      if key in docs.rotations {
        if docs.rotations[key].0 != req.publicKey { return Failed(IdempotencyConflict); }
        return Rotated(docs.rotations[key].1);
      }
      if !req.proofValid { return Failed(BadProof); }
      var c := RotationCredential(caller.worker, req.id);
      WriteCredential(c, caller.worker, req.publicKey, start, mark, []);
      ghost var done := IssueWrites(c, caller.worker, req.publicKey);
      assert [] + done == done;
      if caller.credential !in docs.credentials { return Failed(Storage); }
      var revokesAt := now + ROTATION_GRACE_SECS;
      var rotated := PutCredential(caller.credential,
          docs.credentials[caller.credential].(revokesAt := Some(revokesAt)));
      WriteDoc(rotated, start, mark, done);
      var response := RotateResponse(c, revokesAt, now);
      var record := PutRotation(key, (req.publicKey, response));
      WriteDoc(record, start, mark, done + [rotated]);
      assert done + [rotated] + [record] == done + [rotated, record];
      answer := Rotated(response);
    }

    method RevokeIfListed(c: CredentialId, keep: CredentialId, ghost start: Docs, ghost mark: seq<Write>,
                          ghost writes: seq<Write>)
      requires Wrote(start, mark, writes)
      modifies this
      ensures Wrote(start, mark, writes + RevokeIfLive(old(docs), c, keep))
      ensures docs == ApplyAll(old(docs), RevokeIfLive(old(docs), c, keep))
      ensures docs.credentials.Keys == old(docs).credentials.Keys && docs.workers == old(docs).workers
    {
      if c != keep && c in docs.credentials && !docs.credentials[c].revoked {
        var w := PutCredential(c, docs.credentials[c].(revoked := true));
        ApplyAppend(docs, [], w);
        assert [] + [w] == [w];
        WriteDoc(w, start, mark, writes);
      } else {
        assert writes + [] == writes;
      }
    }

    /**
     * The loop of `recover_worker` over the worker's listed credentials: each
     * listed one but the new one ends revoked, and those that exist are reported.
     */
    method RevokeEachListed(list: seq<CredentialId>, keep: CredentialId, ghost start: Docs, ghost mark: seq<Write>,
                            ghost writes: seq<Write>)
      returns (revoked: seq<CredentialId>)
      requires Wrote(start, mark, writes)
      modifies this
      ensures Wrote(start, mark, writes + RevokeListed(old(docs), list, keep))
      ensures revoked == RevokedIds(old(docs), list, keep)
      ensures docs.workers == old(docs).workers
      ensures AreRevoked(old(docs), docs, list, keep)
      ensures forall x :: x in revoked <==> x != keep && x in old(docs).credentials && x in list
    {
      ghost var before := docs;
      revoked := RevokeLoop(list, keep, start, mark, writes);
      RevokeLoopIs(before, start, writes, list, keep);
    }

    method RevokeLoop(list: seq<CredentialId>, keep: CredentialId, ghost start: Docs, ghost mark: seq<Write>,
                      ghost writes: seq<Write>)
      returns (revoked: seq<CredentialId>)
      requires Wrote(start, mark, writes)
      modifies this
      ensures Wrote(start, mark, writes + RevokeListed(old(docs), list, keep))
      ensures revoked == RevokedIds(old(docs), list, keep)
      ensures docs.workers == old(docs).workers
    {
      revoked := [];
      ghost var done: seq<Write> := [];
      assert writes + done == writes;
      var rest := list;
      while rest != []
        invariant Wrote(start, mark, writes + done)
        invariant RevokeListed(old(docs), list, keep) == done + RevokeListed(docs, rest, keep)
        invariant RevokedIds(old(docs), list, keep) == revoked + RevokedIds(docs, rest, keep)
        invariant docs.workers == old(docs).workers
        decreases |rest|
      {
        var c := rest[0];
        ghost var before, first := docs, RevokeIfLive(docs, c, keep);
        RevokeStep(RevokeListed(old(docs), list, keep), done, docs, rest, keep);
        RevokeIfListed(c, keep, start, mark, writes + done);
        assert writes + done + first == writes + (done + first);
        IdsStep(RevokedIds(old(docs), list, keep), revoked, before, docs, rest, keep);
        done := done + first;
        if c != keep && c in docs.credentials { revoked := revoked + [c]; }
        rest := rest[1..];
      }
      assert done + [] == done;
    }

    /**
     * `recover_worker`: a recorded id answers from its record; a new one recovers
     * exactly when proof, worker and ticket allow it. It leaves the new credential
     * the only live listed one and the worker active, and its record is written last.
     */
    method RecoverWorker(req: RecoverRequest, now: nat) returns (answer: Answer)
      modifies this
      ensures answer == Recover(old(docs), req, now).answer
      ensures Wrote(old(docs), old(journal), Recover(old(docs), req, now).writes)
      ensures req.id in old(docs).recoveries ==>
        && docs == old(docs)
        && var (content, response) := old(docs).recoveries[req.id];
           answer == if content == RecoverContent(req.worker, req.ticket, req.publicKey) then Recovered(response)
                     else Failed(IdempotencyConflict)
      ensures req.id !in old(docs).recoveries ==>
        if !req.proofValid then
          answer == Failed(BadProof) && docs == old(docs)
        else if req.worker !in old(docs).workers then
          answer == Failed(UnknownResource) && docs == old(docs)
        else if old(docs).workers[req.worker].reason == Some(Security)
                || !MayClaim(old(docs), WorkerRecovery, req.ticket, Some(req.worker), req.id, now) then
          answer == Failed(TicketRejected) && docs == old(docs)
        else
          && answer.Recovered?
          && IsRecoverResponse(old(docs), req, now, answer.recovered)
          && IsRecovery(old(docs), docs, req, answer.recovered)
          && journal != []
          && journal[|journal| - 1]
             == PutRecovery(req.id, (RecoverContent(req.worker, req.ticket, req.publicKey), answer.recovered))
    {
      if req.id !in docs.recoveries {
        RecoverAnswers(docs, req, now);
        if RecoverProceeds(docs, req, now) { RecoverWrote(docs, req, now); }
      }
      answer := RecoverByWrites(req, now);
    }

    // The same, as its list of writes.
    method RecoverByWrites(req: RecoverRequest, now: nat) returns (answer: Answer)
      modifies this
      ensures answer == Recover(old(docs), req, now).answer
      ensures Wrote(old(docs), old(journal), Recover(old(docs), req, now).writes)
    {
      ghost var start, mark := docs, journal;
      assert Wrote(start, mark, []);
      if req.id in docs.recoveries {
        if docs.recoveries[req.id].0 != ContentOf(req) { return Failed(IdempotencyConflict); }
        return Recovered(docs.recoveries[req.id].1);
      }
      if !req.proofValid { return Failed(BadProof); }
      if req.worker !in docs.workers { return Failed(UnknownResource); }
      if docs.workers[req.worker].reason == Some(Security) { return Failed(TicketRejected); }
      var ticket := ClaimTicket(WorkerRecovery, req.ticket, Some(req.worker), req.id, now);
      if ticket.None? { return Failed(TicketRejected); }
      answer := FinishRecovery(req, now, start, mark);
    }

    // What follows the claim: the recovery's writes, and last its record.
    method FinishRecovery(req: RecoverRequest, now: nat, ghost start: Docs, ghost mark: seq<Write>)
      returns (answer: Answer)
      requires RecoverProceeds(start, req, now)
      requires Wrote(start, mark, ClaimWrites(start, req.ticket, req.id))
      modifies this
      ensures answer == Recovered(RecoverResponseOf(start, req, now))
      ensures Wrote(start, mark, Recover(start, req, now).writes)
      ensures req.id in docs.recoveries && docs.recoveries[req.id] == (ContentOf(req), answer.recovered)
    {
      var revoked := PrepareRecovery(req, now, start, mark);
      var response := RecoverResponse(RecoveryCredential(req.worker, req.id), revoked, now);
      WriteDoc(PutRecovery(req.id, (ContentOf(req), response)), start, mark, RecoverWrites(start, req));
      answer := Recovered(response);
    }

    // The new credential, the revocations and the worker.
    method PrepareRecovery(req: RecoverRequest, now: nat, ghost start: Docs, ghost mark: seq<Write>)
      returns (revoked: seq<CredentialId>)
      requires RecoverProceeds(start, req, now)
      requires Wrote(start, mark, ClaimWrites(start, req.ticket, req.id))
      modifies this
      ensures revoked == RecoverResponseOf(start, req, now).revoked
      ensures Wrote(start, mark, RecoverWrites(start, req))
    {
      var c := RecoveryCredential(req.worker, req.id);
      ghost var issue := ClaimWrites(start, req.ticket, req.id) + IssueWrites(c, req.worker, req.publicKey);
      WriteCredential(c, req.worker, req.publicKey, start, mark, ClaimWrites(start, req.ticket, req.id));
      IssueKeepsWorkers(start, req.ticket, req.id, c, req.worker, req.publicKey);
      ghost var issued := docs;
      var list := MarkersOf(docs, req.worker);
      revoked := RevokeEachListed(list, c, start, mark, issue);
      RestoreWorker(req.worker, start, mark, issue + RevokeListed(issued, list, c));
    }

    // An inactive worker becomes active again.
    method RestoreWorker(w: WorkerId, ghost start: Docs, ghost mark: seq<Write>, ghost done: seq<Write>)
      requires Wrote(start, mark, done) && w in start.workers && docs.workers == start.workers
      modifies this
      ensures Wrote(start, mark, done + RestoreWrites(start, w))
    {
      if !docs.workers[w].active {
        WriteDoc(PutWorker(w, docs.workers[w].(active := true, reason := None)), start, mark, done);
      } else {
        assert done + [] == done;
      }
    }

    // The command guard of the three operator commands, with the change each makes.
    method RunCommand(id: string, command: Command, change: Write)
      modifies this
      requires id !in docs.commands
      ensures Wrote(old(docs), old(journal), [change, PutCommand(id, command)])
      ensures docs == Apply(Apply(old(docs), change), PutCommand(id, command))
    {
      ghost var start, mark := docs, journal;
      assert Wrote(start, mark, []);
      WriteDoc(change, start, mark, []);
      WriteDoc(PutCommand(id, command), start, mark, [] + [change]);
      assert [] + [change] + [PutCommand(id, command)] == [change, PutCommand(id, command)];
    }

    /** `revoke_credential`. */
    method RevokeOneCredential(w: WorkerId, c: CredentialId, id: string) returns (answer: Answer)
      modifies this
      ensures answer == RevokeCredential(old(docs), w, c, id).answer
      ensures Wrote(old(docs), old(journal), RevokeCredential(old(docs), w, c, id).writes)
      ensures id in old(docs).commands ==>
        && docs == old(docs)
        && answer == if old(docs).commands[id] == RevokeCredentialCommand(w, c) then Done
                     else Failed(IdempotencyConflict)
      ensures id !in old(docs).commands ==>
        if c in old(docs).credentials && old(docs).credentials[c].worker == w then
          && answer == Done
          && docs == old(docs).(
               credentials := old(docs).credentials[c := old(docs).credentials[c].(revoked := true)],
               commands := old(docs).commands[id := RevokeCredentialCommand(w, c)])
        else
          answer == Failed(UnknownResource) && docs == old(docs)
    {
      assert Wrote(docs, journal, []);
      var command := RevokeCredentialCommand(w, c);
      var seen := CheckCommand(docs, id, command);
      if seen.Some? { return seen.value.answer; }
      if c !in docs.credentials || docs.credentials[c].worker != w { return Failed(UnknownResource); }
      RunCommand(id, command, PutCredential(c, docs.credentials[c].(revoked := true)));
      answer := Done;
    }

    /** `revoke_worker`. */
    method RevokeOneWorker(w: WorkerId, reason: Reason, id: string) returns (answer: Answer)
      modifies this
      ensures answer == RevokeWorker(old(docs), w, reason, id).answer
      ensures Wrote(old(docs), old(journal), RevokeWorker(old(docs), w, reason, id).writes)
      ensures id in old(docs).commands ==>
        && docs == old(docs)
        && answer == if old(docs).commands[id] == RevokeWorkerCommand(w, reason) then Done
                     else Failed(IdempotencyConflict)
      ensures id !in old(docs).commands ==>
        if w !in old(docs).workers then
          answer == Failed(UnknownResource) && docs == old(docs)
        else if old(docs).workers[w].reason == Some(Security) && reason == Accidental then
          answer == Failed(CommandRefused) && docs == old(docs)
        else
          && answer == Done
          && docs == old(docs).(
               workers := old(docs).workers[w := Worker(old(docs).workers[w].member, false, Some(reason))],
               commands := old(docs).commands[id := RevokeWorkerCommand(w, reason)])
    {
      assert Wrote(docs, journal, []);
      var command := RevokeWorkerCommand(w, reason);
      var seen := CheckCommand(docs, id, command);
      if seen.Some? { return seen.value.answer; }
      if w !in docs.workers { return Failed(UnknownResource); }
      if docs.workers[w].reason == Some(Security) && reason == Accidental { return Failed(CommandRefused); }
      RunCommand(id, command, PutWorker(w, docs.workers[w].(active := false, reason := Some(reason))));
      answer := Done;
    }

    /** `reinstate_worker`. */
    method ReinstateOneWorker(w: WorkerId, id: string) returns (answer: Answer)
      modifies this
      ensures answer == ReinstateWorker(old(docs), w, id).answer
      ensures Wrote(old(docs), old(journal), ReinstateWorker(old(docs), w, id).writes)
      ensures id in old(docs).commands ==>
        && docs == old(docs)
        && answer == if old(docs).commands[id] == ReinstateCommand(w) then Done else Failed(IdempotencyConflict)
      ensures id !in old(docs).commands ==>
        if w in old(docs).workers then
          && answer == Done
          && docs == old(docs).(
               workers := old(docs).workers[w := Worker(old(docs).workers[w].member, true, None)],
               commands := old(docs).commands[id := ReinstateCommand(w)])
        else
          answer == Failed(UnknownResource) && docs == old(docs)
    {
      assert Wrote(docs, journal, []);
      var command := ReinstateCommand(w);
      var seen := CheckCommand(docs, id, command);
      if seen.Some? { return seen.value.answer; }
      if w !in docs.workers { return Failed(UnknownResource); }
      RunCommand(id, command, PutWorker(w, docs.workers[w].(active := true, reason := None)));
      answer := Done;
    }

    /**
     * `issue_assignment`: a recorded id answers from its record; a new one is
     * granted exactly when worker, slot and benchmark allow it, and recorded last.
     */
    method IssueOneAssignment(id: string, facts: Facts) returns (answer: Answer)
      modifies this
      ensures answer == IssueAssignment(old(docs), id, facts).answer
      ensures Wrote(old(docs), old(journal), IssueAssignment(old(docs), id, facts).writes)
      ensures id in old(docs).issuances ==>
        && docs == old(docs)
        && var (known, grant) := old(docs).issuances[id];
           answer == if known == facts then Granted(grant) else Failed(IdempotencyConflict)
      ensures id !in old(docs).issuances ==>
        if MayGrant(old(docs), id, facts) then
          && answer.Granted?
          && IsGranted(old(docs), docs, id, facts, answer.grant)
          && journal != [] && journal[|journal| - 1] == PutIssuance(id, (facts, answer.grant))
        else
          answer.Failed? && IsGrantRefusal(old(docs), id, facts, answer.code) && docs == old(docs)
    {
      if id !in docs.issuances {
        IssueAnswers(docs, id, facts);
        if MayGrant(docs, id, facts) { IssueWrote(docs, id, facts); }
      }
      answer := IssueByWrites(id, facts);
    }

    // The same, as its list of writes.
    method IssueByWrites(id: string, facts: Facts) returns (answer: Answer)
      modifies this
      ensures answer == IssueAssignment(old(docs), id, facts).answer
      ensures Wrote(old(docs), old(journal), IssueAssignment(old(docs), id, facts).writes)
    {
      ghost var start, mark := docs, journal;
      assert Wrote(start, mark, []);
      if id in docs.issuances {
        if docs.issuances[id].0 != facts { return Failed(IdempotencyConflict); }
        return Granted(docs.issuances[id].1);
      }
      if facts.worker !in docs.workers { return Failed(UnknownResource); }
      var worker := docs.workers[facts.worker];
      if !worker.active { return Failed(NotAuthenticated); }
      if facts.slot !in docs.slots || docs.slots[facts.slot].worker != facts.worker { return Failed(UnknownResource); }
      if !docs.slots[facts.slot].qualified { return Failed(SlotNotQualified); }
      var a := AssignmentOf(id);
      if facts.benchmark in docs.byBenchmark
        && docs.byBenchmark[facts.benchmark] != a { return Failed(IdempotencyConflict); }
      var grant := Grant(a, worker.member, facts.worker, facts.slot, facts.benchmark);
      var assignment, mapped, record := PutAssignment(a, grant), PutBenchmark(facts.benchmark, a),
        PutIssuance(id, (facts, grant));
      WriteDoc(assignment, start, mark, []);
      WriteDoc(mapped, start, mark, [] + [assignment]);
      WriteDoc(record, start, mark, [] + [assignment] + [mapped]);
      assert [] + [assignment] + [mapped] + [record] == [assignment, mapped, record];
      answer := Granted(grant);
    }
  }
}
