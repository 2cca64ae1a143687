/** The identity service's guarantees over whole runs. */
module IdentityTheorems {
  import opened Wrappers
  import opened Identity
  import opened IdentitySafety

  lemma EmptyIsSound()
    ensures Inv(EMPTY)
  {
  }

  // -- assignments ------------------------------------------------------------------

  /** No two committed issuances name the same benchmark, whatever crashed and was retried. */
  lemma BenchmarksAreUnique(events: seq<Event>, i: string, j: string)
    requires var d := After(EMPTY, events);
             i in d.issuances && j in d.issuances && d.issuances[i].1.benchmark == d.issuances[j].1.benchmark
    ensures i == j
  {
    EmptyIsSound();
    RunKeepsInv(EMPTY, events);
    var d := After(EMPTY, events);
    assert IsIssuance(d.byBenchmark, i, d.issuances[i]) && IsIssuance(d.byBenchmark, j, d.issuances[j]);
  }

  /** A committed issuance answers with its one grant forever; other facts conflict; neither writes. */
  lemma IssuanceIsFixed(d: Docs, events: seq<Event>, id: string, facts: Facts)
    requires Inv(d) && id in d.issuances
    ensures IssueAssignment(After(d, events), id, facts)
         == if facts == d.issuances[id].0 then Run([], Granted(d.issuances[id].1)) else Refuse(IdempotencyConflict)
  {
    RunPreserves(d, events);
  }

  // -- tickets and enrollment ------------------------------------------------------------

  /** A ticket's claim is set once and never changes hands. */
  lemma ClaimIsForever(d: Docs, events: seq<Event>, ticket: string)
    requires Inv(d) && ticket in d.claims
    ensures ticket in After(d, events).claims && After(d, events).claims[ticket] == d.claims[ticket]
  {
    RunPreserves(d, events);
  }

  /** The worker an event's surviving writes contain, if it wrote one. */
  ghost predicate WritesWorker(d: Docs, e: Event, w: WorkerId) {
    exists v :: PutWorker(w, v) in Kept(d, e)
  }

  lemma EnrollmentWrites(d: Docs, e: Event, w: WorkerId)
    requires e.op.EnrollOp? && WritesWorker(d, e, w)
    ensures EnrollProceeds(d, e.op.enroll, e.now) && w == WorkerOf(e.op.enroll.id)
    ensures |Kept(d, e)| > |ClaimWrites(d, e.op.enroll.ticket, e.op.enroll.id)|
  {
    var v :| PutWorker(w, v) in Kept(d, e);
    var writes := Execute(d, e.op, e.now).writes;
    var k :| 0 <= k < |Kept(d, e)| && Kept(d, e)[k] == PutWorker(w, v);
    assert writes[k] == PutWorker(w, v);
  }

  lemma EnrollmentClaims(d: Docs, e: Event, w: WorkerId)
    requires Inv(d) && e.op.EnrollOp? && WritesWorker(d, e, w)
    ensures e.op.enroll.ticket in Next(d, e).claims && Next(d, e).claims[e.op.enroll.ticket] == e.op.enroll.id
  {
    EnrollmentWrites(d, e, w);
    var req := e.op.enroll;
    var claim, kept := ClaimWrites(d, req.ticket, req.id), Kept(d, e);
    ClaimIsAllowed(d, e.op, req.ticket, req.id);
    assert kept == claim + kept[|claim|..];
    EventIsAllowed(d, e);
    AllowedConcat(d, e.op, claim, kept[|claim|..]);
    AllAllowedPreserves(ApplyAll(d, claim), e.op, kept[|claim|..]);
  }

  /** At most one worker is ever written from one enrollment ticket. */
  lemma OneWorkerPerTicket(d: Docs, e: Event, between: seq<Event>, e': Event, w: WorkerId, w': WorkerId)
    requires Inv(d) && e.op.EnrollOp? && e'.op.EnrollOp? && e.op.enroll.ticket == e'.op.enroll.ticket
    requires WritesWorker(d, e, w) && WritesWorker(After(Next(d, e), between), e', w')
    ensures w == w'
  {
    EnrollmentWrites(d, e, w);
    EnrollmentClaims(d, e, w);
    EventIsAllowed(d, e);
    ClaimIsForever(Next(d, e), between, e.op.enroll.ticket);
    EnrollmentWrites(After(Next(d, e), between), e', w');
  }

  /** Once an enrollment is committed, replays answer from the record and changed content conflicts; neither writes. */
  lemma EnrollmentIsFixed(d: Docs, events: seq<Event>, req: EnrollRequest, now: nat)
    requires Inv(d) && req.id in d.enrollments
    ensures Enroll(After(d, events), req, now)
         == if req == d.enrollments[req.id].0 then Run([], Enrolled(d.enrollments[req.id].1))
           else Refuse(IdempotencyConflict)
  {
    RunPreserves(d, events);
  }

  // -- security revocation ------------------------------------------------------------------

  lemma SecurityThroughWrite(d: Docs, op: Op, x: Write, w: WorkerId)
    requires Allowed(d, op, x) && IsSecurityRevoked(d, w)
    requires !(op.ReinstateOp? && op.reinstated == w) && (op.EnrollOp? ==> w.enrollment in d.enrollments)
    ensures IsSecurityRevoked(Apply(d, x), w) && (op.EnrollOp? ==> w.enrollment in Apply(d, x).enrollments)
  {
    if x.PutWorker? {
      assert Apply(d, x).enrollments == d.enrollments;
    } else {
      assert Apply(d, x).workers == d.workers;
      assert d.enrollments.Keys <= Apply(d, x).enrollments.Keys;
    }
  }

  lemma {:induction false} SecurityThroughWrites(d: Docs, op: Op, ws: seq<Write>, w: WorkerId)
    requires AllAllowed(d, op, ws) && IsSecurityRevoked(d, w)
    requires !(op.ReinstateOp? && op.reinstated == w) && (op.EnrollOp? ==> w.enrollment in d.enrollments)
    ensures IsSecurityRevoked(ApplyAll(d, ws), w)
    decreases |ws|
  {
    if ws != [] {
      SecurityThroughWrite(d, op, ws[0], w);
      SecurityThroughWrites(Apply(d, ws[0]), op, ws[1..], w);
    }
  }

  predicate Reinstates(e: Event, w: WorkerId) {
    e.op.ReinstateOp? && e.op.reinstated == w
  }

  /**
   * A SECURITY revocation of a worker whose enrollment is committed survives every
   * run without a reinstatement of that worker, and no request verifies meanwhile.
   */
  lemma {:induction false} SecurityHolds(d: Docs, events: seq<Event>, w: WorkerId)
    requires Inv(d) && IsSecurityRevoked(d, w) && w.enrollment in d.enrollments
    requires forall e :: e in events ==> !Reinstates(e, w)
    ensures IsSecurityRevoked(After(d, events), w)
    ensures forall sr: SignedRequest, now: nat :: sr.worker == w ==>
      Verify(After(d, events), sr, now) == Refuse(NotAuthenticated)
    decreases |events|
  {
    if events == [] {
      assert !d.workers[w].active;
    } else {
      var e := events[0];
      assert e in events;
      EventIsAllowed(d, e);
      SecurityThroughWrites(d, e.op, Kept(d, e), w);
      AllAllowedPreserves(d, e.op, Kept(d, e));
      SecurityHolds(Next(d, e), events[1..], w);
    }
  }

  /** Between the two, no grant was made to the worker, as a document or as a committed issuance. */
  ghost predicate NoNewGrant(d: Docs, d': Docs, w: WorkerId) {
    && (forall i :: i in d'.issuances && (d'.issuances[i].0.worker == w || d'.issuances[i].1.worker == w) ==>
          i in d.issuances && d.issuances[i] == d'.issuances[i])
    && (forall a :: a in d'.assignments && d'.assignments[a].worker == w ==>
          a in d.assignments && d.assignments[a] == d'.assignments[a])
  }

  lemma NoGrantThroughWrite(d: Docs, op: Op, x: Write, w: WorkerId)
    requires Allowed(d, op, x) && (w in d.workers ==> !d.workers[w].active)
    ensures NoNewGrant(d, Apply(d, x), w)
  {
    if !x.PutIssuance? { assert Apply(d, x).issuances == d.issuances; }
    if !x.PutAssignment? { assert Apply(d, x).assignments == d.assignments; }
  }

  lemma {:induction false} NoGrantThroughWrites(d: Docs, op: Op, ws: seq<Write>, w: WorkerId)
    requires Inv(d) && AllAllowed(d, op, ws) && IsSecurityRevoked(d, w)
    requires !(op.ReinstateOp? && op.reinstated == w) && (op.EnrollOp? ==> w.enrollment in d.enrollments)
    ensures NoNewGrant(d, ApplyAll(d, ws), w)
    decreases |ws|
  {
    if ws != [] {
      NoGrantThroughWrite(d, op, ws[0], w);
      SecurityThroughWrite(d, op, ws[0], w);
      AllowedKeepsInv(d, op, ws[0]);
      NoGrantThroughWrites(Apply(d, ws[0]), op, ws[1..], w);
    }
  }

  /** While the revocation stands, no run issues anything to the worker. */
  lemma {:induction false} NoGrantWhileRevoked(d: Docs, events: seq<Event>, w: WorkerId)
    requires Inv(d) && IsSecurityRevoked(d, w) && w.enrollment in d.enrollments
    requires forall e :: e in events ==> !Reinstates(e, w)
    ensures NoNewGrant(d, After(d, events), w)
    decreases |events|
  {
    if events != [] {
      var e := events[0];
      assert e in events;
      EventIsAllowed(d, e);
      SecurityThroughWrites(d, e.op, Kept(d, e), w);
      AllAllowedPreserves(d, e.op, Kept(d, e));
      NoGrantThroughWrites(d, e.op, Kept(d, e), w);
      NoGrantWhileRevoked(Next(d, e), events[1..], w);
    }
  }

  /** An enrollment's writes up to its worker document. */
  function BeforeWorker(d: Docs, req: EnrollRequest): seq<Write> {
    ClaimWrites(d, req.ticket, req.id) + IssueWrites(EnrollmentCredential(req.id), WorkerOf(req.id), req.publicKey)
  }

  /**
   * The event lifts the revocation: a new reinstatement, or an uncommitted
   * enrollment, that got as far as the worker.
   */
  predicate Lifts(d: Docs, e: Event, w: WorkerId) {
    || (Reinstates(e, w) && e.op.commandId !in d.commands && e.kept >= 1)
    || (e.op.EnrollOp? && WorkerOf(e.op.enroll.id) == w && EnrollProceeds(d, e.op.enroll, e.now)
        && e.kept > |BeforeWorker(d, e.op.enroll)|)
  }

  /**
   * Which events lift a SECURITY revocation, an operation stopped after any
   * write included.
   */
  lemma SecurityLiftedExactly(d: Docs, e: Event, w: WorkerId)
    requires Inv(d) && IsSecurityRevoked(d, w)
    ensures !IsSecurityRevoked(Next(d, e), w) <==> Lifts(d, e, w)
  {
    if e.op.EnrollOp? {
      if EnrollProceeds(d, e.op.enroll, e.now) {
        EnrollKept(d, e, w);
      } else {
        assert Kept(d, e) == [];
      }
    } else if Reinstates(e, w) {
      ReinstateKept(d, e, w);
    } else {
      EventIsAllowed(d, e);
      SecurityThroughWrites(d, e.op, Kept(d, e), w);
    }
  }

  lemma {:induction false} OtherWritesKeepWorker(d: Docs, ws: seq<Write>, w: WorkerId)
    requires forall x :: x in ws ==> !(x.PutWorker? && x.worker == w)
    ensures w in ApplyAll(d, ws).workers <==> w in d.workers
    ensures w in d.workers ==> ApplyAll(d, ws).workers[w] == d.workers[w]
    decreases |ws|
  {
    if ws != [] {
      assert ws[0] in ws;
      OtherWriteKeepsWorker(d, ws[0], w);
      OtherWritesKeepWorker(Apply(d, ws[0]), ws[1..], w);
    }
  }

  lemma OtherWriteKeepsWorker(d: Docs, x: Write, w: WorkerId)
    requires !(x.PutWorker? && x.worker == w)
    ensures w in Apply(d, x).workers <==> w in d.workers
    ensures w in d.workers ==> Apply(d, x).workers[w] == d.workers[w]
  {
    if !x.PutWorker? { assert Apply(d, x).workers == d.workers; }
  }

  lemma EnrollWritesAre(d: Docs, req: EnrollRequest, now: nat)
    requires EnrollProceeds(d, req, now)
    ensures Enroll(d, req, now).writes == BeforeWorker(d, req)
      + [PutWorker(WorkerOf(req.id), Worker(d.tickets[req.ticket].member, true, None))]
      + [PutEnrollment(req.id, (req, EnrollResponseOf(d, req, now)))]
    ensures forall x :: x in BeforeWorker(d, req) ==> !x.PutWorker?
  {
  }

  lemma EnrollKept(d: Docs, e: Event, w: WorkerId)
    requires e.op.EnrollOp? && EnrollProceeds(d, e.op.enroll, e.now) && IsSecurityRevoked(d, w)
    ensures !IsSecurityRevoked(Next(d, e), w) <==>
      WorkerOf(e.op.enroll.id) == w && e.kept > |BeforeWorker(d, e.op.enroll)|
  {
    var req := e.op.enroll;
    EnrollWritesAre(d, req, e.now);
    var start := BeforeWorker(d, req);
    var worker := PutWorker(WorkerOf(req.id), Worker(d.tickets[req.ticket].member, true, None));
    var record := PutEnrollment(req.id, (req, EnrollResponseOf(d, req, e.now)));
    if e.kept <= |start| {
      assert Kept(d, e) == start[..e.kept];
      OtherWritesKeepWorker(d, Kept(d, e), w);
    } else if WorkerOf(req.id) != w {
      assert forall x :: x in Kept(d, e) ==> x in start || x == worker || x == record;
      OtherWritesKeepWorker(d, Kept(d, e), w);
    } else {
      ApplyAppend(d, start, worker);
      if e.kept == |start| + 1 {
        assert Kept(d, e) == start + [worker];
      } else {
        assert Kept(d, e) == start + [worker] + [record];
        ApplyAppend(d, start + [worker], record);
      }
    }
  }

  lemma ReinstateKept(d: Docs, e: Event, w: WorkerId)
    requires Reinstates(e, w) && IsSecurityRevoked(d, w)
    ensures !IsSecurityRevoked(Next(d, e), w) <==> e.op.commandId !in d.commands && e.kept >= 1
  {
    var id := e.op.commandId;
    if id in d.commands || e.kept == 0 {
      assert Kept(d, e) == [];
    } else {
      var worker := PutWorker(w, d.workers[w].(active := true, reason := None));
      var command := PutCommand(id, ReinstateCommand(w));
      assert Execute(d, e.op, e.now).writes == [worker, command];
      if e.kept == 1 {
        assert Kept(d, e) == [worker];
        OneWrite(d, e.op, worker);
      } else {
        assert Kept(d, e) == [worker, command];
        ApplyTwo(d, worker, command);
      }
    }
  }

  lemma AfterOneMore(d: Docs, events: seq<Event>, e: Event)
    ensures After(d, events + [e]) == Next(After(d, events), e)
    decreases |events|
  {
    if events == [] {
      assert [] + [e] == [e] && [e][1..] == [];
    } else {
      assert (events + [e])[1..] == events[1..] + [e];
      AfterOneMore(Next(d, events[0]), events[1..], e);
    }
  }

  /** A ticket, and an enrollment with it that stops before its record. */
  lemma StoppedEnrollment(req: EnrollRequest, member: string, now: nat) returns (events: seq<Event>)
    requires req.compatible && req.proofValid
    ensures |events| == 2 && events[1].op == EnrollOp(req)
    ensures var d := After(EMPTY, events);
      && d.workers == map[WorkerOf(req.id) := Worker(member, true, None)]
      && req.id !in d.enrollments && d.commands == map[] && EnrollProceeds(d, req, now)
  {
    var first := Event(CreateTicketOp(WorkerEnrollment, req.ticket, member, None), now, 1);
    var second := Event(EnrollOp(req), now, 4);
    var none: seq<Event> := [];
    var ticket := Ticket(WorkerEnrollment, member, None, now + TICKET_TTL_SECS);
    var d1 := EMPTY.(tickets := map[req.ticket := ticket]);
    assert Kept(EMPTY, first) == [PutTicket(req.ticket, ticket)];
    OneWrite(EMPTY, first.op, PutTicket(req.ticket, ticket));
    AfterOneMore(EMPTY, none, first);
    assert After(EMPTY, none + [first]) == d1;
    EnrollWritesAre(d1, req, now);
    var start := BeforeWorker(d1, req);
    var worker := PutWorker(WorkerOf(req.id), Worker(member, true, None));
    assert |start| == 3 && Kept(d1, second) == start + [worker];
    ClaimAndIssue(d1, second.op, req.ticket, req.id, EnrollmentCredential(req.id), WorkerOf(req.id), req.publicKey);
    ApplyAppend(d1, start, worker);
    AfterOneMore(EMPTY, none + [first], second);
    events := none + [first] + [second];
  }

  /**
   * The case the guarantee leaves out, from nothing: a ticket, an enrollment
   * stopped before its record, a SECURITY revocation, and the same enrollment
   * retried before the ticket expires.
   */
  lemma SecurityLostBeforeCommit(req: EnrollRequest, member: string, commandId: string, now: nat)
    returns (events: seq<Event>)
    requires req.compatible && req.proofValid
    ensures |events| == 4 && events[1].op == events[3].op == EnrollOp(req)
    ensures events[2].op == RevokeWorkerOp(WorkerOf(req.id), Security, commandId)
    ensures IsSecurityRevoked(After(EMPTY, events[..3]), WorkerOf(req.id))
    ensures !IsSecurityRevoked(After(EMPTY, events), WorkerOf(req.id))
  {
    var w := WorkerOf(req.id);
    var stopped := StoppedEnrollment(req, member, now);
    var d := After(EMPTY, stopped);
    var revoke := Event(RevokeWorkerOp(w, Security, commandId), now, 2);
    var worker := PutWorker(w, d.workers[w].(active := false, reason := Some(Security)));
    var command := PutCommand(commandId, RevokeWorkerCommand(w, Security));
    assert Kept(d, revoke) == [worker, command];
    ApplyTwo(d, worker, command);
    AfterOneMore(EMPTY, stopped, revoke);
    var revoked := Next(d, revoke);
    var retry := Event(EnrollOp(req), now, 5);
    EnrollKept(revoked, retry, w);
    AfterOneMore(EMPTY, stopped + [revoke], retry);
    events := stopped + [revoke] + [retry];
    assert events[..3] == stopped + [revoke];
  }

  // -- recovery ----------------------------------------------------------------------------

  predicate IsLive(d: Docs, c: CredentialId) {
    c in d.credentials && !d.credentials[c].revoked
  }

  // A committed recovery: the prepared store plus its record.
  lemma RecoveryCommits(d: Docs, req: RecoverRequest, now: nat, d': Docs)
    requires Inv(d) && RecoverProceeds(d, req, now) && d' == ApplyAll(d, Recover(d, req, now).writes)
    ensures req.id in d'.recoveries && Recover(d, req, now).answer == Recovered(d'.recoveries[req.id].1)
    ensures IsRecovered(d, req, RecoverIssued(d, req), d'.(recoveries := d.recoveries))
  {
    RecoverWritesAreAllowed(d, req, now);
    var ws := RecoverWrites(d, req);
    RecordLast(d, ws, req.id, (ContentOf(req), RecoverResponseOf(d, req, now)));
    assert d'.(recoveries := d.recoveries) == ApplyAll(d, ws);
  }

  /**
   * When a recovery commits, a live credential of the worker is the new one or
   * one the worker's listing did not name, and the new one is live and listed.
   */
  lemma RecoveryRevokesTheListed(d: Docs, req: RecoverRequest, now: nat, d': Docs, c: CredentialId)
    requires Inv(d) && RecoverProceeds(d, req, now) && d' == ApplyAll(d, Recover(d, req, now).writes)
    ensures req.id in d'.recoveries && Recover(d, req, now).answer == Recovered(d'.recoveries[req.id].1)
    ensures var fresh_ := RecoveryCredential(req.worker, req.id);
            && IsLive(d', fresh_) && fresh_ in MarkersOf(d', req.worker)
            && (c in MarkersOf(d', req.worker) && IsLive(d', c) ==> c == fresh_)
            && (c != fresh_ ==> (IsLive(d', c) <==> IsLive(d, c) && c !in MarkersOf(d, req.worker)))
  {
    RecoveryCommits(d, req, now, d');
    RecoveredCredentials(d, req, d'.(recoveries := d.recoveries), c);
  }

  lemma RecoveredCredentials(d: Docs, req: RecoverRequest, d': Docs, c: CredentialId)
    requires req.worker in d.workers && IsRecovered(d, req, RecoverIssued(d, req), d')
    ensures var fresh_ := RecoveryCredential(req.worker, req.id);
            && IsLive(d', fresh_) && fresh_ in MarkersOf(d', req.worker)
            && (c in MarkersOf(d', req.worker) && IsLive(d', c) ==> c == fresh_)
            && (c != fresh_ ==> (IsLive(d', c) <==> IsLive(d, c) && c !in MarkersOf(d, req.worker)))
  {
    var issued := RecoverIssued(d, req);
    var list := MarkersOf(issued, req.worker);
    assert list == WithMarker(MarkersOf(d, req.worker), RecoveryCredential(req.worker, req.id));
    assert MarkersOf(d', req.worker) == list;
  }

  /** A rotation that stopped after its first write left a live credential that no listing names. */
  lemma CrashedRotationIsUnlisted(d: Docs, caller: Caller, req: RotateRequest, now: nat)
    requires (caller.worker, req.id) !in d.rotations && req.proofValid
    requires RotationCredential(caller.worker, req.id) !in MarkersOf(d, caller.worker)
    ensures var d' := Next(d, Event(RotateOp(caller, req), now, 1));
            var c := RotationCredential(caller.worker, req.id);
            && IsLive(d', c) && c !in MarkersOf(d', caller.worker)
            && d'.credentials[c] == NewCredential(caller.worker, req.publicKey)
  {
    var c := RotationCredential(caller.worker, req.id);
    var w := PutCredential(c, NewCredential(caller.worker, req.publicKey));
    var e := Event(RotateOp(caller, req), now, 1);
    assert Kept(d, e) == [w];
    OneWrite(d, e.op, w);
  }

  /** Such a credential still verifies after the worker's recovery has committed. */
  lemma UnlistedCredentialStillVerifies(d: Docs, req: RecoverRequest, now: nat, d': Docs, sr: SignedRequest, later: nat)
    requires Inv(d) && RecoverProceeds(d, req, now) && d' == ApplyAll(d, Recover(d, req, now).writes)
    requires IsLive(d, sr.credential) && sr.credential !in MarkersOf(d, req.worker)
      && sr.credential != RecoveryCredential(req.worker, req.id)
    requires d.credentials[sr.credential] == NewCredential(req.worker, sr.signer)
    requires sr.worker == req.worker && sr.timestamp == later && (sr.credential, sr.id) !in d.replay
    ensures Verify(d', sr, later).answer == Verified(d.workers[req.worker].member)
  {
    RecoveryCommits(d, req, now, d');
    UnlistedIsUntouched(d, req, d'.(recoveries := d.recoveries), sr.credential);
    VerifyAccepts(d', sr, later, d.workers[req.worker].member);
  }

  lemma UnlistedIsUntouched(d: Docs, req: RecoverRequest, d': Docs, c: CredentialId)
    requires req.worker in d.workers && IsRecovered(d, req, RecoverIssued(d, req), d')
    requires c in d.credentials && c !in MarkersOf(d, req.worker) && c != RecoveryCredential(req.worker, req.id)
    ensures c in d'.credentials && d'.credentials[c] == d.credentials[c] && d'.replay == d.replay
    ensures req.worker in d'.workers && d'.workers[req.worker].active
      && d'.workers[req.worker].member == d.workers[req.worker].member
  {
    var issued := RecoverIssued(d, req);
    assert c !in MarkersOf(issued, req.worker);
    assert d'.(workers := d.workers).replay == issued.replay;
  }

  lemma VerifyAccepts(d: Docs, sr: SignedRequest, now: nat, member: string)
    requires sr.credential in d.credentials && d.credentials[sr.credential] == NewCredential(sr.worker, sr.signer)
    requires sr.worker in d.workers && d.workers[sr.worker].active && d.workers[sr.worker].member == member
    requires sr.timestamp == now && (sr.credential, sr.id) !in d.replay
    ensures Verify(d, sr, now).answer == Verified(member)
  {
  }

  /** Once a credential's issuing record is committed, its revocation is final. */
  lemma RevocationIsFinal(d: Docs, events: seq<Event>, c: CredentialId)
    requires Inv(d) && IsIssued(d, c) && c in d.credentials && d.credentials[c].revoked
    ensures c in After(d, events).credentials && After(d, events).credentials[c].revoked
    ensures forall sr: SignedRequest, now: nat :: sr.credential == c ==>
      Verify(After(d, events), sr, now) == Refuse(NotAuthenticated)
  {
    RunPreserves(d, events);
    assert KeepsCredential(d, After(d, events), c);
  }

  // -- replay ----------------------------------------------------------------------------------

  /** A request id of a credential verifies for one signed content only, in every run. */
  lemma RequestIdBindsOneContent(d: Docs, sr: SignedRequest, now: nat, between: seq<Event>, sr': SignedRequest,
                                 now': nat)
    requires Inv(d) && sr.credential == sr'.credential && sr.id == sr'.id
    requires Verify(d, sr, now).answer.Verified?
    requires Verify(After(ApplyAll(d, Verify(d, sr, now).writes), between), sr', now').answer.Verified?
    ensures sr.signed == sr'.signed
  {
    var op := VerifyOp(sr);
    OperationIsAllowed(d, op, now);
    AllAllowedKeepsInv(d, op, Execute(d, op, now).writes);
    var d1 := ApplyAll(d, Verify(d, sr, now).writes);
    if (sr.credential, sr.id) !in d.replay { OneWrite(d, op, PutReplay((sr.credential, sr.id), sr.signed)); }
    assert d1.replay[(sr.credential, sr.id)] == sr.signed;
    RunPreserves(d1, between);
  }
}
