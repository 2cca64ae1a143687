/** What survives every run of the identity service, with a crash after any document write. */
module IdentitySafety {
  import opened Wrappers
  import opened Identity

  // -- runs ---------------------------------------------------------------------

  /** One operation of which only the first `kept` writes happened. */
  datatype Event = Event(op: Op, now: nat, kept: nat)

  function Kept(d: Docs, e: Event): seq<Write> {
    var writes := Execute(d, e.op, e.now).writes;
    if e.kept < |writes| then writes[..e.kept] else writes
  }

  function Next(d: Docs, e: Event): Docs {
    ApplyAll(d, Kept(d, e))
  }

  function After(d: Docs, events: seq<Event>): Docs
    decreases |events|
  {
    if events == [] then d else After(Next(d, events[0]), events[1..])
  }

  // -- what one write may do -------------------------------------------------------

  /** The record whose commit ends the rewriting of a credential. */
  predicate IsIssued(d: Docs, c: CredentialId) {
    match c
    case EnrollmentCredential(r) => r in d.enrollments
    case RotationCredential(w, r) => (w, r) in d.rotations
    case RecoveryCredential(w, r) => r in d.recoveries
  }

  /** A credential is issued anew only before its record; afterwards it only moves toward revocation. */
  predicate CredentialMoves(d: Docs, c: CredentialId, v: Credential) {
    || !IsIssued(d, c)
    || (c in d.credentials && v.worker == d.credentials[c].worker && v.publicKey == d.credentials[c].publicKey
        && (d.credentials[c].revoked ==> v.revoked))
  }

  predicate IsSecurityRevoked(d: Docs, w: WorkerId) {
    w in d.workers && d.workers[w].reason == Some(Security)
  }

  /** A worker is written by its own enrollment, by a command on it, or by its recovery. */
  predicate WorkerMoves(d: Docs, op: Op, w: WorkerId, v: Worker) {
    && (v.reason.Some? ==> !v.active)
    && (w.enrollment !in d.enrollments || w in d.workers)
    && (IsSecurityRevoked(d, w) && v.reason != Some(Security) ==>
          (op.ReinstateOp? && op.reinstated == w)
            || (op.EnrollOp? && WorkerOf(op.enroll.id) == w && w.enrollment !in d.enrollments))
    && (op.EnrollOp? ==>
          WorkerOf(op.enroll.id) == w && op.enroll.ticket in d.claims && d.claims[op.enroll.ticket] == op.enroll.id)
    && (!op.EnrollOp? ==> w in d.workers)
  }

  predicate Allowed(d: Docs, op: Op, w: Write) {
    match w
    case PutTicket(_, _) => true
    case PutClaim(k, _) => k !in d.claims
    case PutCredential(c, v) => CredentialMoves(d, c, v)
    case PutMarker(owner, c) => c in d.credentials
    case PutWorker(k, v) => WorkerMoves(d, op, k, v)
    case PutEnrollment(k, v) => k !in d.enrollments && WorkerOf(k) in d.workers
    case PutRotation(k, v) => k !in d.rotations
    case PutRecovery(k, v) => k !in d.recoveries
    case PutCommand(k, v) => k !in d.commands
    case PutSlot(_, _) => true
    case PutAssignment(_, v) => v.worker in d.workers && d.workers[v.worker].active
    case PutBenchmark(b, a) => b in d.byBenchmark ==> d.byBenchmark[b] == a
    case PutIssuance(k, v) =>
      k !in d.issuances && v.1.assignment == AssignmentOf(k) && v.1.benchmark == v.0.benchmark
      && v.0.benchmark in d.byBenchmark && d.byBenchmark[v.0.benchmark] == AssignmentOf(k)
      && v.1.worker == v.0.worker && v.0.worker in d.workers && d.workers[v.0.worker].active
    case PutReplay(k, v) => k !in d.replay
  }

  predicate AllAllowed(d: Docs, op: Op, ws: seq<Write>)
    decreases |ws|
  {
    ws == [] || (Allowed(d, op, ws[0]) && AllAllowed(Apply(d, ws[0]), op, ws[1..]))
  }

  lemma {:induction false} AllowedConcat(d: Docs, op: Op, a: seq<Write>, b: seq<Write>)
    ensures ApplyAll(d, a + b) == ApplyAll(ApplyAll(d, a), b)
    ensures AllAllowed(d, op, a + b) <==> AllAllowed(d, op, a) && AllAllowed(ApplyAll(d, a), op, b)
    decreases |a|
  {
    if a == [] {
      assert a + b == b;
    } else {
      assert (a + b)[1..] == a[1..] + b;
      AllowedConcat(Apply(d, a[0]), op, a[1..], b);
    }
  }

  lemma AllowedPrefix(d: Docs, op: Op, ws: seq<Write>, k: nat)
    requires k <= |ws| && AllAllowed(d, op, ws)
    ensures AllAllowed(d, op, ws[..k])
  {
    assert ws == ws[..k] + ws[k..];
    AllowedConcat(d, op, ws[..k], ws[k..]);
  }

  lemma OneWrite(d: Docs, op: Op, w: Write)
    ensures ApplyAll(d, [w]) == Apply(d, w)
    ensures AllAllowed(d, op, [w]) <==> Allowed(d, op, w)
  {
    assert [w][1..] == [];
  }

  // -- every operation's writes are allowed -----------------------------------------

  predicate Contains<K, V(==)>(later: map<K, V>, earlier: map<K, V>) {
    forall k :: k in earlier ==> k in later && later[k] == earlier[k]
  }

  predicate MarkersInv(d: Docs) {
    forall w :: w in d.markers ==> forall c :: c in d.markers[w] ==> c in d.credentials
  }

  predicate WorkersInv(d: Docs) {
    && (forall w :: w in d.workers && d.workers[w].reason.Some? ==> !d.workers[w].active)
    && (forall r :: r in d.enrollments ==> WorkerOf(r) in d.workers)
  }

  /** A committed issuance holds the mapping of its benchmark. */
  predicate IsIssuance(byBenchmark: map<string, AssignmentId>, i: string, doc: (Facts, Grant)) {
    doc.1.assignment == AssignmentOf(i) && doc.1.benchmark == doc.0.benchmark
    && doc.0.benchmark in byBenchmark && byBenchmark[doc.0.benchmark] == AssignmentOf(i)
  }

  predicate IssuancesInv(d: Docs) {
    forall i :: i in d.issuances ==> IsIssuance(d.byBenchmark, i, d.issuances[i])
  }

  /** Holds in every reachable store. */
  predicate Inv(d: Docs) {
    MarkersInv(d) && WorkersInv(d) && IssuancesInv(d)
  }

  lemma MarkersKept(d: Docs, op: Op, w: Write)
    requires MarkersInv(d) && Allowed(d, op, w)
    ensures MarkersInv(Apply(d, w))
  {
    var d' := Apply(d, w);
    if w.PutMarker? {
      assert forall c :: c in MarkersOf(d, w.owner) ==> c in d.credentials;
      assert d'.credentials == d.credentials;
    } else {
      assert d'.markers == d.markers && d.credentials.Keys <= d'.credentials.Keys;
    }
  }

  lemma WorkersKept(d: Docs, op: Op, w: Write)
    requires WorkersInv(d) && Allowed(d, op, w)
    ensures WorkersInv(Apply(d, w))
  {
    var d' := Apply(d, w);
    if !w.PutWorker? && !w.PutEnrollment? { assert d'.workers == d.workers && d'.enrollments == d.enrollments; }
  }

  lemma IssuancesKept(d: Docs, op: Op, w: Write)
    requires IssuancesInv(d) && Allowed(d, op, w)
    ensures IssuancesInv(Apply(d, w))
  {
    var d' := Apply(d, w);
    if !w.PutBenchmark? && !w.PutIssuance? {
      assert d'.issuances == d.issuances && d'.byBenchmark == d.byBenchmark;
    } else {
      assert Contains(d'.byBenchmark, d.byBenchmark);
    }
  }

  lemma AllowedKeepsInv(d: Docs, op: Op, w: Write)
    requires Inv(d) && Allowed(d, op, w)
    ensures Inv(Apply(d, w))
  {
    MarkersKept(d, op, w);
    WorkersKept(d, op, w);
    IssuancesKept(d, op, w);
  }

  lemma {:induction false} AllAllowedKeepsInv(d: Docs, op: Op, ws: seq<Write>)
    requires Inv(d) && AllAllowed(d, op, ws)
    ensures Inv(ApplyAll(d, ws))
    decreases |ws|
  {
    if ws != [] {
      AllowedKeepsInv(d, op, ws[0]);
      AllAllowedKeepsInv(Apply(d, ws[0]), op, ws[1..]);
    }
  }

  lemma AllowedCons(d: Docs, op: Op, w: Write, rest: seq<Write>)
    ensures ApplyAll(d, [w] + rest) == ApplyAll(Apply(d, w), rest)
    ensures AllAllowed(d, op, [w] + rest) <==> Allowed(d, op, w) && AllAllowed(Apply(d, w), op, rest)
  {
    assert ([w] + rest)[1..] == rest;
  }

  lemma TwoWrites(d: Docs, op: Op, a: Write, b: Write)
    ensures ApplyAll(d, [a, b]) == Apply(Apply(d, a), b)
    ensures AllAllowed(d, op, [a, b]) <==> Allowed(d, op, a) && Allowed(Apply(d, a), op, b)
  {
    assert [a, b] == [a] + [b];
    AllowedCons(d, op, a, [b]);
    OneWrite(Apply(d, a), op, b);
  }

  lemma AppendAllowed(d: Docs, op: Op, ws: seq<Write>, w: Write)
    requires AllAllowed(d, op, ws) && Allowed(ApplyAll(d, ws), op, w)
    ensures AllAllowed(d, op, ws + [w])
  {
    OneWrite(ApplyAll(d, ws), op, w);
    AllowedConcat(d, op, ws, [w]);
  }

  lemma ClaimIsAllowed(d: Docs, op: Op, secret: string, claimant: string)
    requires secret in d.claims ==> d.claims[secret] == claimant
    ensures AllAllowed(d, op, ClaimWrites(d, secret, claimant))
    ensures ApplyAll(d, ClaimWrites(d, secret, claimant)) == d.(claims := d.claims[secret := claimant])
  {
    OneWrite(d, op, PutClaim(secret, claimant));
    if secret in d.claims { assert d.claims[secret := claimant] == d.claims; }
  }

  function Issued(d: Docs, c: CredentialId, w: WorkerId, publicKey: string): Docs {
    d.(credentials := d.credentials[c := NewCredential(w, publicKey)],
       markers := d.markers[w := WithMarker(MarkersOf(d, w), c)])
  }

  lemma IssueWritesAreAllowed(d: Docs, op: Op, c: CredentialId, w: WorkerId, publicKey: string)
    requires !IsIssued(d, c)
    ensures AllAllowed(d, op, IssueWrites(c, w, publicKey))
    ensures ApplyAll(d, IssueWrites(c, w, publicKey)) == Issued(d, c, w, publicKey)
  {
    TwoWrites(d, op, PutCredential(c, NewCredential(w, publicKey)), PutMarker(w, c));
  }

  // Claim, then issue: the common start of enrollment and recovery.
  lemma ClaimAndIssue(d: Docs, op: Op, secret: string, claimant: string, c: CredentialId, w: WorkerId,
                      publicKey: string)
    requires !IsIssued(d, c) && (secret in d.claims ==> d.claims[secret] == claimant)
    ensures AllAllowed(d, op, ClaimWrites(d, secret, claimant) + IssueWrites(c, w, publicKey))
    ensures ApplyAll(d, ClaimWrites(d, secret, claimant) + IssueWrites(c, w, publicKey))
         == Issued(d.(claims := d.claims[secret := claimant]), c, w, publicKey)
  {
    ClaimIsAllowed(d, op, secret, claimant);
    var claimed := d.(claims := d.claims[secret := claimant]);
    IssueWritesAreAllowed(claimed, op, c, w, publicKey);
    AllowedConcat(d, op, ClaimWrites(d, secret, claimant), IssueWrites(c, w, publicKey));
  }

  lemma EnrollTailIsAllowed(d: Docs, req: EnrollRequest, member: string, response: EnrollResponse)
    requires req.id !in d.enrollments && req.ticket in d.claims && d.claims[req.ticket] == req.id
    ensures AllAllowed(d, EnrollOp(req),
      [PutWorker(WorkerOf(req.id), Worker(member, true, None)), PutEnrollment(req.id, (req, response))])
  {
    TwoWrites(d, EnrollOp(req), PutWorker(WorkerOf(req.id), Worker(member, true, None)),
        PutEnrollment(req.id, (req, response)));
  }

  lemma EnrollIsAllowed(d: Docs, req: EnrollRequest, now: nat)
    requires EnrollProceeds(d, req, now)
    ensures AllAllowed(d, EnrollOp(req), Enroll(d, req, now).writes)
  {
    var w, c := WorkerOf(req.id), EnrollmentCredential(req.id);
    var start := ClaimWrites(d, req.ticket, req.id) + IssueWrites(c, w, req.publicKey);
    ClaimAndIssue(d, EnrollOp(req), req.ticket, req.id, c, w, req.publicKey);
    var issued := Issued(d.(claims := d.claims[req.ticket := req.id]), c, w, req.publicKey);
    var member, response := d.tickets[req.ticket].member, EnrollResponseOf(d, req, now);
    EnrollTailIsAllowed(issued, req, member, response);
    AllowedConcat(d, EnrollOp(req), start,
        [PutWorker(w, Worker(member, true, None)), PutEnrollment(req.id, (req, response))]);
  }

  lemma RotateTailIsAllowed(d: Docs, op: Op, c: CredentialId, revokesAt: nat, key: (WorkerId, string),
                            doc: (string, RotateResponse))
    requires c in d.credentials && key !in d.rotations
    ensures AllAllowed(d, op, [PutCredential(c, d.credentials[c].(revokesAt := Some(revokesAt))),
      PutRotation(key, doc)])
  {
    TwoWrites(d, op, PutCredential(c, d.credentials[c].(revokesAt := Some(revokesAt))), PutRotation(key, doc));
  }

  lemma RotateIsAllowed(d: Docs, caller: Caller, req: RotateRequest, now: nat)
    ensures AllAllowed(d, RotateOp(caller, req), Rotate(d, caller, req, now).writes)
  {
    var op := RotateOp(caller, req);
    var key := (caller.worker, req.id);
    if key !in d.rotations && req.proofValid {
      var c := RotationCredential(caller.worker, req.id);
      IssueWritesAreAllowed(d, op, c, caller.worker, req.publicKey);
      var issued := Issued(d, c, caller.worker, req.publicKey);
      if caller.credential in issued.credentials {
        var at := now + ROTATION_GRACE_SECS;
        var doc := (req.publicKey, RotateResponse(c, at, now));
        RotateTailIsAllowed(issued, op, caller.credential, at, key, doc);
        AllowedConcat(d, op, IssueWrites(c, caller.worker, req.publicKey),
                      [PutCredential(caller.credential, issued.credentials[caller.credential].(revokesAt := Some(at))),
                          PutRotation(key, doc)]);
      }
    }
  }

  lemma CommandsAreAllowed(d: Docs, op: Op, now: nat)
    requires Inv(d) && (op.RevokeCredentialOp? || op.RevokeWorkerOp? || op.ReinstateOp?)
    ensures AllAllowed(d, op, Execute(d, op, now).writes)
  {
    if op.RevokeCredentialOp? {
      RevokeCredentialIsAllowed(d, op, now);
    } else if op.RevokeWorkerOp? {
      RevokeWorkerIsAllowed(d, op, now);
    } else {
      ReinstateIsAllowed(d, op, now);
    }
  }

  lemma RevokeCredentialIsAllowed(d: Docs, op: Op, now: nat)
    requires Inv(d) && op.RevokeCredentialOp?
    ensures AllAllowed(d, op, Execute(d, op, now).writes)
  {
    var writes := Execute(d, op, now).writes;
    if writes != [] { TwoWrites(d, op, writes[0], writes[1]); }
  }

  lemma RevokeWorkerIsAllowed(d: Docs, op: Op, now: nat)
    requires Inv(d) && op.RevokeWorkerOp?
    ensures AllAllowed(d, op, Execute(d, op, now).writes)
  {
    var writes := Execute(d, op, now).writes;
    if writes != [] { TwoWrites(d, op, writes[0], writes[1]); }
  }

  lemma ReinstateIsAllowed(d: Docs, op: Op, now: nat)
    requires Inv(d) && op.ReinstateOp?
    ensures AllAllowed(d, op, Execute(d, op, now).writes)
  {
    var writes := Execute(d, op, now).writes;
    if writes != [] { TwoWrites(d, op, writes[0], writes[1]); }
  }

  lemma IssueIsAllowed(d: Docs, id: string, facts: Facts)
    requires Inv(d)
    ensures AllAllowed(d, IssueOp(id, facts), IssueAssignment(d, id, facts).writes)
  {
    var writes := IssueAssignment(d, id, facts).writes;
    if writes != [] { IssueWritesAreThree(d, IssueOp(id, facts), writes[0].assignmentDoc, id, facts); }
  }

  lemma IssueWritesAreThree(d: Docs, op: Op, grant: Grant, id: string, facts: Facts)
    requires id !in d.issuances && grant.assignment == AssignmentOf(id) && grant.benchmark == facts.benchmark
    requires grant.worker == facts.worker && facts.worker in d.workers && d.workers[facts.worker].active
    requires facts.benchmark in d.byBenchmark ==> d.byBenchmark[facts.benchmark] == AssignmentOf(id)
    ensures AllAllowed(d, op, [PutAssignment(AssignmentOf(id), grant), PutBenchmark(facts.benchmark, AssignmentOf(id)),
      PutIssuance(id, (facts, grant))])
  {
    var a, b, c := PutAssignment(AssignmentOf(id), grant), PutBenchmark(facts.benchmark, AssignmentOf(id)),
      PutIssuance(id, (facts, grant));
    var d1 := d.(assignments := d.assignments[AssignmentOf(id) := grant]);
    var d2 := d1.(byBenchmark := d1.byBenchmark[facts.benchmark := AssignmentOf(id)]);
    TwoWrites(d, op, a, b);
    assert Allowed(d, op, a) && Allowed(d1, op, b) && Allowed(d2, op, c);
    AppendAllowed(d, op, [a, b], c);
    assert [a, b] + [c] == [a, b, c];
  }

  /** What the revocation loop leaves: each listed credential but the kept one revoked, the rest untouched. */
  predicate ListedRevoked(at: Docs, d': Docs, list: seq<CredentialId>, keep: CredentialId) {
    && d' == at.(credentials := d'.credentials) && d'.credentials.Keys == at.credentials.Keys
    && (forall c :: c in at.credentials ==>
          d'.credentials[c] == if c in list && c != keep then at.credentials[c].(revoked := true)
            else at.credentials[c])
  }

  lemma RevokedOneMore(at: Docs, mid: Docs, d': Docs, list: seq<CredentialId>, keep: CredentialId)
    requires list != []
    requires ListedRevoked(at, mid, [list[0]], keep) && ListedRevoked(mid, d', list[1..], keep)
    ensures ListedRevoked(at, d', list, keep)
  {
    assert list == [list[0]] + list[1..];
  }

  lemma RevokeOne(d: Docs, op: Op, c: CredentialId, keep: CredentialId)
    ensures AllAllowed(d, op, RevokeIfLive(d, c, keep))
    ensures ListedRevoked(d, ApplyAll(d, RevokeIfLive(d, c, keep)), [c], keep)
  {
    var writes := RevokeIfLive(d, c, keep);
    if writes != [] { OneWrite(d, op, writes[0]); }
  }

  lemma {:induction false} RevokeListedIsAllowed(d: Docs, op: Op, list: seq<CredentialId>, keep: CredentialId)
    ensures AllAllowed(d, op, RevokeListed(d, list, keep))
    ensures ListedRevoked(d, ApplyAll(d, RevokeListed(d, list, keep)), list, keep)
    decreases |list|
  {
    if list != [] {
      var first := RevokeIfLive(d, list[0], keep);
      RevokeOne(d, op, list[0], keep);
      var mid := ApplyAll(d, first);
      RevokeListedIsAllowed(mid, op, list[1..], keep);
      AllowedConcat(d, op, first, RevokeListed(mid, list[1..], keep));
      RevokedOneMore(d, mid, ApplyAll(d, RevokeListed(d, list, keep)), list, keep);
    }
  }

  /** The store once a recovery has claimed its ticket and issued its credential. */
  function RecoverIssued(d: Docs, req: RecoverRequest): Docs {
    Issued(d.(claims := d.claims[req.ticket := req.id]), RecoveryCredential(req.worker, req.id), req.worker,
        req.publicKey)
  }

  function Restored(w: Worker): Worker {
    if w.active then w else w.(active := true, reason := None)
  }

  /** The store when a recovery is about to commit, against the store it issued into. */
  predicate IsRecovered(d: Docs, req: RecoverRequest, issued: Docs, d': Docs)
    requires req.worker in d.workers
  {
    && d'.recoveries == d.recoveries
    && ListedRevoked(issued, d'.(workers := d.workers), MarkersOf(issued, req.worker),
         RecoveryCredential(req.worker, req.id))
    && d'.workers == d.workers[req.worker := Restored(d.workers[req.worker])]
  }

  lemma RecoverWritesAreAllowed(d: Docs, req: RecoverRequest, now: nat)
    requires RecoverProceeds(d, req, now)
    ensures AllAllowed(d, RecoverOp(req), RecoverWrites(d, req))
    ensures IsRecovered(d, req, RecoverIssued(d, req), ApplyAll(d, RecoverWrites(d, req)))
  {
    var op := RecoverOp(req);
    var c := RecoveryCredential(req.worker, req.id);
    var start := ClaimWrites(d, req.ticket, req.id) + IssueWrites(c, req.worker, req.publicKey);
    ClaimAndIssue(d, op, req.ticket, req.id, c, req.worker, req.publicKey);
    var issued := RecoverIssued(d, req);
    var list := MarkersOf(issued, req.worker);
    RevokeListedIsAllowed(issued, op, list, c);
    var revokes := RevokeListed(issued, list, c);
    AllowedConcat(d, op, start, revokes);
    RestoreIsAllowed(ApplyAll(issued, revokes), op, req.worker);
    AllowedConcat(d, op, start + revokes, RestoreWrites(d, req.worker));
  }

  lemma RestoreIsAllowed(d: Docs, op: Op, w: WorkerId)
    requires op.RecoverOp? && w in d.workers && d.workers[w].reason != Some(Security)
    ensures AllAllowed(d, op, RestoreWrites(d, w))
    ensures ApplyAll(d, RestoreWrites(d, w)) == d.(workers := d.workers[w := Restored(d.workers[w])])
  {
    if d.workers[w].active {
      assert d.workers[w := d.workers[w]] == d.workers;
    } else {
      OneWrite(d, op, PutWorker(w, d.workers[w].(active := true, reason := None)));
    }
  }

  lemma RecoverIsAllowed(d: Docs, req: RecoverRequest, now: nat)
    requires Inv(d) && RecoverProceeds(d, req, now)
    ensures AllAllowed(d, RecoverOp(req), Recover(d, req, now).writes)
  {
    RecoverWritesAreAllowed(d, req, now);
    RecordIsAllowed(d, RecoverOp(req), RecoverWrites(d, req), req.id, (ContentOf(req), RecoverResponseOf(d, req, now)));
  }

  lemma RecordLast(d: Docs, ws: seq<Write>, id: string, doc: (RecoverContent, RecoverResponse))
    ensures var prepared := ApplyAll(d, ws);
            ApplyAll(d, ws + [PutRecovery(id, doc)]) == prepared.(recoveries := prepared.recoveries[id := doc])
  {
    ApplyAppend(d, ws, PutRecovery(id, doc));
  }

  lemma RecordIsAllowed(d: Docs, op: Op, ws: seq<Write>, id: string, doc: (RecoverContent, RecoverResponse))
    requires AllAllowed(d, op, ws) && id !in ApplyAll(d, ws).recoveries
    ensures AllAllowed(d, op, ws + [PutRecovery(id, doc)])
  {
    AppendAllowed(d, op, ws, PutRecovery(id, doc));
  }

  /** Every write of every operation is one the rules allow at the moment it is made. */
  lemma OperationIsAllowed(d: Docs, op: Op, now: nat)
    requires Inv(d)
    ensures AllAllowed(d, op, Execute(d, op, now).writes)
  {
    match op
    case CreateTicketOp(_, _, _, _) =>
      var writes := Execute(d, op, now).writes;
      if writes != [] { OneWrite(d, op, writes[0]); }
    case EnrollOp(req) => if EnrollProceeds(d, req, now) { EnrollIsAllowed(d, req, now); }
    case VerifyOp(_) =>
      var writes := Execute(d, op, now).writes;
      if writes != [] { OneWrite(d, op, writes[0]); }
    case RotateOp(caller, req) => RotateIsAllowed(d, caller, req, now);
    case RevokeCredentialOp(_, _, _) => CommandsAreAllowed(d, op, now);
    case RevokeWorkerOp(_, _, _) => CommandsAreAllowed(d, op, now);
    case ReinstateOp(_, _) => CommandsAreAllowed(d, op, now);
    case RecoverOp(req) => if RecoverProceeds(d, req, now) { RecoverIsAllowed(d, req, now); }
    case ChangeSlotOp(s, v) => OneWrite(d, op, PutSlot(s, v));
    case IssueOp(id, facts) => IssueIsAllowed(d, id, facts);
  }

  lemma EventIsAllowed(d: Docs, e: Event)
    requires Inv(d)
    ensures AllAllowed(d, e.op, Kept(d, e)) && Inv(Next(d, e))
  {
    OperationIsAllowed(d, e.op, e.now);
    var writes := Execute(d, e.op, e.now).writes;
    if e.kept < |writes| { AllowedPrefix(d, e.op, writes, e.kept); }
    AllAllowedKeepsInv(d, e.op, Kept(d, e));
  }

  lemma {:induction false} RunKeepsInv(d: Docs, events: seq<Event>)
    requires Inv(d)
    ensures Inv(After(d, events))
    decreases |events|
  {
    if events != [] {
      EventIsAllowed(d, events[0]);
      RunKeepsInv(Next(d, events[0]), events[1..]);
    }
  }

  // -- what never goes away ------------------------------------------------------------

  /** Records, claims and mappings are written once; an issued credential keeps its owner and its revocation. */
  predicate Preserves(d: Docs, d': Docs) {
    && Contains(d'.claims, d.claims) && Contains(d'.enrollments, d.enrollments)
    && Contains(d'.rotations, d.rotations) && Contains(d'.recoveries, d.recoveries)
    && Contains(d'.commands, d.commands) && Contains(d'.byBenchmark, d.byBenchmark)
    && Contains(d'.issuances, d.issuances) && Contains(d'.replay, d.replay)
    && (forall w :: w in d.workers ==> w in d'.workers)
    && (forall c :: c in d.credentials && IsIssued(d, c) ==> KeepsCredential(d, d', c))
  }

  predicate KeepsCredential(d: Docs, d': Docs, c: CredentialId)
    requires c in d.credentials
  {
    && c in d'.credentials && IsIssued(d', c)
    && d'.credentials[c].worker == d.credentials[c].worker && d'.credentials[c].publicKey == d.credentials[c].publicKey
    && (d.credentials[c].revoked ==> d'.credentials[c].revoked)
  }

  lemma AllowedKeepsCredentials(d: Docs, op: Op, w: Write)
    requires Allowed(d, op, w)
    ensures forall c :: c in d.credentials && IsIssued(d, c) ==> KeepsCredential(d, Apply(d, w), c)
  {
    var d' := Apply(d, w);
    if w.PutCredential? {
      assert d'.enrollments == d.enrollments && d'.rotations == d.rotations && d'.recoveries == d.recoveries;
    } else {
      assert d'.credentials == d.credentials;
      assert d.enrollments.Keys <= d'.enrollments.Keys && d.rotations.Keys <= d'.rotations.Keys
        && d.recoveries.Keys <= d'.recoveries.Keys;
    }
  }

  lemma AllowedPreserves(d: Docs, op: Op, w: Write)
    requires Allowed(d, op, w)
    ensures Preserves(d, Apply(d, w))
  {
    AllowedKeepsCredentials(d, op, w);
  }

  lemma PreservesIsTransitive(a: Docs, b: Docs, c: Docs)
    requires Preserves(a, b) && Preserves(b, c)
    ensures Preserves(a, c)
  {
    forall x | x in a.credentials && IsIssued(a, x) ensures KeepsCredential(a, c, x) {
      assert KeepsCredential(a, b, x);
      assert KeepsCredential(b, c, x);
    }
  }

  lemma {:induction false} AllAllowedPreserves(d: Docs, op: Op, ws: seq<Write>)
    requires AllAllowed(d, op, ws)
    ensures Preserves(d, ApplyAll(d, ws))
    decreases |ws|
  {
    if ws != [] {
      AllowedPreserves(d, op, ws[0]);
      AllAllowedPreserves(Apply(d, ws[0]), op, ws[1..]);
      PreservesIsTransitive(d, Apply(d, ws[0]), ApplyAll(d, ws));
    }
  }

  /** Whatever is committed stays committed, in every run and across every crash. */
  lemma {:induction false} RunPreserves(d: Docs, events: seq<Event>)
    requires Inv(d)
    ensures Preserves(d, After(d, events))
    decreases |events|
  {
    if events != [] {
      var next := Next(d, events[0]);
      EventIsAllowed(d, events[0]);
      AllAllowedPreserves(d, events[0].op, Kept(d, events[0]));
      RunPreserves(next, events[1..]);
      PreservesIsTransitive(d, next, After(d, events));
    }
  }
}
