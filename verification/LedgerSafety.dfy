/**
 * What every operation on the ledger keeps, one table at a time, and what a
 * run can do to a row once it is written.
 */
module LedgerSafety {
  import opened Wrappers
  import opened Ledger

  // -------------------------------------------------------------- invariants

  /** Two attempts that may not both be unresolved. */
  predicate Clash(a: Attempt, b: Attempt) {
    && Unresolved(a)
    && Unresolved(b)
    && a.intent.owner.network == b.intent.owner.network
    && ((a.intent.kind == Precommit && b.intent.kind == Precommit) || (a.benchmark.Some? && a.benchmark == b.benchmark))
  }

  predicate LanesInv(attempts: seq<Attempt>) {
    forall i, j :: 0 <= i < j < |attempts| ==> !Clash(attempts[i], attempts[j])
  }

  predicate NumbersInv(attempts: seq<Attempt>) {
    && (forall i :: 0 <= i < |attempts| ==> attempts[i].no >= 1)
    && (forall i, j :: 0 <= i < j < |attempts| && attempts[i].intent == attempts[j].intent ==>
          attempts[i].no < attempts[j].no)
  }

  /** An ambiguous attempt's intent never looks like one that was not attempted. */
  predicate AttemptMatches(a: Attempt, intents: map<IntentKey, Intent>) {
    && a.intent in intents
    && a.benchmark == intents[a.intent].benchmark
    && (a.outcome == Some(Ambiguous) ==> intents[a.intent].state != Prepared)
  }

  predicate AttemptsInv(attempts: seq<Attempt>, intents: map<IntentKey, Intent>) {
    forall i :: 0 <= i < |attempts| ==> AttemptMatches(attempts[i], intents)
  }

  predicate IntentsInv(intents: map<IntentKey, Intent>, workflows: map<WorkflowKey, Workflow>) {
    forall k :: k in intents ==> k.owner in workflows && (intents[k].benchmark.None? <==> k.kind == Precommit)
  }

  predicate IntervalsInv(workflows: map<WorkflowKey, Workflow>) {
    forall k :: k in workflows ==>
      (workflows[k].toBlock == None <==> !IsTerminal(workflows[k].state) && workflows[k].state != Verified)
  }

  predicate DecisionsInv(decisions: seq<Decision>, intents: map<IntentKey, Intent>) {
    && (forall i :: 0 <= i < |decisions| ==>
          IntentKey(decisions[i].owner, Precommit, decisions[i].generation) in intents)
    && (forall i, j :: 0 <= i < j < |decisions| ==>
          decisions[i].owner != decisions[j].owner || decisions[i].generation != decisions[j].generation)
    && (forall i :: 0 <= i < |decisions| ==> 0 <= decisions[i].unverified < decisions[i].limit)
  }

  predicate PrecommitsDecided(decisions: seq<Decision>, intents: map<IntentKey, Intent>) {
    forall k :: k in intents && k.kind == Precommit ==> DecisionExists(decisions, k.owner, k.generation)
  }

  /** The database's index: at most one usable snapshot per network and block. */
  predicate UsableAreUnique(rows: seq<Snapshot>) {
    forall i, j :: 0 <= i < j < |rows| && rows[i].usable && rows[j].usable && rows[i].network == rows[j].network ==>
      rows[i].block != rows[j].block
  }

  /** `r` is the usable snapshot the decision is anchored to. */
  predicate Anchors(r: Snapshot, d: Decision) {
    Usable(r, d.owner.network) && r.block == d.block && r.digest == d.digest
  }

  predicate Anchored(rows: seq<Snapshot>, d: Decision) {
    exists p :: 0 <= p < |rows| && Anchors(rows[p], d)
  }

  /** No row anchoring `d` is later than a row anchoring `e`. */
  predicate AnchorNotLater(rows: seq<Snapshot>, d: Decision, e: Decision) {
    forall p, q :: 0 <= p < |rows| && 0 <= q < |rows| && Anchors(rows[p], d) && Anchors(rows[q], e) ==>
      !Later(rows[p], rows[q])
  }

  predicate AnchorsInv(decisions: seq<Decision>, rows: seq<Snapshot>) {
    && UsableAreUnique(rows)
    && (forall i :: 0 <= i < |decisions| ==> Anchored(rows, decisions[i]))
    && (forall i, j :: 0 <= i < j < |decisions| && decisions[i].owner.network == decisions[j].owner.network ==>
          AnchorNotLater(rows, decisions[i], decisions[j]))
  }

  predicate Inv(db: Db) {
    && LanesInv(db.attempts)
    && NumbersInv(db.attempts)
    && AttemptsInv(db.attempts, db.intents)
    && IntentsInv(db.intents, db.workflows)
    && IntervalsInv(db.workflows)
    && DecisionsInv(db.decisions, db.intents)
    && AnchorsInv(db.decisions, db.snapshots)
  }

  // ---------------------------------------------------------------- attempts

  lemma BeginKeepsInv(db: Db, key: IntentKey)
    requires Inv(db) && Begin(db, key).Ok?
    ensures Inv(Begin(db, key).value)
  {
    var after := Begin(db, key).value;
    var n := |db.attempts|;
    forall i | 0 <= i < n ensures !Clash(db.attempts[i], after.attempts[n]) {
      var a := db.attempts[i];
      assert !InPrecommitLane(a, key.owner.network) || key.kind != Precommit;
      if a.benchmark.Some? { assert AttemptMatches(a, db.intents); }
    }
    forall i, j | 0 <= i < j <= n ensures !Clash(after.attempts[i], after.attempts[j]) {
      if j < n { assert after.attempts[i] == db.attempts[i] && after.attempts[j] == db.attempts[j]; }
    }
  }

  /** Writing one attempt's outcome keeps the lanes, unless it re-enters one. */
  lemma OutcomeKeepsLanes(attempts: seq<Attempt>, id: nat, outcome: Outcome)
    requires id < |attempts| && LanesInv(attempts) && NumbersInv(attempts) && Unresolved(attempts[id])
    ensures LanesInv(attempts[id := attempts[id].(outcome := Some(outcome))])
    ensures NumbersInv(attempts[id := attempts[id].(outcome := Some(outcome))])
  {
    var after := attempts[id := attempts[id].(outcome := Some(outcome))];
    forall i, j | 0 <= i < j < |after| ensures !Clash(after[i], after[j]) {
      assert !Clash(attempts[i], attempts[j]);
    }
  }

  lemma ResolveKeepsInv(db: Db, id: nat, outcome: Outcome)
    requires Inv(db) && Resolve(db, id, outcome).Ok?
    ensures Inv(Resolve(db, id, outcome).value)
  {
    OutcomeKeepsLanes(db.attempts, id, outcome);
    var after := Resolve(db, id, outcome).value;
    forall i | 0 <= i < |after.attempts| ensures AttemptMatches(after.attempts[i], after.intents) {
      assert AttemptMatches(db.attempts[i], db.intents);
    }
  }

  lemma ReconcileKeepsInv(db: Db, id: nat, settled: Outcome)
    requires Inv(db) && Reconcile(db, id, settled).Ok?
    ensures Inv(Reconcile(db, id, settled).value)
  {
    OutcomeKeepsLanes(db.attempts, id, settled);
    var after := Reconcile(db, id, settled).value;
    forall i | 0 <= i < |after.attempts| ensures AttemptMatches(after.attempts[i], after.intents) {
      assert AttemptMatches(db.attempts[i], db.intents);
    }
  }

  // -------------------------------------------------------------- admissions

  lemma AddIntentKeepsAttempts(attempts: seq<Attempt>, intents: map<IntentKey, Intent>, key: IntentKey, intent: Intent)
    requires AttemptsInv(attempts, intents) && key !in intents
    ensures AttemptsInv(attempts, intents[key := intent])
  {
    forall i | 0 <= i < |attempts| ensures AttemptMatches(attempts[i], intents[key := intent]) {
      assert AttemptMatches(attempts[i], intents);
    }
  }

  lemma AnchorRowIsUnique(rows: seq<Snapshot>, d: Decision, p: nat, q: nat)
    requires UsableAreUnique(rows) && p < |rows| && q < |rows| && Anchors(rows[p], d)
    requires Usable(rows[q], d.owner.network) && rows[q].block == d.block
    ensures rows[p] == rows[q]
  {
  }

  lemma NewAnchorIsLast(decisions: seq<Decision>, rows: seq<Snapshot>, d: Decision)
    requires AnchorsInv(decisions, rows)
    requires var newest := Newest(rows, d.owner.network);
      newest.Some? && newest.value.block == d.block && newest.value.digest == d.digest
    ensures AnchorsInv(decisions + [d], rows)
  {
    var newest := Newest(rows, d.owner.network).value;
    var m :| 0 <= m < |rows| && rows[m] == newest;
    assert Anchors(rows[m], d);
    assert Anchored(rows, d);
    var after := decisions + [d];
    forall i, j | 0 <= i < j < |after| && after[i].owner.network == after[j].owner.network
      ensures AnchorNotLater(rows, after[i], after[j])
    {
      if j < |decisions| {
        assert after[i] == decisions[i] && after[j] == decisions[j];
      } else {
        forall p, q | 0 <= p < |rows| && 0 <= q < |rows| && Anchors(rows[p], after[i]) && Anchors(rows[q], d)
          ensures !Later(rows[p], rows[q])
        {
          AnchorRowIsUnique(rows, d, m, q);
        }
      }
    }
  }

  lemma AdmitKeepsDecisions(db: Db, d: NewDecision, limit: int)
    requires DecisionsInv(db.decisions, db.intents) && Admit(db, d, limit).Ok?
    ensures DecisionsInv(Admit(db, d, limit).value.decisions, Admit(db, d, limit).value.intents)
  {
    var after := Admit(db, d, limit).value;
    forall i, j | 0 <= i < j < |after.decisions|
      ensures after.decisions[i].owner != after.decisions[j].owner
        || after.decisions[i].generation != after.decisions[j].generation
    {
      if j < |db.decisions| {
        assert after.decisions[i] == db.decisions[i] && after.decisions[j] == db.decisions[j];
      } else {
        assert after.decisions[i] == db.decisions[i];
        assert !DecisionExists(db.decisions, d.owner, d.generation);
      }
    }
  }

  lemma AdmitKeepsInv(db: Db, d: NewDecision, limit: int)
    requires Inv(db) && Admit(db, d, limit).Ok?
    ensures Inv(Admit(db, d, limit).value)
  {
    AdmitKeepsDecisions(db, d, limit);
    NewAnchorIsLast(db.decisions, db.snapshots, RecordDecision(db, d, limit));
    AddIntentKeepsAttempts(db.attempts, db.intents, PrecommitKey(d), Intent(None, d.payload, Prepared));
  }

  lemma PersistKeepsAnchors(decisions: seq<Decision>, rows: seq<Snapshot>, r: Snapshot)
    requires AnchorsInv(decisions, rows)
    requires r.usable ==> !HasUsable(rows, r.network, r.block)
    ensures AnchorsInv(decisions, rows + [r])
  {
    var after := rows + [r];
    forall d | Anchored(rows, d) ensures Anchored(after, d) && !Anchors(r, d) {
      var p :| 0 <= p < |rows| && Anchors(rows[p], d);
      assert after[p] == rows[p];
    }
    forall i, j | 0 <= i < j < |decisions| && decisions[i].owner.network == decisions[j].owner.network
      ensures AnchorNotLater(after, decisions[i], decisions[j])
    {
      assert Anchored(rows, decisions[i]) && Anchored(rows, decisions[j]);
      assert AnchorNotLater(rows, decisions[i], decisions[j]);
    }
  }

  // ------------------------------------------------------------------- steps

  lemma MoveKeepsInv(db: Db, owner: WorkflowKey, e: Evidence, at: int)
    requires Inv(db) && Move(db, owner, e, at).Ok?
    ensures Inv(Move(db, owner, e, at).value)
  {
  }

  lemma IntentStateKeepsInv(db: Db, key: IntentKey, state: IntentState)
    requires Inv(db) && key in db.intents && state != Prepared
    ensures Inv(db.(intents := db.intents[key := db.intents[key].(state := state)]))
  {
    var after := db.intents[key := db.intents[key].(state := state)];
    forall i | 0 <= i < |db.attempts| ensures AttemptMatches(db.attempts[i], after) {
      assert AttemptMatches(db.attempts[i], db.intents);
    }
  }

  lemma StepKeepsInv(db: Db, op: Op)
    requires Inv(db)
    ensures Inv(Next(db, op))
  {
    if Execute(db, op).Err? || Execute(db, op).value == db { return; }
    match op
    case AdmitOp(d, limit) => AdmitKeepsInv(db, d, limit);
    case BeginOp(intent) => BeginKeepsInv(db, intent);
    case BeginFencedOp(intent, lease, fence) => BeginKeepsInv(db, intent);
    case ResolveOp(id, outcome) => ResolveKeepsInv(db, id, outcome);
    case ReconcileOp(id, outcome) => ReconcileKeepsInv(db, id, outcome);
    case CreateIntentOp(intent, benchmark, payload) =>
      AddIntentKeepsAttempts(db.attempts, db.intents, intent, Intent(benchmark, payload, Prepared));
    case SettleOp(intent, confirmed) => IntentStateKeepsInv(db, intent, if confirmed then Confirmed else Refused);
    case MoveOp(owner, evidence, at) => MoveKeepsInv(db, owner, evidence, at);
    case PersistOp(row) => PersistKeepsAnchors(db.decisions, db.snapshots, row);
    case ClaimOp(lease, holder, now, duration) =>
    case ReleaseOp(lease, fence, now) =>
  }

  lemma {:induction false} RunKeepsInv(db: Db, ops: seq<Op>)
    requires Inv(db)
    ensures Inv(After(db, ops))
  {
    if ops != [] {
      RunKeepsInv(db, ops[..|ops| - 1]);
      StepKeepsInv(After(db, ops[..|ops| - 1]), ops[|ops| - 1]);
    }
  }

  // ------------------------------------------------------- what rows become

  /** The only ways an outcome changes: it is recorded, or an ambiguity is settled. */
  predicate OutcomeFollows(before: Option<Outcome>, after: Option<Outcome>) {
    || before == after
    || before == None
    || (before == Some(Ambiguous) && (after == Some(Accepted) || after == Some(Rejected)))
  }

  predicate AttemptsFollow(before: seq<Attempt>, after: seq<Attempt>) {
    && |before| <= |after|
    && (forall i :: 0 <= i < |before| ==>
          && after[i] == before[i].(outcome := after[i].outcome)
          && OutcomeFollows(before[i].outcome, after[i].outcome))
  }

  predicate StateFollows(before: IntentState, after: IntentState) {
    before == after || before == Prepared || (before == OutcomeUnknown && (after == Confirmed || after == Refused))
  }

  predicate IntentsFollow(before: map<IntentKey, Intent>, after: map<IntentKey, Intent>) {
    forall k :: k in before ==>
      && k in after
      && after[k] == before[k].(state := after[k].state)
      && StateFollows(before[k].state, after[k].state)
  }

  /** No way back to decided, none out of a terminal state, and a closed interval stays as it closed. */
  predicate WorkflowFollows(before: Workflow, after: Workflow) {
    && after.fromBlock == before.fromBlock
    && (after.state == Decided ==> before.state == Decided)
    && (IsTerminal(before.state) ==> after == before)
    && (before.toBlock.Some? ==> after.toBlock == before.toBlock)
  }

  predicate WorkflowsFollow(before: map<WorkflowKey, Workflow>, after: map<WorkflowKey, Workflow>) {
    forall k :: k in before ==> k in after && WorkflowFollows(before[k], after[k])
  }

  predicate LeasesFollow(before: map<LeaseKey, Lease>, after: map<LeaseKey, Lease>) {
    forall k :: k in before ==> k in after && before[k].fence <= after[k].fence
  }

  predicate Follows(before: Db, after: Db) {
    && AttemptsFollow(before.attempts, after.attempts)
    && IntentsFollow(before.intents, after.intents)
    && WorkflowsFollow(before.workflows, after.workflows)
    && LeasesFollow(before.leases, after.leases)
    && before.decisions <= after.decisions
    && before.snapshots <= after.snapshots
  }

  lemma AdmitFollows(db: Db, d: NewDecision, limit: int)
    requires Admit(db, d, limit).Ok?
    ensures Follows(db, Admit(db, d, limit).value)
  {
  }

  lemma AttemptFollows(db: Db, op: Op)
    requires op.BeginOp? || op.BeginFencedOp? || op.ResolveOp? || op.ReconcileOp?
    requires Execute(db, op).Ok?
    ensures Follows(db, Execute(db, op).value)
  {
  }

  lemma MoveFollows(db: Db, owner: WorkflowKey, e: Evidence, at: int)
    requires Move(db, owner, e, at).Ok?
    ensures Follows(db, Move(db, owner, e, at).value)
  {
  }

  lemma StepFollows(db: Db, op: Op)
    ensures Follows(db, Next(db, op))
  {
    if Execute(db, op).Ok? {
      if op.AdmitOp? {
        AdmitFollows(db, op.decision, op.limit);
      } else if op.MoveOp? {
        MoveFollows(db, op.owner, op.evidence, op.at);
      } else if op.BeginOp? || op.BeginFencedOp? || op.ResolveOp? || op.ReconcileOp? {
        AttemptFollows(db, op);
      }
    }
  }

  lemma FollowsIsTransitive(a: Db, b: Db, c: Db)
    requires Follows(a, b) && Follows(b, c)
    ensures Follows(a, c)
  {
    forall i | 0 <= i < |a.attempts|
      ensures c.attempts[i] == a.attempts[i].(outcome := c.attempts[i].outcome)
      ensures OutcomeFollows(a.attempts[i].outcome, c.attempts[i].outcome)
    {
      assert b.attempts[i] == a.attempts[i].(outcome := b.attempts[i].outcome);
    }
  }

  /** Over every run, whatever the operations and their order. */
  lemma {:induction false} RunFollows(db: Db, ops: seq<Op>)
    ensures Follows(db, After(db, ops))
  {
    if ops != [] {
      var before := After(db, ops[..|ops| - 1]);
      RunFollows(db, ops[..|ops| - 1]);
      StepFollows(before, ops[|ops| - 1]);
      FollowsIsTransitive(db, before, After(db, ops));
    }
  }
}
