/**
 * What the ledger promises over every interleaving of admissions with
 * begin, resolve, reconcile and everything else that writes its tables.
 */
module LedgerTheorems {
  import opened Wrappers
  import opened Ledger
  import opened LedgerSafety
  import opened LedgerMeaning

  lemma ReachableIsSound(ops: seq<Op>)
    ensures Inv(After(EMPTY, ops))
  {
    RunKeepsInv(EMPTY, ops);
  }

  // ------------------------------------------------------------------- lanes

  /** Of any two attempts in a network's precommit lane or on one benchmark, one is settled. */
  lemma LanesHoldOneWrite(ops: seq<Op>, network: Network, i: nat, j: nat)
    requires i < |After(EMPTY, ops).attempts| && j < |After(EMPTY, ops).attempts|
    ensures var attempts := After(EMPTY, ops).attempts;
      InPrecommitLane(attempts[i], network) && InPrecommitLane(attempts[j], network) ==> i == j
    ensures var attempts := After(EMPTY, ops).attempts;
      forall b :: InBenchmarkLane(attempts[i], network, b) && InBenchmarkLane(attempts[j], network, b) ==> i == j
  {
    ReachableIsSound(ops);
    var attempts := After(EMPTY, ops).attempts;
    if i < j {
      assert !Clash(attempts[i], attempts[j]);
    } else if j < i {
      assert !Clash(attempts[j], attempts[i]);
    }
  }

  /** A definitive outcome is never rewritten, and an ambiguous one only becomes definitive. */
  lemma {:induction false} OutcomesOnlySettle(db: Db, ops: seq<Op>, id: nat)
    requires id < |db.attempts|
    ensures id < |After(db, ops).attempts|
    ensures OutcomeFollows(db.attempts[id].outcome, After(db, ops).attempts[id].outcome)
    ensures db.attempts[id].outcome == Some(Accepted) || db.attempts[id].outcome == Some(Rejected) ==>
      After(db, ops).attempts[id] == db.attempts[id]
  {
    RunFollows(db, ops);
  }

  // ------------------------------------------------------------- generations

  function Generations(db: Db, owner: WorkflowKey): set<IntentKey> {
    set k | k in db.intents && k.owner == owner && k.kind == Precommit
  }

  /** A precommit intent written straight to the table, past the admission transaction. */
  predicate BypassesAdmission(db: Db, op: Op, owner: WorkflowKey) {
    && op.CreateIntentOp?
    && op.intent.owner == owner
    && op.intent.kind == Precommit
    && op.benchmark.None?
    && op.intent !in db.intents
    && op.intent.generation >= 1
  }

  lemma OtherOpsAddNoGeneration(db: Db, op: Op, owner: WorkflowKey)
    requires !op.AdmitOp? && !BypassesAdmission(db, op, owner)
    ensures Generations(Next(db, op), owner) == Generations(db, owner)
  {
  }

  lemma SentBlocksAdmission(db: Db, d: NewDecision, limit: int, owner: WorkflowKey)
    requires TransmittedPrecommit(db.attempts, owner)
    ensures Generations(Next(db, AdmitOp(d, limit)), owner) == Generations(db, owner)
    ensures d.owner == owner ==> Admit(db, d, limit).Err?
  {
  }

  /**
   * While a precommit attempt of the workflow is unresolved, ambiguous or
   * accepted, the one step that adds a generation is an intent created
   * outside the admission transaction.
   */
  lemma NoGenerationWhileSent(db: Db, op: Op, owner: WorkflowKey)
    requires Inv(db) && TransmittedPrecommit(db.attempts, owner)
    ensures Generations(Next(db, op), owner) == Generations(db, owner) <==> !BypassesAdmission(db, op, owner)
  {
    if op.AdmitOp? {
      SentBlocksAdmission(db, op.decision, op.limit, owner);
    } else if BypassesAdmission(db, op, owner) {
      var i :| 0 <= i < |db.attempts| && IsPrecommitOf(db.attempts[i], owner) && Transmitted(db.attempts[i]);
      assert AttemptMatches(db.attempts[i], db.intents);
      assert owner in db.workflows;
      assert op.intent in Generations(Next(db, op), owner);
    } else {
      OtherOpsAddNoGeneration(db, op, owner);
    }
  }

  predicate AcceptedPrecommit(db: Db, owner: WorkflowKey) {
    exists i :: 0 <= i < |db.attempts| && IsPrecommitOf(db.attempts[i], owner)
      && db.attempts[i].outcome == Some(Accepted)
  }

  predicate ThroughAdmission(ops: seq<Op>) {
    forall i :: 0 <= i < |ops| ==> !(ops[i].CreateIntentOp? && ops[i].intent.kind == Precommit)
  }

  lemma {:induction false} AcceptedStays(db: Db, ops: seq<Op>, owner: WorkflowKey)
    requires AcceptedPrecommit(db, owner)
    ensures AcceptedPrecommit(After(db, ops), owner)
  {
    RunFollows(db, ops);
    var i :| 0 <= i < |db.attempts| && IsPrecommitOf(db.attempts[i], owner) && db.attempts[i].outcome == Some(Accepted);
    assert After(db, ops).attempts[i] == db.attempts[i];
  }

  /** Once a precommit was accepted, no run ever gives the workflow another generation. */
  lemma {:induction false} NoGenerationOnceAccepted(db: Db, ops: seq<Op>, owner: WorkflowKey)
    requires Inv(db) && AcceptedPrecommit(db, owner) && ThroughAdmission(ops)
    ensures Generations(After(db, ops), owner) == Generations(db, owner)
  {
    if ops != [] {
      var front := ops[..|ops| - 1];
      var before := After(db, front);
      NoGenerationOnceAccepted(db, front, owner);
      RunKeepsInv(db, front);
      AcceptedStays(db, front, owner);
      NoGenerationWhileSent(before, ops[|ops| - 1], owner);
    }
  }

  /** The attempt is a precommit of the workflow, waiting for its response or for reconciliation. */
  predicate Awaits(db: Db, owner: WorkflowKey, id: nat, op: Op) {
    && id < |db.attempts| && db.attempts[id].intent.owner == owner && db.attempts[id].intent.kind == Precommit
    && ((op == ResolveOp(id, Accepted) && db.attempts[id].outcome == None)
        || (op == ReconcileOp(id, Accepted) && db.attempts[id].outcome == Some(Ambiguous)))
  }

  /**
   * A precommit resolved as accepted, or an ambiguous one reconciled as
   * accepted, stays accepted in every later state, and the workflow never
   * gets another generation.
   */
  lemma AcceptanceIsForever(db: Db, owner: WorkflowKey, id: nat, op: Op, ops: seq<Op>)
    requires Inv(db) && Awaits(db, owner, id, op)
    ensures id < |After(Next(db, op), ops).attempts|
    ensures After(Next(db, op), ops).attempts[id] == db.attempts[id].(outcome := Some(Accepted))
    ensures AcceptedPrecommit(After(Next(db, op), ops), owner)
    ensures ThroughAdmission(ops) ==> Generations(After(Next(db, op), ops), owner) == Generations(Next(db, op), owner)
  {
    var accepted := Next(db, op);
    assert accepted.attempts[id] == db.attempts[id].(outcome := Some(Accepted));
    StepKeepsInv(db, op);
    assert AcceptedPrecommit(accepted, owner);
    RunFollows(accepted, ops);
    AcceptedStays(accepted, ops, owner);
    if ThroughAdmission(ops) { NoGenerationOnceAccepted(accepted, ops, owner); }
  }

  // ---------------------------------------------------------------- decisions

  function DecisionsOf(decisions: seq<Decision>, owner: WorkflowKey): seq<Decision> {
    if decisions == [] then [] else
    var last := decisions[|decisions| - 1];
    DecisionsOf(decisions[..|decisions| - 1], owner) + if last.owner == owner then [last] else []
  }

  /** In every reachable state admission succeeds exactly where the tables allow it. */
  lemma AdmitsExactly(db: Db, ops: seq<Op>, d: NewDecision, limit: int)
    requires Inv(db)
    ensures Admit(After(db, ops), d, limit).Ok? <==> MayAdmit(After(db, ops), d, limit)
  {
    RunKeepsInv(db, ops);
    AdmitIs(After(db, ops), d, limit);
  }

  /** One step appends at most one decision, and only for a workflow that was absent or still decided just before. */
  lemma DecisionNeedsOpenWorkflow(db: Db, op: Op)
    ensures var after := Next(db, op).decisions;
      after == db.decisions
      || (exists d :: after == db.decisions + [d]
            && (d.owner !in db.workflows || db.workflows[d.owner].state == Decided))
  {
    if op.AdmitOp? && Execute(db, op).Ok? {
      AdmitIs(db, op.decision, op.limit);
      assert Next(db, op).decisions == db.decisions + [RecordDecision(db, op.decision, op.limit)];
    }
  }

  /** `ops[i]` appended the decision at `k`, for a workflow absent or still decided just before it. */
  predicate AppendedBy(db: Db, ops: seq<Op>, k: nat, i: nat)
    requires i < |ops| && k < |After(db, ops).decisions|
  {
    var before := After(db, ops[..i]);
    var d := After(db, ops).decisions[k];
    && |before.decisions| == k
    && Next(before, ops[i]).decisions == before.decisions + [d]
    && (d.owner !in before.workflows || before.workflows[d.owner].state == Decided)
  }

  /** Every decision a run appended was appended by such a step of it. */
  lemma {:induction false} EveryDecisionHadOpenWorkflow(db: Db, ops: seq<Op>, k: nat) returns (i: nat)
    requires |db.decisions| <= k < |After(db, ops).decisions|
    ensures i < |ops| && AppendedBy(db, ops, k, i)
  {
    assert ops != [];
    var front := ops[..|ops| - 1];
    var before := After(db, front);
    DecisionNeedsOpenWorkflow(before, ops[|ops| - 1]);
    if k < |before.decisions| {
      i := EveryDecisionHadOpenWorkflow(db, front, k);
      assert front[..i] == ops[..i];
      assert After(db, ops).decisions[k] == before.decisions[k];
    } else {
      i := |ops| - 1;
      assert ops[..i] == front;
    }
  }

  /** A workflow past its first state never gains a decision again, in any run. */
  lemma {:induction false} NoDecisionOncePast(db: Db, ops: seq<Op>, owner: WorkflowKey)
    requires owner in db.workflows && db.workflows[owner].state != Decided
    ensures DecisionsOf(After(db, ops).decisions, owner) == DecisionsOf(db.decisions, owner)
  {
    if ops != [] {
      var before := After(db, ops[..|ops| - 1]);
      NoDecisionOncePast(db, ops[..|ops| - 1], owner);
      RunFollows(db, ops[..|ops| - 1]);
      DecisionNeedsOpenWorkflow(before, ops[|ops| - 1]);
      if d :| After(db, ops).decisions == before.decisions + [d] {
        assert (before.decisions + [d])[..|before.decisions|] == before.decisions;
      }
    }
  }

  lemma StepKeepsDecided(db: Db, op: Op)
    requires PrecommitsDecided(db.decisions, db.intents)
    requires !(op.CreateIntentOp? && op.intent.kind == Precommit)
    ensures PrecommitsDecided(Next(db, op).decisions, Next(db, op).intents)
  {
    var after := Next(db, op);
    forall k | k in after.intents && k.kind == Precommit
      ensures DecisionExists(after.decisions, k.owner, k.generation)
    {
      StepFollows(db, op);
      if k in db.intents {
        assert DecisionExists(db.decisions, k.owner, k.generation);
        var i :| 0 <= i < |db.decisions| && db.decisions[i].owner == k.owner
          && db.decisions[i].generation == k.generation;
        assert after.decisions[i] == db.decisions[i];
      } else {
        var last := |db.decisions|;
        assert after.decisions[last].owner == k.owner && after.decisions[last].generation == k.generation;
      }
    }
  }

  lemma {:induction false} RunKeepsDecided(ops: seq<Op>)
    requires ThroughAdmission(ops)
    ensures PrecommitsDecided(After(EMPTY, ops).decisions, After(EMPTY, ops).intents)
  {
    if ops != [] {
      RunKeepsDecided(ops[..|ops| - 1]);
      StepKeepsDecided(After(EMPTY, ops[..|ops| - 1]), ops[|ops| - 1]);
    }
  }

  /** A decision and its precommit intent exist together or not at all, and once per generation. */
  lemma DecisionIffIntent(ops: seq<Op>, owner: WorkflowKey, generation: int)
    requires ThroughAdmission(ops)
    ensures var db := After(EMPTY, ops);
      DecisionExists(db.decisions, owner, generation) <==> IntentKey(owner, Precommit, generation) in db.intents
    ensures var db := After(EMPTY, ops);
      forall i, j :: 0 <= i < j < |db.decisions| ==>
        db.decisions[i].owner != db.decisions[j].owner || db.decisions[i].generation != db.decisions[j].generation
  {
    ReachableIsSound(ops);
    RunKeepsDecided(ops);
  }

  // ----------------------------------------------------------------- capacity

  lemma SubsetIsNoLarger<T>(a: set<T>, b: set<T>)
    requires a <= b
    ensures |a| <= |b|
  {
    if a != b {
      var x :| x in b && x !in a;
      SubsetIsNoLarger(a, b - {x});
    }
  }

  lemma AdmitOpensAtMostOne(db: Db, d: NewDecision, limit: int, network: Network)
    requires Admit(db, d, limit).Ok?
    ensures var open := OpenIntervals(Admit(db, d, limit).value.workflows, network);
      |open| <= |OpenIntervals(db.workflows, network)| || |open| <= limit
  {
    var before := OpenIntervals(db.workflows, network);
    var after := OpenIntervals(Admit(db, d, limit).value.workflows, network);
    if d.owner.network == network && d.owner !in db.workflows {
      assert after == before + {d.owner};
    } else {
      assert after == before;
    }
  }

  lemma OtherOpsOpenNothing(db: Db, op: Op, network: Network)
    requires !op.AdmitOp?
    ensures OpenIntervals(Next(db, op).workflows, network) <= OpenIntervals(db.workflows, network)
  {
    StepFollows(db, op);
  }

  predicate LimitsWithin(ops: seq<Op>, limit: int) {
    forall i :: 0 <= i < |ops| && ops[i].AdmitOp? ==> ops[i].limit <= limit
  }

  /** The open intervals of a network never outnumber the largest limit anyone admitted under. */
  lemma {:induction false} CapacityIsNeverExceeded(ops: seq<Op>, limit: nat, network: Network)
    requires LimitsWithin(ops, limit)
    ensures |OpenIntervals(After(EMPTY, ops).workflows, network)| <= limit
  {
    if ops == [] {
      assert OpenIntervals(EMPTY.workflows, network) == {};
    } else {
      var front, op := ops[..|ops| - 1], ops[|ops| - 1];
      var before := After(EMPTY, front);
      CapacityIsNeverExceeded(front, limit, network);
      if op.AdmitOp? {
        if Execute(before, op).Ok? {
          assert ops[|ops| - 1].limit <= limit;
          AdmitOpensAtMostOne(before, op.decision, op.limit, network);
        }
      } else {
        OtherOpsOpenNothing(before, op, network);
        SubsetIsNoLarger(OpenIntervals(After(EMPTY, ops).workflows, network), OpenIntervals(before.workflows, network));
      }
    }
  }

  // ------------------------------------------------------------------ anchors

  /** The snapshot rows behind committed decisions never step back in (height, block id). */
  lemma AnchorsNeverStepBack(ops: seq<Op>, i: nat, j: nat) returns (p: Snapshot, q: Snapshot)
    requires i < j < |After(EMPTY, ops).decisions|
    requires After(EMPTY, ops).decisions[i].owner.network == After(EMPTY, ops).decisions[j].owner.network
    ensures var db := After(EMPTY, ops);
      p in db.snapshots && Anchors(p, db.decisions[i]) && q in db.snapshots && Anchors(q, db.decisions[j])
    ensures !Later(p, q)
    ensures p.height <= q.height
  {
    ReachableIsSound(ops);
    var db := After(EMPTY, ops);
    assert Anchored(db.snapshots, db.decisions[i]) && Anchored(db.snapshots, db.decisions[j]);
    var m :| 0 <= m < |db.snapshots| && Anchors(db.snapshots[m], db.decisions[i]);
    var n :| 0 <= n < |db.snapshots| && Anchors(db.snapshots[n], db.decisions[j]);
    p, q := db.snapshots[m], db.snapshots[n];
    assert AnchorNotLater(db.snapshots, db.decisions[i], db.decisions[j]);
  }

  // ------------------------------------------------------------------- fences

  /** A fence that was passed, by a claim or a release, never begins another attempt. */
  lemma PassedFenceNeverBegins(db: Db, ops: seq<Op>, key: IntentKey, lease: LeaseKey, fence: int)
    requires lease in db.leases && fence < db.leases[lease].fence
    ensures BeginFenced(After(db, ops), key, lease, fence) == Err(FenceLost(CurrentFence(After(db, ops), lease)))
  {
    RunFollows(db, ops);
  }

  /** Of two successful claims the later one holds the higher fence, so only it can begin. */
  lemma LaterClaimWins(db: Db, lease: LeaseKey, first: string, at: int, length: int, ops: seq<Op>,
                       second: string, now: int, duration: int, key: IntentKey)
    requires Claim(db, lease, first, at, length).Ok?
    requires Claim(After(Claim(db, lease, first, at, length).value, ops), lease, second, now, duration).Ok?
    ensures var held := Claim(db, lease, first, at, length).value;
      var taken := Claim(After(held, ops), lease, second, now, duration).value;
      && held.leases[lease].fence < taken.leases[lease].fence
      && BeginFenced(taken, key, lease, held.leases[lease].fence).Err?
      && BeginFenced(taken, key, lease, taken.leases[lease].fence) == Begin(taken, key)
  {
    RunFollows(Claim(db, lease, first, at, length).value, ops);
  }
}
