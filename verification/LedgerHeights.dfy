/**
 * The height a decision records is its caller's, and admission compares only
 * the block id and the digest with the snapshot. When do recorded heights
 * follow the anchors all the same?
 */
module LedgerHeights {
  import opened Wrappers
  import opened Ledger
  import opened LedgerSafety
  import Ids

  /** How a caller picks the height to record, from the snapshot it is anchored to. */
  type Policy = Snapshot -> nat

  /** An admission on the network whose workflows admission can create records the policy's height. */
  predicate Keeps(policy: Policy, db: Db, op: Op) {
    op.AdmitOp? && op.decision.owner.network == Testnet && Newest(db.snapshots, Testnet).Some? ==>
      op.decision.height == policy(Newest(db.snapshots, Testnet).value)
  }

  predicate RunKeeps(policy: Policy, ops: seq<Op>) {
    ops == [] ||
    (RunKeeps(policy, ops[..|ops| - 1]) && Keeps(policy, After(EMPTY, ops[..|ops| - 1]), ops[|ops| - 1]))
  }

  predicate NeverStepBack(decisions: seq<Decision>) {
    forall i, j :: 0 <= i < j < |decisions| && decisions[i].owner.network == decisions[j].owner.network == Testnet ==>
      decisions[i].height <= decisions[j].height
  }

  predicate CanBePersisted(r: Snapshot) {
    Usable(r, Testnet) && r.height >= 0
  }

  /** No later snapshot of another block gets a lower height. */
  ghost predicate IsMonotone(policy: Policy) {
    forall p, q :: CanBePersisted(p) && CanBePersisted(q) && p.block != q.block && Later(q, p) ==>
      policy(p) <= policy(q)
  }

  // ---------------------------------------------- a monotone policy is followed

  /** Every decision on the network records the policy's height of a row it is anchored to. */
  ghost predicate Recorded(policy: Policy, decisions: seq<Decision>, rows: seq<Snapshot>) {
    && (forall p :: 0 <= p < |rows| ==> rows[p].height >= 0)
    && (forall i :: 0 <= i < |decisions| && decisions[i].owner.network == Testnet ==>
         RecordedAt(policy, decisions[i], rows))
  }

  ghost predicate RecordedAt(policy: Policy, d: Decision, rows: seq<Snapshot>) {
    exists p :: 0 <= p < |rows| && Anchors(rows[p], d) && d.height == policy(rows[p])
  }

  lemma RecordedStays(policy: Policy, d: Decision, rows: seq<Snapshot>, more: seq<Snapshot>)
    requires RecordedAt(policy, d, rows) && rows <= more
    ensures RecordedAt(policy, d, more)
  {
    var p :| 0 <= p < |rows| && Anchors(rows[p], d) && d.height == policy(rows[p]);
    assert more[p] == rows[p];
  }

  lemma AdmissionRecords(policy: Policy, db: Db, d: NewDecision, limit: int)
    requires Recorded(policy, db.decisions, db.snapshots) && Keeps(policy, db, AdmitOp(d, limit))
      && Admit(db, d, limit).Ok?
    ensures Recorded(policy, Admit(db, d, limit).value.decisions, db.snapshots)
  {
    if d.owner.network == Testnet {
      var newest := Newest(db.snapshots, Testnet).value;
      var p :| 0 <= p < |db.snapshots| && db.snapshots[p] == newest;
      assert Anchors(db.snapshots[p], RecordDecision(db, d, limit));
      assert RecordedAt(policy, RecordDecision(db, d, limit), db.snapshots);
    }
  }

  lemma StepRecords(policy: Policy, db: Db, op: Op)
    requires Recorded(policy, db.decisions, db.snapshots) && Keeps(policy, db, op)
    ensures Recorded(policy, Next(db, op).decisions, Next(db, op).snapshots)
  {
    var after := Next(db, op);
    if Execute(db, op).Ok? {
      if op.AdmitOp? {
        AdmissionRecords(policy, db, op.decision, op.limit);
      } else if op.PersistOp? {
        forall i | 0 <= i < |db.decisions| && db.decisions[i].owner.network == Testnet
          ensures RecordedAt(policy, db.decisions[i], after.snapshots)
        {
          RecordedStays(policy, db.decisions[i], db.snapshots, after.snapshots);
        }
      }
    }
  }

  lemma {:induction false} RunRecords(policy: Policy, ops: seq<Op>)
    requires RunKeeps(policy, ops)
    ensures Recorded(policy, After(EMPTY, ops).decisions, After(EMPTY, ops).snapshots)
  {
    if ops != [] {
      RunRecords(policy, ops[..|ops| - 1]);
      StepRecords(policy, After(EMPTY, ops[..|ops| - 1]), ops[|ops| - 1]);
    }
  }

  lemma OneIsLater(p: Snapshot, q: Snapshot)
    requires p.block != q.block && !Later(p, q)
    ensures Later(q, p)
  {
    Ids.Trichotomy(p.block, q.block);
  }

  lemma MonotoneIsFollowed(policy: Policy, ops: seq<Op>)
    requires IsMonotone(policy) && RunKeeps(policy, ops)
    ensures NeverStepBack(After(EMPTY, ops).decisions)
  {
    var db := After(EMPTY, ops);
    RunKeepsInv(EMPTY, ops);
    RunRecords(policy, ops);
    forall i, j | 0 <= i < j < |db.decisions|
      && db.decisions[i].owner.network == db.decisions[j].owner.network == Testnet
      ensures db.decisions[i].height <= db.decisions[j].height
    {
      var d, e := db.decisions[i], db.decisions[j];
      assert RecordedAt(policy, d, db.snapshots) && RecordedAt(policy, e, db.snapshots);
      var m :| 0 <= m < |db.snapshots| && Anchors(db.snapshots[m], d) && d.height == policy(db.snapshots[m]);
      var n :| 0 <= n < |db.snapshots| && Anchors(db.snapshots[n], e) && e.height == policy(db.snapshots[n]);
      var p, q := db.snapshots[m], db.snapshots[n];
      assert AnchorNotLater(db.snapshots, d, e);
      if p.block == q.block {
        AnchorRowIsUnique(db.snapshots, d, m, n);
      } else {
        OneIsLater(p, q);
        assert CanBePersisted(p) && CanBePersisted(q);
      }
    }
  }

  // ------------------------------------------- a policy that is not steps back

  lemma AfterStep(ops: seq<Op>, op: Op)
    ensures After(EMPTY, ops + [op]) == Next(After(EMPTY, ops), op)
  {
    assert (ops + [op])[..|ops + [op]| - 1] == ops;
  }

  lemma KeepsStep(policy: Policy, ops: seq<Op>, op: Op)
    requires RunKeeps(policy, ops) && Keeps(policy, After(EMPTY, ops), op)
    ensures RunKeeps(policy, ops + [op])
  {
    assert (ops + [op])[..|ops + [op]| - 1] == ops;
  }

  /** A fresh workflow anchored to the newest snapshot, with room left, is admitted. */
  lemma FreshIsAdmitted(db: Db, row: Snapshot, d: NewDecision, limit: int)
    requires Newest(db.snapshots, Testnet) == Some(row) && d.owner.network == Testnet
    requires row.block == d.block && row.digest == d.digest && d.reserve == "0"
    requires d.owner !in db.workflows && d.computeNamed && d.generation >= 1 && d.height >= 0
    requires forall k :: k in db.intents ==> k.owner != d.owner
    requires forall i :: 0 <= i < |db.decisions| ==> db.decisions[i].owner != d.owner
    requires db.attempts == [] && |OpenIntervals(db.workflows, d.owner.network)| < limit
    ensures Admit(db, d, limit).Ok?
    ensures var after := Admit(db, d, limit).value;
      && after.decisions == db.decisions + [RecordDecision(db, d, limit)]
      && after.snapshots == db.snapshots && after.attempts == db.attempts
      && after.workflows == db.workflows[d.owner := Workflow(Decided, d.height, None)]
      && after.intents == db.intents[PrecommitKey(d) := Intent(None, d.payload, Prepared)]
  {
  }

  function DecisionOn(workflow: string, row: Snapshot, height: int): NewDecision {
    NewDecision(WorkflowKey(Testnet, workflow), 1, row.block, row.digest, height, "0", true, "p")
  }

  lemma NewestOfOne(row: Snapshot)
    requires Usable(row, Testnet)
    ensures Newest([row], Testnet) == Some(row)
  {
    assert Usable([row][0], Testnet);
  }

  lemma NewestOfTwo(p: Snapshot, q: Snapshot)
    requires Usable(p, Testnet) && Usable(q, Testnet) && Later(q, p)
    ensures Newest([p, q], Testnet) == Some(q)
  {
    var rows := [p, q];
    assert Usable(rows[0], Testnet) && Usable(rows[1], Testnet);
    assert !Later(rows[1], Newest(rows, Testnet).value);
  }

  /** One workflow decided on `p`, at the height `h`. */
  function DecidedOn(p: Snapshot, h: int): Db {
    var d := DecisionOn("v", p, h);
    Db(map[d.owner := Workflow(Decided, h, None)], [Decision(d.owner, 1, p.block, p.digest, h, 0, 9)],
       map[PrecommitKey(d) := Intent(None, "p", Prepared)], [], [p], map[])
  }

  lemma FirstDecision(p: Snapshot, h: nat)
    requires CanBePersisted(p)
    ensures Next(EMPTY, PersistOp(p)) == EMPTY.(snapshots := [p])
    ensures Next(EMPTY.(snapshots := [p]), AdmitOp(DecisionOn("v", p, h), 9)) == DecidedOn(p, h)
  {
    assert EMPTY.snapshots + [p] == [p];
    var db := EMPTY.(snapshots := [p]);
    NewestOfOne(p);
    assert OpenIntervals(db.workflows, Testnet) == {};
    FreshIsAdmitted(db, p, DecisionOn("v", p, h), 9);
  }

  lemma SecondDecision(p: Snapshot, q: Snapshot, g: nat, h: nat)
    requires CanBePersisted(p) && CanBePersisted(q) && p.block != q.block && Later(q, p)
    ensures var db := DecidedOn(p, g).(snapshots := [p, q]);
      && Next(DecidedOn(p, g), PersistOp(q)) == db
      && Newest(db.snapshots, Testnet) == Some(q)
      && Next(db, AdmitOp(DecisionOn("w", q, h), 9)).decisions ==
           db.decisions + [Decision(WorkflowKey(Testnet, "w"), 1, q.block, q.digest, h, 1, 9)]
  {
    assert [p] + [q] == [p, q];
    var db := DecidedOn(p, g).(snapshots := [p, q]);
    NewestOfTwo(p, q);
    var d := DecisionOn("w", q, h);
    assert OpenIntervals(db.workflows, Testnet) == {WorkflowKey(Testnet, "v")};
    assert "v"[0] != "w"[0];
    FreshIsAdmitted(db, q, d, 9);
  }

  /** The run that persists and decides on `p`, then on `q`, by the policy. */
  lemma RunOnTwo(policy: Policy, p: Snapshot, q: Snapshot) returns (ops: seq<Op>)
    requires CanBePersisted(p) && CanBePersisted(q) && p.block != q.block && Later(q, p)
    ensures RunKeeps(policy, ops)
    ensures var decisions := After(EMPTY, ops).decisions;
      && |decisions| == 2 && decisions[0].owner.network == decisions[1].owner.network == Testnet
      && decisions[0].height == policy(p) && decisions[1].height == policy(q)
  {
    var first, second := AdmitOp(DecisionOn("v", p, policy(p)), 9), AdmitOp(DecisionOn("w", q, policy(q)), 9);
    FirstDecision(p, policy(p));
    SecondDecision(p, q, policy(p), policy(q));
    var none: seq<Op> := [];
    KeepsStep(policy, none, PersistOp(p));
    AfterStep(none, PersistOp(p));
    var one := none + [PersistOp(p)];
    NewestOfOne(p);
    KeepsStep(policy, one, first);
    AfterStep(one, first);
    var two := one + [first];
    KeepsStep(policy, two, PersistOp(q));
    AfterStep(two, PersistOp(q));
    var three := two + [PersistOp(q)];
    KeepsStep(policy, three, second);
    AfterStep(three, second);
    ops := three + [second];
  }

  /** In every run that records by the policy, heights never step back. */
  ghost predicate IsSafe(policy: Policy) {
    forall ops :: RunKeeps(policy, ops) ==> NeverStepBack(After(EMPTY, ops).decisions)
  }

  /**
   * Recorded heights never step back, in any run, exactly when the caller
   * never gives a later snapshot of another block a lower height.
   */
  lemma HeightsFollowIffMonotone(policy: Policy)
    ensures IsSafe(policy) <==> IsMonotone(policy)
  {
    if IsMonotone(policy) {
      forall ops | RunKeeps(policy, ops) ensures NeverStepBack(After(EMPTY, ops).decisions) {
        MonotoneIsFollowed(policy, ops);
      }
    } else {
      var p, q :| CanBePersisted(p) && CanBePersisted(q) && p.block != q.block && Later(q, p) && policy(p) > policy(q);
      var ops := RunOnTwo(policy, p, q);
      assert !NeverStepBack(After(EMPTY, ops).decisions);
    }
  }

  /** The snapshot's own height is such a policy. */
  lemma OwnHeightIsSafe(policy: Policy)
    requires forall r :: CanBePersisted(r) ==> policy(r) == r.height
    ensures IsSafe(policy)
  {
    HeightsFollowIffMonotone(policy);
  }

  /** A run in which the later decision, on the later snapshot, records the lower height. */
  lemma RecordedHeightsCanStepBack() returns (ops: seq<Op>)
    ensures |After(EMPTY, ops).decisions| == 2
    ensures After(EMPTY, ops).decisions[1].height < After(EMPTY, ops).decisions[0].height
  {
    var p, q := Snapshot(Testnet, "a", "d", 1, true), Snapshot(Testnet, "b", "d", 2, true);
    assert "a"[0] != "b"[0];
    var policy: Policy := (r: Snapshot) => if r.height == 1 then 5 else 3;
    ops := RunOnTwo(policy, p, q);
  }
}
