/**
 * When each ledger operation succeeds and which rows it then holds, told from
 * the tables alone.
 */
module LedgerMeaning {
  import opened Wrappers
  import opened Ledger
  import opened LedgerSafety
  import Ids

  // --------------------------------------------------------------- admission

  /** A decimal number of at most 78 digits, written without a leading zero. */
  ghost predicate IsAmount(s: string) {
    && 1 <= |s| <= 78
    && (forall i :: 0 <= i < |s| ==> s[i] in "0123456789")
    && (s[0] == '0' ==> |s| == 1)
  }

  /** `r` is usable, and no usable snapshot of the network has a greater (height, block id). */
  ghost predicate IsNewest(rows: seq<Snapshot>, network: Network, r: Snapshot) {
    && r in rows && r.usable && r.network == network
    && forall o :: o in rows && o.usable && o.network == network ==>
         o.height < r.height || (o.height == r.height && (o.block == r.block || Ids.Before(o.block, r.block)))
  }

  ghost predicate IsAnchoredToNewest(rows: seq<Snapshot>, d: NewDecision) {
    exists r :: IsNewest(rows, d.owner.network, r) && r.block == d.block && r.digest == d.digest
  }

  ghost function CountOpen(workflows: map<WorkflowKey, Workflow>, network: Network): nat {
    |set k | k in workflows && k.network == network && workflows[k].toBlock == None|
  }

  ghost predicate IsDecided(decisions: seq<Decision>, owner: WorkflowKey, generation: int) {
    exists i :: 0 <= i < |decisions| && decisions[i].owner == owner && decisions[i].generation == generation
  }

  /** A precommit attempt of the workflow that TIG is not known to have rejected. */
  ghost predicate MayBeAtTig(attempts: seq<Attempt>, owner: WorkflowKey) {
    exists i :: 0 <= i < |attempts| && attempts[i].intent.owner == owner && attempts[i].intent.kind == Precommit
      && attempts[i].outcome != Some(Rejected)
  }

  /** A workflow that can still take a generation, or one that admission may create. */
  ghost predicate CanTakeGeneration(workflows: map<WorkflowKey, Workflow>, owner: WorkflowKey) {
    if owner in workflows then workflows[owner].state == Decided else owner.network == Testnet
  }

  ghost predicate MayAdmit(db: Db, d: NewDecision, limit: int) {
    && limit >= 1
    && IsAmount(d.reserve)
    && !IsDecided(db.decisions, d.owner, d.generation)
    && IsAnchoredToNewest(db.snapshots, d)
    && CountOpen(db.workflows, d.owner.network) < limit
    && CanTakeGeneration(db.workflows, d.owner)
    && d.computeNamed
    && d.generation >= 1
    && d.height >= 0
    && !MayBeAtTig(db.attempts, d.owner)
    && IntentKey(d.owner, Precommit, d.generation) !in db.intents
  }

  /** The rows of an admission: the decision, its intent and, for a new workflow, its open interval. */
  ghost predicate Admitted(before: Db, after: Db, d: NewDecision, limit: int) {
    && var open := CountOpen(before.workflows, d.owner.network);
    && after.decisions == before.decisions
                          + [Decision(d.owner, d.generation, d.block, d.digest, d.height, open, limit)]
    && after.intents == before.intents[IntentKey(d.owner, Precommit, d.generation) := Intent(None, d.payload, Prepared)]
    && after.workflows == (if d.owner in before.workflows then before.workflows
                           else before.workflows[d.owner := Workflow(Decided, d.height, None)])
    && after.attempts == before.attempts
    && after.snapshots == before.snapshots
    && after.leases == before.leases
  }

  /** Why an admission was refused. */
  ghost predicate IsReason(db: Db, d: NewDecision, limit: int, e: Error) {
    match e
    case LimitNotPositive => limit < 1
    case ReserveNotCanonical => !IsAmount(d.reserve)
    case AlreadyDecided => IsDecided(db.decisions, d.owner, d.generation)
    case NoUsableSnapshot => forall r :: r in db.snapshots ==> !(r.usable && r.network == d.owner.network)
    case StaleAnchor(block) =>
      exists r :: IsNewest(db.snapshots, d.owner.network, r) && r.block == block
                  && (r.block != d.block || r.digest != d.digest)
    case AtUnverifiedLimit(n) => n == CountOpen(db.workflows, d.owner.network) >= limit
    case WorkflowSettled(s) => d.owner in db.workflows && db.workflows[d.owner].state == s != Decided
    case ComputeTypeMissing => !d.computeNamed
    case PrecommitAlreadyTransmitted => MayBeAtTig(db.attempts, d.owner)
    case IntentExists => IntentKey(d.owner, Precommit, d.generation) in db.intents
    case Unavailable => d.generation < 1 || d.height < 0 || (d.owner !in db.workflows && d.owner.network == Mainnet)
    case _ => false
  }

  lemma AmountIsCanonical(s: string)
    ensures CanonicalAtoms(s) <==> IsAmount(s)
  {
    forall c: char ensures c in "0123456789" <==> '0' <= c <= '9' {
      DigitIs(c);
    }
  }

  lemma DigitIs(c: char)
    ensures c in "0123456789" <==> '0' <= c <= '9'
  {
    var digits := "0123456789";
    assert forall i :: 0 <= i < 10 ==> digits[i] as int == '0' as int + i;
    if '0' <= c <= '9' { assert digits[c as int - '0' as int] == c; }
  }

  lemma NewestIs(rows: seq<Snapshot>, network: Network)
    ensures var n := Newest(rows, network);
      && (n.None? <==> forall r :: r in rows ==> !(r.usable && r.network == network))
      && (n.Some? ==> IsNewest(rows, network, n.value))
  {
    var n := Newest(rows, network);
    forall r | r in rows && r.usable && r.network == network
      ensures n.Some? && (r.height < n.value.height
        || (r.height == n.value.height && (r.block == n.value.block || Ids.Before(r.block, n.value.block))))
    {
      var i :| 0 <= i < |rows| && rows[i] == r;
      assert Usable(rows[i], network);
      Ids.Trichotomy(r.block, n.value.block);
    }
    if n.None? {
      forall r | r in rows ensures !(r.usable && r.network == network) {
        var i :| 0 <= i < |rows| && rows[i] == r;
      }
    }
  }

  lemma NewestIsUnique(rows: seq<Snapshot>, network: Network, a: Snapshot, b: Snapshot)
    requires UsableAreUnique(rows) && IsNewest(rows, network, a) && IsNewest(rows, network, b)
    ensures a == b
  {
    Ids.Trichotomy(a.block, b.block);
    var i :| 0 <= i < |rows| && rows[i] == a;
    var j :| 0 <= j < |rows| && rows[j] == b;
  }

  lemma AnchorIsNewest(rows: seq<Snapshot>, d: NewDecision)
    ensures var n := Newest(rows, d.owner.network);
      && (n.Some? && n.value.block == d.block && n.value.digest == d.digest ==> IsAnchoredToNewest(rows, d))
      && (UsableAreUnique(rows) && IsAnchoredToNewest(rows, d) ==>
            n.Some? && n.value.block == d.block && n.value.digest == d.digest)
  {
    NewestIs(rows, d.owner.network);
    var n := Newest(rows, d.owner.network);
    if UsableAreUnique(rows) && IsAnchoredToNewest(rows, d) {
      var r :| IsNewest(rows, d.owner.network, r) && r.block == d.block && r.digest == d.digest;
      NewestIsUnique(rows, d.owner.network, n.value, r);
    }
  }

  lemma SameCounts(workflows: map<WorkflowKey, Workflow>, network: Network)
    ensures |OpenIntervals(workflows, network)| == CountOpen(workflows, network)
  {
    assert OpenIntervals(workflows, network)
        == set k | k in workflows && k.network == network && workflows[k].toBlock == None;
  }

  lemma TransmittedMayBeAtTig(attempts: seq<Attempt>, owner: WorkflowKey)
    ensures TransmittedPrecommit(attempts, owner) <==> MayBeAtTig(attempts, owner)
  {
    if TransmittedPrecommit(attempts, owner) {
      var i :| 0 <= i < |attempts| && IsPrecommitOf(attempts[i], owner) && Transmitted(attempts[i]);
    }
    if MayBeAtTig(attempts, owner) {
      var i :| 0 <= i < |attempts| && attempts[i].intent.owner == owner && attempts[i].intent.kind == Precommit
        && attempts[i].outcome != Some(Rejected);
      assert IsPrecommitOf(attempts[i], owner) && Transmitted(attempts[i]);
    }
  }

  /** The checks before the writes, told from the tables. */
  ghost predicate PassesGates(db: Db, d: NewDecision, limit: int) {
    && limit >= 1
    && IsAmount(d.reserve)
    && !IsDecided(db.decisions, d.owner, d.generation)
    && IsAnchoredToNewest(db.snapshots, d)
    && CountOpen(db.workflows, d.owner.network) < limit
  }

  lemma RefusalIs(db: Db, d: NewDecision, limit: int)
    ensures Refusal(db, d, limit).None? ==> PassesGates(db, d, limit)
    ensures UsableAreUnique(db.snapshots) && PassesGates(db, d, limit) ==> Refusal(db, d, limit).None?
    ensures Refusal(db, d, limit).Some? ==> IsReason(db, d, limit, Refusal(db, d, limit).value)
  {
    AmountIsCanonical(d.reserve);
    AnchorIsNewest(db.snapshots, d);
    NewestIs(db.snapshots, d.owner.network);
    SameCounts(db.workflows, d.owner.network);
    assert DecisionExists(db.decisions, d.owner, d.generation) <==> IsDecided(db.decisions, d.owner, d.generation);
  }

  /** Admission succeeds exactly under those conditions, adds exactly those rows, and names a true reason otherwise. */
  lemma AdmitIs(db: Db, d: NewDecision, limit: int)
    ensures Admit(db, d, limit).Ok? ==> MayAdmit(db, d, limit) && Admitted(db, Admit(db, d, limit).value, d, limit)
    ensures UsableAreUnique(db.snapshots) && MayAdmit(db, d, limit) ==> Admit(db, d, limit).Ok?
    ensures Admit(db, d, limit).Err? ==> IsReason(db, d, limit, Admit(db, d, limit).error)
  {
    RefusalIs(db, d, limit);
    TransmittedMayBeAtTig(db.attempts, d.owner);
    SameCounts(db.workflows, d.owner.network);
  }

  // ---------------------------------------------------------------- attempts

  /** The lane an attempt for `key` needs has no attempt that is unresolved or ambiguous. */
  ghost predicate LaneIsFree(db: Db, key: IntentKey) {
    && (key.kind == Precommit ==>
          forall i :: 0 <= i < |db.attempts| && db.attempts[i].intent.kind == Precommit ==>
            db.attempts[i].intent.owner.network != key.owner.network || IsSettled(db.attempts[i]))
    && (key in db.intents && db.intents[key].benchmark.Some? ==>
          forall i :: 0 <= i < |db.attempts| && db.attempts[i].benchmark == db.intents[key].benchmark ==>
            db.attempts[i].intent.owner.network != key.owner.network || IsSettled(db.attempts[i]))
  }

  ghost predicate IsSettled(a: Attempt) {
    a.outcome == Some(Accepted) || a.outcome == Some(Rejected)
  }

  lemma SettledIs(a: Attempt)
    ensures Unresolved(a) <==> !IsSettled(a)
  {
    match a.outcome
    case None =>
    case Some(o) => assert o == Accepted || o == Rejected || o == Ambiguous;
  }

  lemma LaneIs(db: Db, key: IntentKey)
    requires key in db.intents
    ensures LaneIsFree(db, key) <==>
      && !(key.kind == Precommit && PrecommitLaneTaken(db.attempts, key.owner.network))
      && !(db.intents[key].benchmark.Some?
           && BenchmarkLaneTaken(db.attempts, key.owner.network, db.intents[key].benchmark.value))
  {
    forall i | 0 <= i < |db.attempts| ensures Unresolved(db.attempts[i]) <==> !IsSettled(db.attempts[i]) {
      SettledIs(db.attempts[i]);
    }
    if key.kind == Precommit && PrecommitLaneTaken(db.attempts, key.owner.network) {
      var i :| 0 <= i < |db.attempts| && InPrecommitLane(db.attempts[i], key.owner.network);
      assert !IsSettled(db.attempts[i]);
    }
    if db.intents[key].benchmark.Some?
       && BenchmarkLaneTaken(db.attempts, key.owner.network, db.intents[key].benchmark.value) {
      var i :| 0 <= i < |db.attempts|
        && InBenchmarkLane(db.attempts[i], key.owner.network, db.intents[key].benchmark.value);
      assert !IsSettled(db.attempts[i]);
    }
    if !LaneIsFree(db, key) {
      if i :| (0 <= i < |db.attempts| && db.attempts[i].intent.kind == key.kind == Precommit
               && db.attempts[i].intent.owner.network == key.owner.network && !IsSettled(db.attempts[i])) {
        assert InPrecommitLane(db.attempts[i], key.owner.network);
      } else {
        var i :| 0 <= i < |db.attempts| && db.attempts[i].benchmark == db.intents[key].benchmark
          && db.attempts[i].intent.owner.network == key.owner.network && !IsSettled(db.attempts[i]);
        assert InBenchmarkLane(db.attempts[i], key.owner.network, db.intents[key].benchmark.value);
      }
    }
  }

  /** One attempt more: unresolved, for the intent and its benchmark, numbered after all of the intent's own. */
  ghost predicate Begun(before: seq<Attempt>, after: seq<Attempt>, key: IntentKey, benchmark: Option<string>) {
    && |after| == |before| + 1
    && after[..|before|] == before
    && after[|before|].intent == key
    && after[|before|].benchmark == benchmark
    && after[|before|].outcome == None
    && (forall i :: 0 <= i < |before| && before[i].intent == key ==> before[i].no < after[|before|].no)
    && (after[|before|].no == 1
        || exists i :: 0 <= i < |before| && before[i].intent == key && before[i].no == after[|before|].no - 1)
  }

  lemma BeginIs(db: Db, key: IntentKey)
    ensures Begin(db, key).Ok? <==> key in db.intents && LaneIsFree(db, key)
    ensures Begin(db, key).Ok? ==>
      && Begun(db.attempts, Begin(db, key).value.attempts, key, db.intents[key].benchmark)
      && Begin(db, key).value == db.(attempts := Begin(db, key).value.attempts)
  {
    if key in db.intents { LaneIs(db, key); }
  }

  // ------------------------------------------------------------------ leases

  /** Somebody else's lease has not run out. */
  ghost predicate IsHeldByOther(db: Db, lease: LeaseKey, holder: string, now: int) {
    lease in db.leases && db.leases[lease].holder != holder && now < db.leases[lease].until
  }

  /** A claim succeeds exactly on a known workflow nobody else holds, and raises the fence by one. */
  lemma ClaimIs(db: Db, lease: LeaseKey, holder: string, now: int, duration: int)
    ensures Claim(db, lease, holder, now, duration).Ok? <==>
      duration > 0 && lease.owner in db.workflows && !IsHeldByOther(db, lease, holder, now)
    ensures Claim(db, lease, holder, now, duration).Ok? ==>
      var fence := if lease in db.leases then db.leases[lease].fence + 1 else 1;
      Claim(db, lease, holder, now, duration).value
      == db.(leases := db.leases[lease := Lease(holder, now + duration, fence)])
  {
  }

  /** Only the current fence releases a lease: it ends now, and the fence is used up. */
  lemma ReleaseIs(db: Db, lease: LeaseKey, fence: int, now: int)
    ensures Release(db, lease, fence, now).Ok?
    ensures Release(db, lease, fence, now).value
         == if lease in db.leases && fence == db.leases[lease].fence
            then db.(leases := db.leases[lease := Lease(db.leases[lease].holder, now, fence + 1)]) else db
  {
  }

  /** A claimed lease is nobody else's until it runs out: whatever others try, they are refused. */
  lemma ClaimExcludesOthers(db: Db, lease: LeaseKey, holder: string, now: int, duration: int,
                            other: string, later: int, otherDuration: int)
    requires Claim(db, lease, holder, now, duration).Ok? && other != holder && later < now + duration
    ensures Claim(Claim(db, lease, holder, now, duration).value, lease, other, later, otherDuration).Err?
  {
    ClaimIs(db, lease, holder, now, duration);
    ClaimIs(Claim(db, lease, holder, now, duration).value, lease, other, later, otherDuration);
  }
}
