/**
 * The write ledger and the admission transaction: the five tables the
 * controllers and the gateway share, and every operation on them as one
 * atomic step. An operation that refuses leaves the tables alone, which is
 * the transaction's rollback.
 */
module Ledger {
  import opened Wrappers
  import Ids

  datatype Network = Testnet | Mainnet
  datatype WriteKind = Precommit | Benchmark | Proof
  datatype Outcome = Accepted | Rejected | Ambiguous
  datatype IntentState = Prepared | OutcomeUnknown | Confirmed | Refused

  datatype WorkflowState =
    | Decided
    | PrecommitSubmitted
    | PrecommitConfirmed
    | BenchmarkSubmitted
    | BenchmarkConfirmed
    | ProofSubmitted
    | ProofConfirmed
    | Verified
    | Stopped
    | Fraudulent
    | Failed
    | Expired

  datatype WorkflowKey = WorkflowKey(network: Network, workflow: string)
  datatype IntentKey = IntentKey(owner: WorkflowKey, kind: WriteKind, generation: int)

  datatype Workflow = Workflow(state: WorkflowState, fromBlock: int, toBlock: Option<int>)
  datatype Intent = Intent(benchmark: Option<string>, payload: string, state: IntentState)
  datatype Attempt = Attempt(intent: IntentKey, no: int, benchmark: Option<string>, outcome: Option<Outcome>)
  datatype Snapshot = Snapshot(network: Network, block: string, digest: string, height: int, usable: bool)
  datatype LeaseKey = LeaseKey(owner: WorkflowKey, kind: string)
  datatype Lease = Lease(holder: string, until: int, fence: int)

  datatype Decision = Decision(
    owner: WorkflowKey, generation: int, block: string, digest: string, height: int, unverified: int, limit: int)

  /** Attempts, decisions and snapshots are append-only, so a row's id is its position. */
  datatype Db = Db(
    workflows: map<WorkflowKey, Workflow>,
    decisions: seq<Decision>,
    intents: map<IntentKey, Intent>,
    attempts: seq<Attempt>,
    snapshots: seq<Snapshot>,
    leases: map<LeaseKey, Lease>)

  const EMPTY := Db(map[], [], map[], [], [], map[])
  const I64_MAX := 0x7fff_ffff_ffff_ffff

  datatype Error =
    | LimitNotPositive
    | ReserveNotCanonical
    | AlreadyDecided
    | NoUsableSnapshot
    | StaleAnchor(newest: string)
    | AtUnverifiedLimit(unverified: int)
    | WorkflowSettled(state: WorkflowState)
    | ComputeTypeMissing
    | PrecommitAlreadyTransmitted
    | IntentExists
    | BenchmarkBinding
    | PayloadConflict
    | AlreadySettled
    | FenceLost(current: int)
    | StillHeld(holder: string)
    | ZeroDuration
    | PrecommitLaneOccupied
    | BenchmarkWriteInFlight
    | AlreadyResolved
    | NotSettled
    | NotAmbiguous
    | NotAllowed
    | Divergent
    | Unavailable

  // ---------------------------------------------------------------- attempts

  /** Still occupies its lane: no outcome yet, or an ambiguous one. */
  predicate Unresolved(a: Attempt) {
    a.outcome == None || a.outcome == Some(Ambiguous)
  }

  /** May have reached TIG: unresolved, ambiguous or accepted. */
  predicate Transmitted(a: Attempt) {
    a.outcome != Some(Rejected)
  }

  predicate InPrecommitLane(a: Attempt, network: Network) {
    Unresolved(a) && a.intent.kind == Precommit && a.intent.owner.network == network
  }

  predicate InBenchmarkLane(a: Attempt, network: Network, benchmark: string) {
    Unresolved(a) && a.benchmark == Some(benchmark) && a.intent.owner.network == network
  }

  predicate PrecommitLaneTaken(attempts: seq<Attempt>, network: Network) {
    exists i :: 0 <= i < |attempts| && InPrecommitLane(attempts[i], network)
  }

  predicate BenchmarkLaneTaken(attempts: seq<Attempt>, network: Network, benchmark: string) {
    exists i :: 0 <= i < |attempts| && InBenchmarkLane(attempts[i], network, benchmark)
  }

  predicate IsPrecommitOf(a: Attempt, owner: WorkflowKey) {
    a.intent.kind == Precommit && a.intent.owner == owner
  }

  predicate TransmittedPrecommit(attempts: seq<Attempt>, owner: WorkflowKey) {
    exists i :: 0 <= i < |attempts| && IsPrecommitOf(attempts[i], owner) && Transmitted(attempts[i])
  }

  predicate UnsettledWrite(attempts: seq<Attempt>, owner: WorkflowKey) {
    exists i :: 0 <= i < |attempts| && attempts[i].intent.owner == owner && Unresolved(attempts[i])
  }

  /** One more than the highest number already given to an attempt of `intent`. */
  function NextNo(attempts: seq<Attempt>, intent: IntentKey): (no: int)
    ensures no >= 1
    ensures forall i :: 0 <= i < |attempts| && attempts[i].intent == intent ==> attempts[i].no < no
    ensures no == 1 || exists i :: 0 <= i < |attempts| && attempts[i].intent == intent && attempts[i].no == no - 1
  {
    if attempts == [] then 1 else
      var last := attempts[|attempts| - 1];
      var earlier := NextNo(attempts[..|attempts| - 1], intent);
      if last.intent == intent && last.no >= earlier then last.no + 1 else earlier
  }

  function Begin(db: Db, key: IntentKey): Result<Db, Error> {
    if key !in db.intents then
      Err(Unavailable)
    else if key.kind == Precommit && PrecommitLaneTaken(db.attempts, key.owner.network) then
      Err(PrecommitLaneOccupied)
    else
      var benchmark := db.intents[key].benchmark;
      if benchmark.Some? && BenchmarkLaneTaken(db.attempts, key.owner.network, benchmark.value) then
        Err(BenchmarkWriteInFlight)
      else
        Ok(db.(attempts := db.attempts + [Attempt(key, NextNo(db.attempts, key), benchmark, None)]))
  }

  /** A lease row that is gone reads as a fence nobody holds. */
  function CurrentFence(db: Db, lease: LeaseKey): int {
    if lease in db.leases then db.leases[lease].fence else I64_MAX
  }

  function BeginFenced(db: Db, key: IntentKey, lease: LeaseKey, fence: int): Result<Db, Error> {
    if CurrentFence(db, lease) != fence then Err(FenceLost(CurrentFence(db, lease))) else Begin(db, key)
  }

  function Resolve(db: Db, id: nat, outcome: Outcome): Result<Db, Error> {
    if id >= |db.attempts| || db.attempts[id].outcome.Some? then
      Err(AlreadyResolved)
    else
      var a := db.attempts[id];
      var resolved := db.(attempts := db.attempts[id := a.(outcome := Some(outcome))]);
      if outcome == Ambiguous && a.intent in db.intents && db.intents[a.intent].state == Prepared then
        Ok(resolved.(intents := db.intents[a.intent := db.intents[a.intent].(state := OutcomeUnknown)]))
      else
        Ok(resolved)
  }

  function Reconcile(db: Db, id: nat, settled: Outcome): Result<Db, Error> {
    if settled == Ambiguous then
      Err(NotSettled)
    else if id >= |db.attempts| || db.attempts[id].outcome != Some(Ambiguous) then
      Err(NotAmbiguous)
    else
      Ok(db.(attempts := db.attempts[id := db.attempts[id].(outcome := Some(settled))]))
  }

  // ---------------------------------------------------------------- intents

  function CreateIntent(db: Db, key: IntentKey, benchmark: Option<string>, payload: string): Result<Db, Error> {
    if (key.kind == Precommit) != benchmark.None? then
      Err(BenchmarkBinding)
    else if key in db.intents then
      if db.intents[key].payload != payload || db.intents[key].benchmark != benchmark then
        Err(PayloadConflict)
      else
        Ok(db)
    else if key.owner !in db.workflows || key.generation < 1 then
      Err(Unavailable)
    else
      Ok(db.(intents := db.intents[key := Intent(benchmark, payload, Prepared)]))
  }

  function Settle(db: Db, key: IntentKey, confirmed: bool): Result<Db, Error> {
    var outcome := if confirmed then Confirmed else Refused;
    if key !in db.intents then
      Err(Unavailable)
    else if db.intents[key].state == Prepared || db.intents[key].state == OutcomeUnknown then
      Ok(db.(intents := db.intents[key := db.intents[key].(state := outcome)]))
    else if db.intents[key].state == outcome then
      Ok(db)
    else
      Err(AlreadySettled)
  }

  // --------------------------------------------------------------- workflows

  predicate IsTerminal(s: WorkflowState) {
    s == Stopped || s == Fraudulent || s == Expired || s == Failed
  }

  datatype Evidence =
    | Submitted(which: WriteKind)
    | PrecommitSeen
    | BenchmarkSeen(stopped: bool)
    | ProofSeen
    | VerifiedSeen
    | FraudSeen
    | Fail
    | Expire(unlessInFlight: bool)

  /** Where the evidence takes a workflow, or None where it does not apply. */
  function Target(s: WorkflowState, e: Evidence): Option<WorkflowState> {
    if IsTerminal(s) then
      None
    else
      match e
      case Submitted(which) =>
        if which == Precommit && s == Decided then Some(PrecommitSubmitted)
        else if which == Benchmark && s == PrecommitConfirmed then Some(BenchmarkSubmitted)
        else if which == Proof && s == BenchmarkConfirmed then Some(ProofSubmitted)
        else None
      case PrecommitSeen =>
        if s == Decided || s == PrecommitSubmitted then Some(PrecommitConfirmed) else None
      case BenchmarkSeen(stopped) =>
        if s == PrecommitConfirmed || s == BenchmarkSubmitted then
          Some(if stopped then Stopped else BenchmarkConfirmed)
        else
          None
      case ProofSeen =>
        if s == BenchmarkConfirmed || s == ProofSubmitted then Some(ProofConfirmed) else None
      case VerifiedSeen =>
        if s == ProofConfirmed then Some(Verified) else None
      case FraudSeen =>
        Some(Fraudulent)
      case Fail =>
        Some(Failed)
      case Expire(_) =>
        Some(Expired)
  }

  /** The evidence that ends the unverified interval. */
  predicate Closes(e: Evidence) {
    e == BenchmarkSeen(true) || e == VerifiedSeen || e == FraudSeen || e == Fail || e.Expire?
  }

  function Move(db: Db, owner: WorkflowKey, e: Evidence, at: int): Result<Db, Error> {
    if owner !in db.workflows then
      Err(Unavailable)
    else
      var w := db.workflows[owner];
      var target := Target(w.state, e);
      var closed := if w.toBlock == None && Closes(e) then Some(at) else w.toBlock;
      if target == None then
        Err(NotAllowed)
      else if e == Expire(true) && UnsettledWrite(db.attempts, owner) then
        Err(NotAllowed)
      else if closed.Some? && closed.value < w.fromBlock then
        Err(Unavailable)
      else
        Ok(db.(workflows := db.workflows[owner := Workflow(target.value, w.fromBlock, closed)]))
  }

  // --------------------------------------------------------------- snapshots

  predicate Usable(r: Snapshot, network: Network) {
    r.usable && r.network == network
  }

  predicate Later(a: Snapshot, b: Snapshot) {
    a.height > b.height || (a.height == b.height && Ids.Before(b.block, a.block))
  }

  predicate HasUsable(rows: seq<Snapshot>, network: Network, block: string) {
    exists i :: 0 <= i < |rows| && Usable(rows[i], network) && rows[i].block == block
  }

  predicate Recorded(rows: seq<Snapshot>, r: Snapshot) {
    exists i :: 0 <= i < |rows| && rows[i].network == r.network && rows[i].block == r.block
      && rows[i].digest == r.digest
  }

  function Persist(db: Db, r: Snapshot): Result<Db, Error> {
    if r.height < 0 then
      Err(Unavailable)
    else if Recorded(db.snapshots, r) then
      Ok(db)
    else if r.usable && HasUsable(db.snapshots, r.network, r.block) then
      Err(Divergent)
    else
      Ok(db.(snapshots := db.snapshots + [r]))
  }

  lemma LaterIsTransitive(a: Snapshot, b: Snapshot, c: Snapshot)
    requires Later(a, b) && !Later(c, b)
    ensures !Later(c, a) && Later(a, c)
  {
    Ids.Trichotomy(b.block, c.block);
    Ids.Trichotomy(c.block, a.block);
    if a.height == b.height == c.height {
      if Ids.Before(c.block, b.block) { Ids.Transitive(c.block, b.block, a.block); }
    }
  }

  /** The newest usable snapshot of a network, by height and then block id. */
  function Newest(rows: seq<Snapshot>, network: Network): (r: Option<Snapshot>)
    ensures r.None? <==> forall i :: 0 <= i < |rows| ==> !Usable(rows[i], network)
    ensures r.Some? ==> r.value in rows && Usable(r.value, network)
    ensures r.Some? ==> forall i :: 0 <= i < |rows| && Usable(rows[i], network) ==> !Later(rows[i], r.value)
  {
    if rows == [] then None else
      var last := rows[|rows| - 1];
      var front := rows[..|rows| - 1];
      var earlier := Newest(front, network);
      assert forall i :: 0 <= i < |front| ==> rows[i] == front[i];
      if !Usable(last, network) then earlier
      else if earlier.None? then Ids.Irreflexive(last.block); Some(last)
      else if Later(last, earlier.value) then
        NewestStep(front, network, earlier.value, last); Some(last)
      else earlier
  }

  lemma NewestStep(front: seq<Snapshot>, network: Network, earlier: Snapshot, last: Snapshot)
    requires Later(last, earlier)
    requires forall i :: 0 <= i < |front| && Usable(front[i], network) ==> !Later(front[i], earlier)
    ensures forall i :: 0 <= i < |front| && Usable(front[i], network) ==> !Later(front[i], last)
    ensures !Later(last, last)
  {
    Ids.Irreflexive(last.block);
    forall i | 0 <= i < |front| && Usable(front[i], network) ensures !Later(front[i], last) {
      LaterIsTransitive(last, earlier, front[i]);
    }
  }

  // --------------------------------------------------------------- admission

  /** A canonical amount: base-10 digits, at most 78 of them, no leading zero. */
  predicate CanonicalAtoms(value: string) {
    && value != ""
    && (forall i :: 0 <= i < |value| ==> '0' <= value[i] <= '9')
    && |value| <= 78
    && (|value| > 1 ==> value[0] != '0')
  }

  datatype NewDecision = NewDecision(
    owner: WorkflowKey, generation: int, block: string, digest: string, height: int,
    reserve: string, computeNamed: bool, payload: string)

  predicate DecisionExists(decisions: seq<Decision>, owner: WorkflowKey, generation: int) {
    exists i :: 0 <= i < |decisions| && decisions[i].owner == owner && decisions[i].generation == generation
  }

  function OpenIntervals(workflows: map<WorkflowKey, Workflow>, network: Network): set<WorkflowKey> {
    set k | k in workflows && k.network == network && workflows[k].toBlock == None
  }

  function PrecommitKey(d: NewDecision): IntentKey {
    IntentKey(d.owner, Precommit, d.generation)
  }

  /** The checks before anything is written, in the order the transaction makes them. */
  function Refusal(db: Db, d: NewDecision, limit: int): Option<Error> {
    if limit < 1 then
      Some(LimitNotPositive)
    else if !CanonicalAtoms(d.reserve) then
      Some(ReserveNotCanonical)
    else if DecisionExists(db.decisions, d.owner, d.generation) then
      Some(AlreadyDecided)
    else
      var newest := Newest(db.snapshots, d.owner.network);
      if newest == None then
        Some(NoUsableSnapshot)
      else if newest.value.block != d.block || newest.value.digest != d.digest then
        Some(StaleAnchor(newest.value.block))
      else if |OpenIntervals(db.workflows, d.owner.network)| >= limit then
        Some(AtUnverifiedLimit(|OpenIntervals(db.workflows, d.owner.network)|))
      else
        None
  }

  /** Open the workflow and its unverified interval, unless it is there and still decided. */
  function OpenWorkflow(workflows: map<WorkflowKey, Workflow>, d: NewDecision)
    : Result<map<WorkflowKey, Workflow>, Error>
  {
    if d.owner in workflows then
      if workflows[d.owner].state == Decided then Ok(workflows) else Err(WorkflowSettled(workflows[d.owner].state))
    else if d.owner.network == Mainnet then
      Err(Unavailable)
    else
      Ok(workflows[d.owner := Workflow(Decided, d.height, None)])
  }

  function RecordDecision(db: Db, d: NewDecision, limit: int): Decision {
    Decision(d.owner, d.generation, d.block, d.digest, d.height, |OpenIntervals(db.workflows, d.owner.network)|, limit)
  }

  function Admit(db: Db, d: NewDecision, limit: int): Result<Db, Error> {
    var refusal := Refusal(db, d, limit);
    if refusal.Some? then
      Err(refusal.value)
    else
      var workflows := OpenWorkflow(db.workflows, d);
      if workflows.Err? then
        Err(workflows.error)
      else if !d.computeNamed then
        Err(ComputeTypeMissing)
      else if d.generation < 1 || d.height < 0 then
        Err(Unavailable)
      else if TransmittedPrecommit(db.attempts, d.owner) then
        Err(PrecommitAlreadyTransmitted)
      else if PrecommitKey(d) in db.intents then
        Err(IntentExists)
      else
        Ok(db.(
          workflows := workflows.value,
          decisions := db.decisions + [RecordDecision(db, d, limit)],
          intents := db.intents[PrecommitKey(d) := Intent(None, d.payload, Prepared)]))
  }

  // ------------------------------------------------------------------ leases

  function Claim(db: Db, lease: LeaseKey, holder: string, now: int, duration: int): Result<Db, Error> {
    if duration <= 0 then
      Err(ZeroDuration)
    else if lease.owner !in db.workflows then
      Err(Unavailable)
    else if lease !in db.leases then
      Ok(db.(leases := db.leases[lease := Lease(holder, now + duration, 1)]))
    else if db.leases[lease].until <= now || db.leases[lease].holder == holder then
      Ok(db.(leases := db.leases[lease := Lease(holder, now + duration, db.leases[lease].fence + 1)]))
    else
      Err(StillHeld(db.leases[lease].holder))
  }

  function Release(db: Db, lease: LeaseKey, fence: int, now: int): Result<Db, Error> {
    if lease in db.leases && db.leases[lease].fence == fence then
      Ok(db.(leases := db.leases[lease := Lease(db.leases[lease].holder, now, fence + 1)]))
    else
      Ok(db)
  }

  // -------------------------------------------------------------------- runs

  datatype Op =
    | AdmitOp(decision: NewDecision, limit: int)
    | BeginOp(intent: IntentKey)
    | BeginFencedOp(intent: IntentKey, lease: LeaseKey, fence: int)
    | ResolveOp(id: nat, outcome: Outcome)
    | ReconcileOp(id: nat, outcome: Outcome)
    | CreateIntentOp(intent: IntentKey, benchmark: Option<string>, payload: string)
    | SettleOp(intent: IntentKey, confirmed: bool)
    | MoveOp(owner: WorkflowKey, evidence: Evidence, at: int)
    | PersistOp(row: Snapshot)
    | ClaimOp(lease: LeaseKey, holder: string, now: int, duration: int)
    | ReleaseOp(lease: LeaseKey, fence: int, now: int)

  function Execute(db: Db, op: Op): Result<Db, Error> {
    match op
    case AdmitOp(d, limit) => Admit(db, d, limit)
    case BeginOp(intent) => Begin(db, intent)
    case BeginFencedOp(intent, lease, fence) => BeginFenced(db, intent, lease, fence)
    case ResolveOp(id, outcome) => Resolve(db, id, outcome)
    case ReconcileOp(id, outcome) => Reconcile(db, id, outcome)
    case CreateIntentOp(intent, benchmark, payload) => CreateIntent(db, intent, benchmark, payload)
    case SettleOp(intent, confirmed) => Settle(db, intent, confirmed)
    case MoveOp(owner, evidence, at) => Move(db, owner, evidence, at)
    case PersistOp(row) => Persist(db, row)
    case ClaimOp(lease, holder, now, duration) => Claim(db, lease, holder, now, duration)
    case ReleaseOp(lease, fence, now) => Release(db, lease, fence, now)
  }

  function Next(db: Db, op: Op): Db {
    var r := Execute(db, op);
    if r.Ok? then r.value else db
  }

  function After(db: Db, ops: seq<Op>): Db {
    if ops == [] then db else Next(After(db, ops[..|ops| - 1]), ops[|ops| - 1])
  }
}
