/**
 * The admission transaction and the attempt ledger as the code runs them:
 * statement by statement on the tables, rolled back where a later statement
 * refuses. Each method is one step of `Ledger.Execute`.
 */
module LedgerStore {
  import opened Wrappers
  import opened Ledger
  import opened LedgerMeaning
  import LedgerSafety

  class Store {
    var workflows: map<WorkflowKey, Workflow>
    var decisions: seq<Decision>
    var intents: map<IntentKey, Intent>
    var attempts: seq<Attempt>
    var snapshots: seq<Snapshot>
    var leases: map<LeaseKey, Lease>

    constructor ()
      ensures Tables() == EMPTY
    {
      workflows, decisions, intents, attempts, snapshots, leases := map[], [], map[], [], [], map[];
    }

    function Tables(): Db
      reads this
    {
      Db(workflows, decisions, intents, attempts, snapshots, leases)
    }

    method Rollback(saved: Db)
      modifies this
      ensures Tables() == saved
    {
      workflows, decisions, intents := saved.workflows, saved.decisions, saved.intents;
      attempts, snapshots, leases := saved.attempts, saved.snapshots, saved.leases;
    }

    method RequireNewestAnchor(d: NewDecision) returns (refusal: Option<Error>)
      ensures refusal == None ==> IsAnchoredToNewest(snapshots, d)
      ensures LedgerSafety.UsableAreUnique(snapshots) && IsAnchoredToNewest(snapshots, d) ==> refusal == None
      ensures refusal == Some(NoUsableSnapshot) <==>
        forall r :: r in snapshots ==> !(r.usable && r.network == d.owner.network)
      ensures refusal.Some? && refusal.value.StaleAnchor? ==>
        exists r :: IsNewest(snapshots, d.owner.network, r) && r.block == refusal.value.newest
          && (r.block != d.block || r.digest != d.digest)
      ensures refusal == None <==>
        var n := Newest(snapshots, d.owner.network); n.Some? && n.value.block == d.block && n.value.digest == d.digest
      ensures refusal.None? || refusal == Some(NoUsableSnapshot)
        || (Newest(snapshots, d.owner.network).Some?
             && refusal == Some(StaleAnchor(Newest(snapshots, d.owner.network).value.block)))
    {
      NewestIs(snapshots, d.owner.network);
      AnchorIsNewest(snapshots, d);
      var newest := Newest(snapshots, d.owner.network);
      if newest == None { return Some(NoUsableSnapshot); }
      if newest.value.block != d.block || newest.value.digest != d.digest {
        return Some(StaleAnchor(newest.value.block));
      }
      return None;
    }

    /**
     * Admission succeeds exactly when the tables allow it and then adds exactly
     * the rows of the decision; otherwise it changes nothing and says why.
     */
    method AdmitPrecommit(d: NewDecision, limit: int) returns (refusal: Option<Error>)
      modifies this
      ensures refusal == None ==> MayAdmit(old(Tables()), d, limit) && Admitted(old(Tables()), Tables(), d, limit)
      ensures LedgerSafety.UsableAreUnique(old(snapshots)) && MayAdmit(old(Tables()), d, limit) ==> refusal == None
      ensures refusal.Some? ==> Tables() == old(Tables()) && IsReason(old(Tables()), d, limit, refusal.value)
      ensures Tables() == Next(old(Tables()), AdmitOp(d, limit))
    {
      ghost var before := Tables();
      refusal := AdmitInTransaction(d, limit);
      AdmitIs(before, d, limit);
    }

    /** Everything is written, or, from the first refusal on, nothing is. */
    method AdmitInTransaction(d: NewDecision, limit: int) returns (refusal: Option<Error>)
      modifies this
      ensures refusal == None <==> Admit(old(Tables()), d, limit).Ok?
      ensures refusal.Some? ==> Admit(old(Tables()), d, limit) == Err(refusal.value)
      ensures Tables() == Next(old(Tables()), AdmitOp(d, limit))
    {
      if limit < 1 { return Some(LimitNotPositive); }
      if !CanonicalAtoms(d.reserve) { return Some(ReserveNotCanonical); }
      if DecisionExists(decisions, d.owner, d.generation) { return Some(AlreadyDecided); }
      var stale := RequireNewestAnchor(d);
      if stale.Some? { return stale; }
      var unverified := |OpenIntervals(workflows, d.owner.network)|;
      if unverified >= limit { return Some(AtUnverifiedLimit(unverified)); }

      var saved := Tables();
      if d.owner in workflows {
        if workflows[d.owner].state != Decided { return Some(WorkflowSettled(workflows[d.owner].state)); }
      } else {
        if d.owner.network == Mainnet { return Some(Unavailable); }
        workflows := workflows[d.owner := Workflow(Decided, d.height, None)];
      }
      if !d.computeNamed {
        Rollback(saved);
        return Some(ComputeTypeMissing);
      }
      if d.generation < 1 || d.height < 0 {
        Rollback(saved);
        return Some(Unavailable);
      }
      decisions := decisions + [Decision(d.owner, d.generation, d.block, d.digest, d.height, unverified, limit)];
      if TransmittedPrecommit(attempts, d.owner) {
        Rollback(saved);
        return Some(PrecommitAlreadyTransmitted);
      }
      if PrecommitKey(d) in intents {
        Rollback(saved);
        return Some(IntentExists);
      }
      intents := intents[PrecommitKey(d) := Intent(None, d.payload, Prepared)];
      return None;
    }

    method BeginAttempt(key: IntentKey) returns (r: Result<nat, Error>)
      modifies this`attempts
      ensures Tables() == Next(old(Tables()), BeginOp(key))
      ensures r.Ok? <==> Begin(old(Tables()), key).Ok?
      ensures r.Ok? ==>
        && r.value == old(|attempts|) < |attempts|
        && attempts[r.value].intent == key
        && attempts[r.value].outcome == None
      ensures r.Err? ==> Begin(old(Tables()), key) == Err(r.error)
      ensures r.Ok? <==> key in intents && LaneIsFree(old(Tables()), key)
      ensures r.Ok? ==> Begun(old(attempts), attempts, key, intents[key].benchmark)
      ensures r.Err? ==> attempts == old(attempts)
    {
      BeginIs(Tables(), key);
      if key !in intents { return Err(Unavailable); }
      if key.kind == Precommit && PrecommitLaneTaken(attempts, key.owner.network) { return Err(PrecommitLaneOccupied); }
      var benchmark := intents[key].benchmark;
      if benchmark.Some? && BenchmarkLaneTaken(attempts, key.owner.network, benchmark.value) {
        return Err(BenchmarkWriteInFlight);
      }
      attempts := attempts + [Attempt(key, NextNo(attempts, key), benchmark, None)];
      return Ok(|attempts| - 1);
    }

    method BeginFencedAttempt(key: IntentKey, lease: LeaseKey, fence: int) returns (r: Result<nat, Error>)
      modifies this`attempts
      ensures Tables() == Next(old(Tables()), BeginFencedOp(key, lease, fence))
      ensures r.Ok? <==> BeginFenced(old(Tables()), key, lease, fence).Ok?
      ensures r.Err? ==> BeginFenced(old(Tables()), key, lease, fence) == Err(r.error)
      ensures r.Ok? <==>
        && (if lease in leases then fence == leases[lease].fence else fence == I64_MAX)
        && key in intents && LaneIsFree(old(Tables()), key)
      ensures r.Ok? ==> Begun(old(attempts), attempts, key, intents[key].benchmark)
      ensures r.Err? ==> attempts == old(attempts)
    {
      var current := CurrentFence(Tables(), lease);
      if current != fence { return Err(FenceLost(current)); }
      r := BeginAttempt(key);
    }

    method ResolveAttempt(id: nat, outcome: Outcome) returns (refusal: Option<Error>)
      modifies this`attempts, this`intents
      ensures Tables() == Next(old(Tables()), ResolveOp(id, outcome))
      ensures refusal == None <==> id < old(|attempts|) && old(attempts)[id].outcome == None
      ensures refusal.Some? ==> refusal == Some(AlreadyResolved) && attempts == old(attempts) && intents == old(intents)
      ensures refusal == None ==> attempts == old(attempts)[id := old(attempts)[id].(outcome := Some(outcome))]
      ensures refusal == None && outcome != Ambiguous ==> intents == old(intents)
      ensures refusal == None && outcome == Ambiguous ==>
        && intents.Keys == old(intents).Keys
        && forall k :: k in intents ==>
             intents[k] == (if k == old(attempts)[id].intent && old(intents)[k].state == Prepared
                            then old(intents)[k].(state := OutcomeUnknown) else old(intents)[k])
    {
      if id >= |attempts| || attempts[id].outcome.Some? { return Some(AlreadyResolved); }
      var intent := attempts[id].intent;
      attempts := attempts[id := attempts[id].(outcome := Some(outcome))];
      if outcome == Ambiguous && intent in intents && intents[intent].state == Prepared {
        intents := intents[intent := intents[intent].(state := OutcomeUnknown)];
      }
      return None;
    }

    method ReconcileAttempt(id: nat, settled: Outcome) returns (refusal: Option<Error>)
      modifies this`attempts
      ensures Tables() == Next(old(Tables()), ReconcileOp(id, settled))
      ensures refusal == None <==>
        settled != Ambiguous && id < old(|attempts|) && old(attempts)[id].outcome == Some(Ambiguous)
      ensures refusal.Some? ==> refusal.value == if settled == Ambiguous then NotSettled else NotAmbiguous
      ensures refusal.Some? ==> attempts == old(attempts)
      ensures refusal == None ==> attempts == old(attempts)[id := old(attempts)[id].(outcome := Some(settled))]
    {
      if settled == Ambiguous { return Some(NotSettled); }
      if id >= |attempts| || attempts[id].outcome != Some(Ambiguous) { return Some(NotAmbiguous); }
      attempts := attempts[id := attempts[id].(outcome := Some(settled))];
      return None;
    }
  }
}
