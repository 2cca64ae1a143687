/** Exactly when each benchmark is confirmed, sampled and active, in every reachable world. */
module FakeTigTimes {
  import opened Wrappers
  import opened FakeTig
  import opened FakeTigSafety
  import Ids
  import Sampling

  // ---------------------------------------------------------------- one block

  ghost function Samples(rules: Rules, challenge: string): nat {
    if challenge in rules.challenges then rules.challenges[challenge].samples else 3
  }

  ghost function ActiveBlocks(rules: Rules, challenge: string): nat {
    if challenge in rules.challenges then rules.challenges[challenge].lifespan else 120
  }

  /** What never changes, and the rulings asked for since the last block. */
  ghost predicate IsRuled(b: Bench, c: Bench, height: int) {
    && c.challenge == b.challenge && c.nonces == b.nonces && c.fee == b.fee && c.started == b.started
    && c.verified == (if b.verifyPending then Some(height) else b.verified)
    && c.fraud == (if b.fraudPending then Some(height) else b.fraud)
    && !c.verifyPending
    && !c.fraudPending
  }

  /** A precommit and a benchmark are confirmed by the first block far enough from where they were sent. */
  ghost predicate IsConfirmed(rules: Rules, id: nat, b: Bench, c: Bench, height: int) {
    && c.precommit
       == (if b.precommit == None && height >= b.started + rules.confirmDelay then Some(height) else b.precommit)
    && (b.submission == None ==> c.submission == None)
    && (b.submission.Some? ==>
          && c.submission.Some?
          && var s, t := b.submission.value, c.submission.value;
          && var due := s.confirmed == None && c.precommit.Some? && height >= s.submitted + rules.confirmDelay;
          && t.stopped == s.stopped
          && t.submitted == s.submitted
          && t.confirmed == (if due then Some(height) else s.confirmed)
          && t.sampled == (if due && !s.stopped
                           then Some(Sampling.Sample(rules.weight(id), b.nonces, Samples(rules, b.challenge)))
                           else s.sampled))
  }

  /** A proof is confirmed the same way, and makes the benchmark active. */
  ghost predicate IsProved(rules: Rules, b: Bench, c: Bench, height: int) {
    var due := b.proof.Some? && b.proof.value.confirmed == None
      && height >= b.proof.value.submitted + rules.confirmDelay;
    if due then
      && var from := height + rules.activation(b.challenge, b.proof.value.delay);
      && c.proof == Some(ProofSubmission(b.proof.value.submitted, Some(height), b.proof.value.delay, Some(from)))
      && c.activeFrom == Some(from)
      && c.activeUntil == Some(b.started + ActiveBlocks(rules, b.challenge))
    else
      c.proof == b.proof && c.activeFrom == b.activeFrom && c.activeUntil == b.activeUntil
  }

  // The stages of minting one benchmark.
  lemma MintStages(rules: Rules, id: nat, b: Bench, height: int)
    returns (first: Bench, second: Bench, third: Bench, fourth: Bench)
    ensures first == ConfirmPrecommit(Rule(b, height), height, rules.confirmDelay)
    ensures second == ConfirmBenchmark(first, height, rules.confirmDelay)
    ensures third == ConfirmProof(second, height, rules.confirmDelay)
    ensures fourth == if BenchmarkIsDue(first, height, rules.confirmDelay) && !b.submission.value.stopped
                      then WithSample(rules, id, third) else third
    ensures Mint(rules, id, b, height) == if ProofIsDue(b, height, rules.confirmDelay)
                                          then WithActivation(rules, fourth, height) else fourth
  {
    first := ConfirmPrecommit(Rule(b, height), height, rules.confirmDelay);
    second := ConfirmBenchmark(first, height, rules.confirmDelay);
    third := ConfirmProof(second, height, rules.confirmDelay);
    fourth := if BenchmarkIsDue(first, height, rules.confirmDelay) && !b.submission.value.stopped
              then WithSample(rules, id, third) else third;
  }

  lemma FirstStage(b: Bench, height: int, delay: nat, first: Bench)
    requires first == ConfirmPrecommit(Rule(b, height), height, delay)
    ensures IsRuled(b, first, height)
    ensures first.precommit
         == (if b.precommit == None && height >= b.started + delay then Some(height) else b.precommit)
    ensures first.submission == b.submission && first.proof == b.proof
    ensures first.activeFrom == b.activeFrom && first.activeUntil == b.activeUntil
  {
  }

  lemma SecondStage(first: Bench, height: int, delay: nat, second: Bench)
    requires second == ConfirmBenchmark(first, height, delay)
    ensures second == first.(submission := second.submission)
    ensures first.submission == None ==> second.submission == None
    ensures first.submission.Some? ==>
      var s := first.submission.value;
      var due := s.confirmed == None && first.precommit.Some? && height >= s.submitted + delay;
      second.submission == Some(s.(confirmed := if due then Some(height) else s.confirmed))
  {
  }

  lemma ThirdStage(second: Bench, height: int, delay: nat, third: Bench)
    requires third == ConfirmProof(second, height, delay)
    ensures third == second.(proof := third.proof)
    ensures second.proof == None ==> third.proof == None
    ensures second.proof.Some? ==>
      var p := second.proof.value;
      var due := p.confirmed == None && height >= p.submitted + delay;
      third.proof == Some(p.(confirmed := if due then Some(height) else p.confirmed))
  {
  }

  lemma FourthStage(rules: Rules, id: nat, third: Bench)
    ensures WithSample(rules, id, third) == third.(submission := WithSample(rules, id, third).submission)
    ensures third.submission.Some? ==> WithSample(rules, id, third).submission == Some(third.submission.value.(
      sampled := Some(Sampling.Sample(rules.weight(id), third.nonces, Samples(rules, third.challenge)))))
  {
  }

  lemma LastStage(rules: Rules, fourth: Bench, height: int)
    requires fourth.proof.Some?
    ensures var from := height + rules.activation(fourth.challenge, fourth.proof.value.delay);
      WithActivation(rules, fourth, height) == fourth.(
        proof := Some(fourth.proof.value.(blockActive := Some(from))), activeFrom := Some(from),
        activeUntil := Some(fourth.started + ActiveBlocks(rules, fourth.challenge)))
  {
  }

  /** What minting makes of a benchmark, field by field. */
  lemma MintDoes(rules: Rules, id: nat, b: Bench, c: Bench, height: int)
    requires c == Mint(rules, id, b, height)
    ensures IsRuled(b, c, height) && IsConfirmed(rules, id, b, c, height) && IsProved(rules, b, c, height)
  {
    var first, second, third, fourth := MintStages(rules, id, b, height);
    FirstStage(b, height, rules.confirmDelay, first);
    SecondStage(first, height, rules.confirmDelay, second);
    ThirdStage(second, height, rules.confirmDelay, third);
    FourthStage(rules, id, third);
    if ProofIsDue(b, height, rules.confirmDelay) { LastStage(rules, fourth, height); }
  }

  // --------------------------------------------------------------- every block

  /** Confirmed at the first block after it was sent that is at least `delay` on, and not before. */
  ghost predicate ConfirmedOnTime(sent: int, confirmed: Option<int>, height: int, delay: nat) {
    var due := sent + if delay > 1 then delay else 1;
    confirmed == if height >= due then Some(due) else None
  }

  ghost predicate BenchmarkOnTime(rules: Rules, id: nat, b: Bench, height: int) {
    && b.started <= height
    && ConfirmedOnTime(b.started, b.precommit, height, rules.confirmDelay)
    && (b.submission.Some? ==>
          && b.precommit.Some?
          && var s := b.submission.value;
          && s.submitted <= height
          && ConfirmedOnTime(s.submitted, s.confirmed, height, rules.confirmDelay)
          && s.sampled == (if s.confirmed.Some? && !s.stopped
                           then Some(Sampling.Sample(rules.weight(id), b.nonces, Samples(rules, b.challenge)))
                           else None))
  }

  ghost predicate ProofOnTime(rules: Rules, b: Bench, height: int) {
    && (b.proof.Some? ==>
          && b.started <= b.proof.value.submitted <= height
          && b.proof.value.delay == b.proof.value.submitted - b.started
          && ConfirmedOnTime(b.proof.value.submitted, b.proof.value.confirmed, height, rules.confirmDelay)
          && b.proof.value.blockActive == b.activeFrom)
    && (if b.proof.Some? && b.proof.value.confirmed.Some? then
          && b.activeFrom
             == Some(b.proof.value.confirmed.value + rules.activation(b.challenge, b.proof.value.delay))
          && b.activeUntil == Some(b.started + ActiveBlocks(rules, b.challenge))
        else
          b.activeFrom == None && b.activeUntil == None)
  }

  ghost predicate OnTime(rules: Rules, id: nat, b: Bench, height: int) {
    BenchmarkOnTime(rules, id, b, height) && ProofOnTime(rules, b, height)
  }

  lemma MintedOnTime(rules: Rules, id: nat, b: Bench, c: Bench, height: int)
    requires OnTime(rules, id, b, height - 1)
    requires IsRuled(b, c, height) && IsConfirmed(rules, id, b, c, height) && IsProved(rules, b, c, height)
    ensures OnTime(rules, id, c, height)
  {
    MintedBenchmarkOnTime(rules, id, b, c, height);
    MintedProofOnTime(rules, b, c, height);
  }

  lemma MintedBenchmarkOnTime(rules: Rules, id: nat, b: Bench, c: Bench, height: int)
    requires BenchmarkOnTime(rules, id, b, height - 1)
    requires IsRuled(b, c, height) && IsConfirmed(rules, id, b, c, height)
    ensures BenchmarkOnTime(rules, id, c, height)
  {
  }

  lemma MintedProofOnTime(rules: Rules, b: Bench, c: Bench, height: int)
    requires ProofOnTime(rules, b, height - 1)
    requires IsRuled(b, c, height) && IsProved(rules, b, c, height)
    ensures ProofOnTime(rules, c, height)
  {
  }

  lemma AdvanceOnTime(rules: Rules, w: World, id: nat)
    requires id < |w.benches| && OnTime(rules, id, w.benches[id], w.height)
    ensures OnTime(rules, id, Advance(rules, w).benches[id], w.height + 1)
  {
    var b := w.benches[id];
    MintDoes(rules, id, b, Mint(rules, id, b, w.height + 1), w.height + 1);
    MintedOnTime(rules, id, b, Mint(rules, id, b, w.height + 1), w.height + 1);
  }

  lemma TouchedOnTime(rules: Rules, w: World, r: Request, id: nat)
    requires id < |w.benches| && OnTime(rules, id, w.benches[id], w.height)
    ensures OnTime(rules, id, Touched(w, r, id), w.height)
  {
  }

  ghost predicate AllOnTime(rules: Rules, w: World) {
    forall i :: 0 <= i < |w.benches| ==> OnTime(rules, i, w.benches[i], w.height)
  }

  lemma NewBenchOnTime(rules: Rules, w: World, r: Request, id: nat)
    requires |w.benches| <= id < |Next(rules, w, r).benches|
    ensures OnTime(rules, id, Next(rules, w, r).benches[id], w.height)
  {
  }

  lemma StepOnTime(rules: Rules, w: World, r: Request)
    requires AllOnTime(rules, w)
    ensures AllOnTime(rules, Next(rules, w, r))
  {
    var v := Next(rules, w, r);
    forall i | 0 <= i < |v.benches| ensures OnTime(rules, i, v.benches[i], v.height) {
      if r == AdvanceBlock {
        AdvanceOnTime(rules, w, i);
      } else if i < |w.benches| {
        RequestTouches(rules, w, r, i);
        TouchedOnTime(rules, w, r, i);
      } else {
        NewBenchOnTime(rules, w, r, i);
      }
    }
  }

  /**
   * In every reachable world each benchmark is confirmed at the exact height
   * its sending calls for, with the sample and the active interval that go with it.
   */
  lemma {:induction false} ConfirmationsAreOnTime(rules: Rules, w: World, rs: seq<Request>)
    requires AllOnTime(rules, w)
    ensures AllOnTime(rules, After(rules, w, rs))
  {
    if rs != [] {
      ConfirmationsAreOnTime(rules, w, rs[..|rs| - 1]);
      StepOnTime(rules, After(rules, w, rs[..|rs| - 1]), rs[|rs| - 1]);
    }
  }

  // ---------------------------------------------------------------- the writes

  /** The oldest injection queued for an endpoint. */
  ghost predicate IsQueued(injections: map<Endpoint, seq<Mode>>, e: Endpoint, mode: Option<Mode>) {
    if e in injections && injections[e] != [] then mode == Some(injections[e][0]) else mode == None
  }

  /** One more write counted, and the oldest injection of the endpoint used up. */
  ghost predicate IsArrival(w: World, v: World, e: Endpoint) {
    && v == w.(writes := v.writes, injections := v.injections)
    && v.writes == w.writes[e := (if e in w.writes then w.writes[e] else 0) + 1]
    && v.injections == (if e in w.injections && w.injections[e] != [] then w.injections[e := w.injections[e][1..]]
                        else w.injections)
  }

  /** The benchmark waits for exactly these nonces to be proved. */
  ghost predicate IsProvable(benches: seq<Bench>, id: nat, nonces: seq<nat>) {
    && id < |benches|
    && benches[id].proof == None
    && benches[id].submission.Some?
    && var s := benches[id].submission.value;
    && !s.stopped
    && s.confirmed.Some?
    && s.sampled.Some?
    && multiset(nonces) == multiset(s.sampled.value)
  }

  /** A proof sent at `height`, with the blocks it took since the benchmark started. */
  ghost predicate IsNewProof(proof: Option<ProofSubmission>, started: int, height: int) {
    && proof.Some?
    && proof.value.submitted == height
    && proof.value.confirmed == None
    && proof.value.blockActive == None
    && proof.value.delay == if height > started then height - started else 0
  }

  /** The track the fake picks: the challenge's first in id order. */
  ghost predicate IsPicked(c: Challenge, t: string) {
    t in c.tracks && Ids.IsFirst(t, c.tracks.Keys)
  }

  /** The precommit would be taken on track `t`. */
  ghost predicate IsPlaceable(rules: Rules, height: int, p: PrecommitRequest, t: string) {
    && p.ownPlayer
    && (p.block == height || p.block == height - 1)
    && p.trackEmpty
    && p.challenge in rules.challenges
    && var c := rules.challenges[p.challenge];
    && (forall x :: x in p.settings <==> x in c.tracks)
    && IsPicked(c, t)
    && p.settings[t].bundles >= c.minBundles
    && p.settings[t].fuel <= c.maxFuel
  }

  /** The benchmark of a precommit: bundles times nonces, a fee per bundle, started now and nothing else yet. */
  ghost predicate IsPlaced(rules: Rules, height: int, p: PrecommitRequest, t: string, b: Bench)
    requires IsPlaceable(rules, height, p, t)
  {
    var c := rules.challenges[p.challenge];
    && b.challenge == p.challenge
    && b.nonces == p.settings[t].bundles * c.tracks[t]
    && b.fee == c.baseFee + c.perNonceFee * p.settings[t].bundles
    && b.started == height
    && b.precommit == None && b.submission == None && b.proof == None
    && b.activeFrom == None && b.activeUntil == None
    && b.verified == None && b.fraud == None && !b.verifyPending && !b.fraudPending
  }

  lemma SelectedIsPicked(c: Challenge)
    requires c.tracks != map[]
    ensures IsPicked(c, SelectedTrack(c))
    ensures forall t :: IsPicked(c, t) ==> t == SelectedTrack(c)
  {
    var order := Ids.InOrder(c.tracks.Keys);
    SelectedIsActive(c);
    var first := SelectedTrack(c);
    forall other | other in c.tracks.Keys && other != first ensures Ids.Before(first, other) {
      var k :| 0 <= k < |order| && order[k] == other;
    }
    forall t | IsPicked(c, t) ensures t == first { Ids.FirstIsUnique(c.tracks.Keys, t, first); }
  }

  lemma PrecommitIs(rules: Rules, w: World, p: PrecommitRequest, t: string)
    requires p.challenge in rules.challenges && rules.challenges[p.challenge].tracks != map[]
    requires t == SelectedTrack(rules.challenges[p.challenge])
    ensures PrecommitIsValid(rules, w, p) <==> IsPlaceable(rules, w.height, p, t)
    ensures PrecommitIsValid(rules, w, p) ==> IsPlaced(rules, w.height, p, t, NewBench(rules, w, p))
    ensures forall x :: IsPlaceable(rules, w.height, p, x) ==> x == t
  {
    var c := rules.challenges[p.challenge];
    SelectedIsPicked(c);
    assert p.settings.Keys == c.tracks.Keys <==> forall x :: x in p.settings <==> x in c.tracks;
  }

  lemma NowhereToPlace(rules: Rules, w: World, p: PrecommitRequest, t: string)
    requires p.challenge in rules.challenges ==> rules.challenges[p.challenge].tracks == map[]
    ensures !PrecommitIsValid(rules, w, p) && !IsPlaceable(rules, w.height, p, t)
  {
  }
}
