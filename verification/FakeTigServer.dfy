/**
 * The fake's world as it is updated in place: minting a block in three loops,
 * and the handlers that change it under its lock.
 */
module FakeTigServer {
  import opened Wrappers
  import opened FakeTig
  import opened FakeTigTimes
  import Sampling

  class Server {
    const rules: Rules
    var height: int
    var round: int
    var timestamp: int
    var benches: seq<Bench>
    var injections: map<Endpoint, seq<Mode>>
    var writes: map<Endpoint, nat>

    constructor (rules: Rules, height: int, round: int, timestamp: int)
      ensures this.rules == rules && Now() == World(height, round, timestamp, [], map[], map[])
    {
      this.rules, this.height, this.round, this.timestamp := rules, height, round, timestamp;
      benches, injections, writes := [], map[], map[];
    }

    function Now(): World
      reads this
    {
      World(height, round, timestamp, benches, injections, writes)
    }

    /** Rulings and confirmations, remembering which benchmarks to sample and which to activate. */
    method ConfirmAll() returns (sampling: seq<nat>, activation: seq<nat>)
      modifies this`benches
      ensures |benches| == |old(benches)|
      ensures forall i :: 0 <= i < |benches| ==> benches[i] == Confirm(old(benches)[i], height, rules.confirmDelay)
      ensures Sampling.Ascending(sampling) && Sampling.Ascending(activation)
      ensures forall i :: i in sampling <==>
        0 <= i < |old(benches)| && NeedsSampling(old(benches)[i], height, rules.confirmDelay)
      ensures forall i :: i in activation <==>
        0 <= i < |old(benches)| && ProofIsDue(old(benches)[i], height, rules.confirmDelay)
    {
      ghost var before := benches;
      sampling, activation := [], [];
      for i := 0 to |benches|
        invariant |benches| == |before|
        invariant forall k :: 0 <= k < i ==> benches[k] == Confirm(before[k], height, rules.confirmDelay)
        invariant forall k :: i <= k < |benches| ==> benches[k] == before[k]
        invariant Sampling.Ascending(sampling) && Sampling.Ascending(activation)
        invariant forall k :: k in sampling <==> 0 <= k < i && NeedsSampling(before[k], height, rules.confirmDelay)
        invariant forall k :: k in activation <==> 0 <= k < i && ProofIsDue(before[k], height, rules.confirmDelay)
      {
        var b, samples, activates := ConfirmOne(benches[i]);
        if samples {
          AppendAscends(sampling, i);
          sampling := sampling + [i];
        }
        if activates {
          AppendAscends(activation, i);
          activation := activation + [i];
        }
        benches := benches[i := b];
      }
    }

    method ConfirmOne(bench: Bench) returns (b: Bench, samples: bool, activates: bool)
      ensures b == Confirm(bench, height, rules.confirmDelay)
      ensures samples == NeedsSampling(bench, height, rules.confirmDelay)
      ensures activates == ProofIsDue(bench, height, rules.confirmDelay)
    {
      samples, activates := false, false;
      b := ConfirmPrecommit(Rule(bench, height), height, rules.confirmDelay);
      if BenchmarkIsDue(b, height, rules.confirmDelay) {
        b := b.(submission := Some(b.submission.value.(confirmed := Some(height))));
        samples := !b.submission.value.stopped;
      }
      if ProofIsDue(b, height, rules.confirmDelay) {
        b := b.(proof := Some(b.proof.value.(confirmed := Some(height))));
        activates := true;
      }
    }

    method SampleOne(id: nat)
      requires id < |benches|
      modifies this`benches
      ensures benches == old(benches)[id := WithSample(rules, id, old(benches)[id])]
    {
      var b := benches[id];
      var nonces, moved := Sampling.SampleNonces(rules.weight(id), b.nonces, SampleCount(rules, b.challenge));
      if b.submission.Some? {
        benches := benches[id := b.(submission := Some(b.submission.value.(sampled := Some(nonces))))];
      }
    }

    /** The sampled nonces of every benchmark in `ids`. */
    method PublishSamples(ids: seq<nat>)
      requires Sampling.Ascending(ids) && forall i :: i in ids ==> i < |benches|
      modifies this`benches
      ensures |benches| == |old(benches)|
      ensures forall i :: 0 <= i < |benches| ==>
        benches[i] == if i in ids then WithSample(rules, i, old(benches)[i]) else old(benches)[i]
    {
      ghost var before, done: set<nat> := benches, {};
      for k := 0 to |ids|
        invariant |benches| == |before|
        invariant forall j :: 0 <= j < |ids| ==> (ids[j] in done <==> j < k)
        invariant forall i :: i in done ==> i in ids
        invariant forall i :: 0 <= i < |benches| ==>
          benches[i] == if i in done then WithSample(rules, i, before[i]) else before[i]
      {
        assert ids[k] in ids;
        SampleOne(ids[k]);
        done := done + {ids[k]};
      }
    }

    /** The active interval of every benchmark in `ids`. */
    method Activate(ids: seq<nat>)
      requires Sampling.Ascending(ids) && forall i :: i in ids ==> i < |benches|
      modifies this`benches
      ensures |benches| == |old(benches)|
      ensures forall i :: 0 <= i < |benches| ==>
        benches[i] == if i in ids then WithActivation(rules, old(benches)[i], height) else old(benches)[i]
    {
      ghost var before, done: set<nat> := benches, {};
      for k := 0 to |ids|
        invariant |benches| == |before|
        invariant forall j :: 0 <= j < |ids| ==> (ids[j] in done <==> j < k)
        invariant forall i :: i in done ==> i in ids
        invariant forall i :: 0 <= i < |benches| ==>
          benches[i] == if i in done then WithActivation(rules, before[i], height) else before[i]
      {
        assert ids[k] in ids;
        benches := benches[ids[k] := WithActivation(rules, benches[ids[k]], height)];
        done := done + {ids[k]};
      }
    }

    /** The next block: rulings, confirmations, samples and active intervals of every benchmark. */
    method MintBlock()
      modifies this
      ensures Now() == Next(rules, old(Now()), AdvanceBlock)
      ensures height == old(height) + 1 && timestamp == old(timestamp) + rules.secondsBetweenBlocks
      ensures round == old(round) + if rules.blocksPerRound > 0 && height % rules.blocksPerRound == 0 then 1 else 0
      ensures injections == old(injections) && writes == old(writes) && |benches| == |old(benches)|
      ensures forall i :: 0 <= i < |benches| ==>
        && IsRuled(old(benches)[i], benches[i], height)
        && IsConfirmed(rules, i, old(benches)[i], benches[i], height)
        && IsProved(rules, old(benches)[i], benches[i], height)
    {
      MintLoops();
      forall i | 0 <= i < |benches|
        ensures IsRuled(old(benches)[i], benches[i], height)
        ensures IsConfirmed(rules, i, old(benches)[i], benches[i], height)
        ensures IsProved(rules, old(benches)[i], benches[i], height)
      {
        MintDoes(rules, i, old(benches)[i], benches[i], height);
      }
    }

    method MintLoops()
      modifies this
      ensures Now() == Next(rules, old(Now()), AdvanceBlock)
    {
      height := height + 1;
      timestamp := timestamp + rules.secondsBetweenBlocks;
      if rules.blocksPerRound > 0 && height % rules.blocksPerRound == 0 {
        round := round + 1;
      }
      var sampling, activation := ConfirmAll();
      PublishSamples(sampling);
      Activate(activation);
      forall i | 0 <= i < |benches| ensures benches[i] == Mint(rules, i, old(benches)[i], height) {
      }
      assert benches == Advance(rules, old(Now())).benches;
    }

    /** Count the write and use up the injection queued for it. */
    method Arrive(e: Endpoint) returns (injection: Option<Mode>)
      modifies this`writes, this`injections
      ensures Now() == Arrived(old(Now()), e) && injection == Injected(old(Now()), e)
      ensures IsArrival(old(Now()), Now(), e) && IsQueued(old(injections), e, injection)
    {
      writes := writes[e := (if e in writes then writes[e] else 0) + 1];
      if e in injections && injections[e] != [] {
        injection := Some(injections[e][0]);
        injections := injections[e := injections[e][1..]];
      } else {
        injection := None;
      }
    }

    /** Takes a placeable precommit, unless an injection other than the ambiguous one stops it. */
    method HandlePrecommit(p: PrecommitRequest) returns (reply: Reply, ghost injection: Option<Mode>)
      modifies this
      ensures (Now(), reply) == Serve(rules, old(Now()), SubmitPrecommit(p))
      ensures IsQueued(old(injections), PrecommitEndpoint, injection)
      ensures IsArrival(old(Now()), Now().(benches := old(benches)), PrecommitEndpoint)
      ensures reply == Accepted <==> injection == None && exists t :: IsPlaceable(rules, height, p, t)
      ensures forall t :: (injection == None || injection == Some(Ambiguous)) && IsPlaceable(rules, height, p, t) ==>
        && |benches| == |old(benches)| + 1
        && benches[..|old(benches)|] == old(benches)
        && IsPlaced(rules, height, p, t, benches[|old(benches)|])
      ensures (injection.Some? && injection != Some(Ambiguous)) || (forall t :: !IsPlaceable(rules, height, p, t)) ==>
        benches == old(benches)
    {
      ghost var before := Now();
      if p.challenge in rules.challenges && rules.challenges[p.challenge].tracks != map[] {
        PrecommitIs(rules, before, p, SelectedTrack(rules.challenges[p.challenge]));
      } else {
        forall t ensures !IsPlaceable(rules, height, p, t) { NowhereToPlace(rules, before, p, t); }
        NowhereToPlace(rules, before, p, "");
      }
      reply, injection := TakePrecommit(p);
    }

    method TakePrecommit(p: PrecommitRequest) returns (reply: Reply, ghost queued: Option<Mode>)
      modifies this
      ensures (Now(), reply) == Serve(rules, old(Now()), SubmitPrecommit(p))
      ensures IsQueued(old(injections), PrecommitEndpoint, queued)
      ensures IsArrival(old(Now()), Now().(benches := old(benches)), PrecommitEndpoint)
      ensures reply == Accepted <==> queued == None && PrecommitIsValid(rules, old(Now()), p)
      ensures (queued == None || queued == Some(Ambiguous)) && PrecommitIsValid(rules, old(Now()), p) ==>
        benches == old(benches) + [NewBench(rules, old(Now()), p)]
      ensures (queued.Some? && queued != Some(Ambiguous)) || !PrecommitIsValid(rules, old(Now()), p) ==>
        benches == old(benches)
    {
      ghost var before := Now();
      var injection := Arrive(PrecommitEndpoint);
      queued := injection;
      if injection.Some? && injection != Some(Ambiguous) { return Refused, queued; }
      assert PrecommitIsValid(rules, Now(), p) == PrecommitIsValid(rules, before, p);
      if !PrecommitIsValid(rules, Now(), p) { return Refused, queued; }
      assert NewBench(rules, Now(), p) == NewBench(rules, before, p);
      benches := benches + [NewBench(rules, Now(), p)];
      reply := if injection == Some(Ambiguous) then Refused else Accepted;
    }

    method HandleBenchmark(id: nat, stopped: bool, wellFormed: bool, qualities: nat)
      returns (reply: Reply, ghost queued: Option<Mode>)
      modifies this
      ensures (Now(), reply) == Serve(rules, old(Now()), SubmitBenchmark(id, stopped, wellFormed, qualities))
      ensures IsQueued(old(injections), BenchmarkEndpoint, queued)
      ensures IsArrival(old(Now()), Now().(benches := old(benches)), BenchmarkEndpoint)
      ensures var valid :=
        && id < |old(benches)| && old(benches)[id].precommit.Some? && old(benches)[id].submission == None
        && wellFormed && (stopped || qualities == old(benches)[id].nonces);
        && (reply == Accepted <==> queued == None && valid)
        && benches == (
             if (queued == None || queued == Some(Ambiguous)) && valid
             then old(benches)[id := old(benches)[id].(submission := Some(Submission(stopped, height, None, None)))]
             else old(benches))
      ensures height == old(height) && CurrentBlock(Now()) == CurrentBlock(old(Now()))
    {
      reply := Refused;
      var injection := Arrive(BenchmarkEndpoint);
      queued := injection;
      if injection.Some? && injection != Some(Ambiguous) { return; }
      if id >= |benches| || benches[id].precommit.None? || benches[id].submission.Some? { return; }
      if !wellFormed { return; }
      if !stopped && qualities != benches[id].nonces { return; }
      benches := benches[id := benches[id].(submission := Some(Submission(stopped, height, None, None)))];
      reply := if injection == Some(Ambiguous) then Refused else Accepted;
    }

    method HandleProof(id: nat, wellFormed: bool, nonces: seq<nat>)
      returns (reply: Reply, ghost queued: Option<Mode>)
      modifies this
      ensures (Now(), reply) == Serve(rules, old(Now()), SubmitProof(id, wellFormed, nonces))
      ensures IsQueued(old(injections), ProofEndpoint, queued)
      ensures IsArrival(old(Now()), Now().(benches := old(benches)), ProofEndpoint)
      ensures var valid := IsProvable(old(benches), id, nonces) && wellFormed;
        && (reply == Accepted <==> queued == None && valid)
        && (if (queued == None || queued == Some(Ambiguous)) && valid then
              && |benches| == |old(benches)|
              && benches[id] == old(benches)[id].(proof := benches[id].proof)
              && IsNewProof(benches[id].proof, old(benches)[id].started, height)
              && forall i :: 0 <= i < |benches| && i != id ==> benches[i] == old(benches)[i]
            else
              benches == old(benches))
    {
      reply := Refused;
      var injection := Arrive(ProofEndpoint);
      queued := injection;
      if injection.Some? && injection != Some(Ambiguous) { return; }
      if id >= |benches| || benches[id].submission.None? { return; }
      var s := benches[id].submission.value;
      if s.stopped || s.confirmed.None? || s.sampled.None? || benches[id].proof.Some? || !wellFormed { return; }
      SortingComparesMultisets(nonces, s.sampled.value);
      if Sampling.Sort(nonces) != Sampling.Sort(s.sampled.value) { return; }
      var delay := SaturatingSub(height, benches[id].started);
      benches := benches[id := benches[id].(proof := Some(ProofSubmission(height, None, delay, None)))];
      reply := if injection == Some(Ambiguous) then Refused else Accepted;
    }

    method HandleVerify(id: nat) returns (reply: Reply)
      modifies this
      ensures (Now(), reply) == Serve(rules, old(Now()), Verify(id))
      ensures reply == Accepted <==>
        && id < |old(benches)| && old(benches)[id].proof.Some? && old(benches)[id].proof.value.confirmed.Some?
        && old(benches)[id].fraud == None && !old(benches)[id].fraudPending
      ensures reply == Accepted ==>
        Now() == old(Now()).(benches := old(benches)[id := old(benches)[id].(verifyPending := true)])
      ensures reply == Refused ==> Now() == old(Now())
      ensures CurrentBlock(Now()) == CurrentBlock(old(Now()))
    {
      if id >= |benches| || benches[id].proof.None? || benches[id].proof.value.confirmed.None? { return Refused; }
      if benches[id].fraud.Some? || benches[id].fraudPending { return Refused; }
      benches := benches[id := benches[id].(verifyPending := true)];
      return Accepted;
    }

    method HandleFraud(id: nat) returns (reply: Reply)
      modifies this
      ensures (Now(), reply) == Serve(rules, old(Now()), Fraud(id))
      ensures reply == Accepted <==> id < |old(benches)|
      ensures reply == Accepted ==>
        Now() == old(Now()).(benches := old(benches)[id := old(benches)[id].(fraudPending := true)])
      ensures reply == Refused ==> Now() == old(Now())
      ensures CurrentBlock(Now()) == CurrentBlock(old(Now()))
    {
      if id >= |benches| { return Refused; }
      benches := benches[id := benches[id].(fraudPending := true)];
      return Accepted;
    }
  }

  predicate NonDescending(s: seq<nat>) {
    forall i, j :: 0 <= i < j < |s| ==> s[i] <= s[j]
  }

  lemma {:induction false} InsertSorts(x: nat, s: seq<nat>)
    requires NonDescending(s)
    ensures NonDescending(Sampling.Insert(x, s))
  {
    if s != [] && x > s[0] {
      var rest := Sampling.Insert(x, s[1..]);
      InsertSorts(x, s[1..]);
      forall k | 0 <= k < |rest| ensures s[0] <= rest[k] {
        assert rest[k] in multiset(rest);
        assert rest[k] in multiset(s[1..]) + multiset{x};
        assert rest[k] in s[1..] || rest[k] == x;
      }
    }
  }

  lemma {:induction false} SortSorts(s: seq<nat>)
    ensures NonDescending(Sampling.Sort(s))
  {
    if s != [] {
      SortSorts(s[1..]);
      InsertSorts(s[0], Sampling.Sort(s[1..]));
    }
  }

  lemma SmallestFirst(a: seq<nat>, b: seq<nat>)
    requires NonDescending(a) && NonDescending(b) && multiset(a) == multiset(b) && a != []
    ensures b != [] && a[0] == b[0]
  {
    Sampling.SameSize(a, b);
    assert a[0] in b && b[0] in a;
  }

  lemma TailOf(a: seq<nat>)
    requires a != []
    ensures multiset(a[1..]) == multiset(a) - multiset{a[0]}
  {
    assert a == [a[0]] + a[1..];
  }

  lemma {:induction false} SortedIsUnique(a: seq<nat>, b: seq<nat>)
    requires NonDescending(a) && NonDescending(b) && multiset(a) == multiset(b)
    ensures a == b
  {
    if a == [] {
      Sampling.SameSize(a, b);
    } else {
      SmallestFirst(a, b);
      TailOf(a);
      TailOf(b);
      SortedIsUnique(a[1..], b[1..]);
      assert a == [a[0]] + a[1..];
      assert b == [b[0]] + b[1..];
    }
  }

  lemma AppendAscends(s: seq<nat>, x: nat)
    requires Sampling.Ascending(s) && forall y :: y in s ==> y < x
    ensures Sampling.Ascending(s + [x])
  {
    var t := s + [x];
    forall i, j | 0 <= i < j < |t| ensures t[i] < t[j] {
      if j == |s| { assert s[i] in s; }
    }
  }

  /** Sorting both sides and comparing them compares them as multisets. */
  lemma SortingComparesMultisets(a: seq<nat>, b: seq<nat>)
    ensures Sampling.Sort(a) == Sampling.Sort(b) <==> multiset(a) == multiset(b)
  {
    if multiset(a) == multiset(b) {
      SortSorts(a);
      SortSorts(b);
      SortedIsUnique(Sampling.Sort(a), Sampling.Sort(b));
    }
  }
}
