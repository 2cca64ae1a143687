/**
 * Every reachable world confirms in order, never moves a confirmation, and
 * settles a block's contents when it is minted.
 */
module FakeTigSafety {
  import opened Wrappers
  import opened FakeTig
  import Sampling

  // -------------------------------------------------------------- invariants

  /** `later` was confirmed after it was sent at `sent`, and by `height`. */
  predicate Within(sent: int, later: Option<int>, height: int) {
    later.Some? ==> sent < later.value <= height
  }

  /** started < precommit < benchmark < proof < verified, and verified <= fraud, wherever the later one exists. */
  predicate InOrder(b: Bench, height: int) {
    && b.started <= height
    && Within(b.started, b.precommit, height)
    && (b.submission.Some? ==>
          && b.precommit.Some?
          && b.precommit.value <= b.submission.value.submitted <= height
          && Within(b.submission.value.submitted, b.submission.value.confirmed, height))
    && (b.proof.Some? ==>
          && BenchmarkHeight(b).Some?
          && BenchmarkHeight(b).value <= b.proof.value.submitted <= height
          && Within(b.proof.value.submitted, b.proof.value.confirmed, height))
    && (b.verified.Some? ==> ProofHeight(b).Some? && ProofHeight(b).value < b.verified.value <= height)
    && (b.fraud.Some? ==> b.fraud.value <= height && (b.verified.Some? ==> b.verified.value <= b.fraud.value))
    && (b.verifyPending ==> ProofHeight(b).Some? && b.fraud == None)
  }

  /** A sample is published exactly with a confirmed benchmark that did not stop, and it is a sample. */
  predicate Sampled(rules: Rules, b: Bench) {
    b.submission.Some? ==>
      && (b.submission.value.sampled.Some? <==> b.submission.value.confirmed.Some? && !b.submission.value.stopped)
      && (b.submission.value.sampled.Some? ==>
            Sampling.IsSample(b.submission.value.sampled.value, b.nonces, SampleCount(rules, b.challenge)))
      && (b.proof.Some? ==> !b.submission.value.stopped)
  }

  /** The active interval is set when the proof is confirmed, and starts no earlier. */
  predicate Activated(b: Bench) {
    && (b.activeFrom.Some? <==> ProofHeight(b).Some?)
    && (b.activeUntil.Some? <==> ProofHeight(b).Some?)
    && (b.activeFrom.Some? ==> b.activeFrom.value >= ProofHeight(b).value)
    && (b.proof.Some? ==> b.proof.value.blockActive == b.activeFrom)
  }

  predicate BenchInv(rules: Rules, b: Bench, height: int) {
    InOrder(b, height) && Sampled(rules, b) && Activated(b)
  }

  predicate Inv(rules: Rules, w: World) {
    forall i :: 0 <= i < |w.benches| ==> BenchInv(rules, w.benches[i], w.height)
  }

  predicate IsGenesis(w: World) {
    w.benches == []
  }

  /** Everything outstanding was sent before the block at `height`. */
  predicate SentBefore(b: Bench, height: int) {
    && b.started < height
    && (b.submission.Some? ==> b.submission.value.submitted < height)
    && (b.proof.Some? ==> b.proof.value.submitted < height)
  }

  lemma RuleKeepsOrder(b: Bench, height: int)
    requires InOrder(b, height - 1)
    ensures InOrder(Rule(b, height), height) && SentBefore(Rule(b, height), height)
  {
  }

  lemma ConfirmKeepsOrder(b: Bench, height: int, delay: nat)
    requires InOrder(b, height) && SentBefore(b, height)
    ensures InOrder(ConfirmPrecommit(b, height, delay), height)
      && SentBefore(ConfirmPrecommit(b, height, delay), height)
    ensures InOrder(ConfirmBenchmark(b, height, delay), height)
      && SentBefore(ConfirmBenchmark(b, height, delay), height)
    ensures InOrder(ConfirmProof(b, height, delay), height) && SentBefore(ConfirmProof(b, height, delay), height)
  {
  }

  lemma DressingKeepsOrder(rules: Rules, id: nat, b: Bench, height: int)
    requires InOrder(b, height)
    ensures InOrder(WithSample(rules, id, b), height) && InOrder(WithActivation(rules, b, height), height)
  {
  }

  lemma ConfirmedInOrder(b: Bench, height: int, delay: nat)
    requires InOrder(b, height - 1)
    ensures InOrder(Confirm(b, height, delay), height)
  {
    var ruled := Rule(b, height);
    RuleKeepsOrder(b, height);
    ConfirmKeepsOrder(ruled, height, delay);
    var first := ConfirmPrecommit(ruled, height, delay);
    ConfirmKeepsOrder(first, height, delay);
    ConfirmKeepsOrder(ConfirmBenchmark(first, height, delay), height, delay);
  }

  lemma MintKeepsOrder(rules: Rules, id: nat, b: Bench, height: int)
    requires InOrder(b, height - 1)
    ensures InOrder(Mint(rules, id, b, height), height)
  {
    ConfirmedInOrder(b, height, rules.confirmDelay);
    DressedInOrder(rules, id, Confirm(b, height, rules.confirmDelay), height,
                   NeedsSampling(b, height, rules.confirmDelay), ProofIsDue(b, height, rules.confirmDelay));
  }

  lemma DressedInOrder(rules: Rules, id: nat, b: Bench, height: int, sampling: bool, activating: bool)
    requires InOrder(b, height)
    ensures var sampled := if sampling then WithSample(rules, id, b) else b;
      InOrder(if activating then WithActivation(rules, sampled, height) else sampled, height)
  {
    var sampled := if sampling then WithSample(rules, id, b) else b;
    DressingKeepsOrder(rules, id, b, height);
    DressingKeepsOrder(rules, id, sampled, height);
  }

  lemma MintKeepsSample(rules: Rules, id: nat, b: Bench, height: int)
    requires InOrder(b, height - 1) && Sampled(rules, b)
    ensures Sampled(rules, Mint(rules, id, b, height))
  {
    Sampling.SampleIsSample(rules.weight(id), b.nonces, SampleCount(rules, b.challenge));
  }

  lemma MintKeepsActivation(rules: Rules, id: nat, b: Bench, height: int)
    requires InOrder(b, height - 1) && Activated(b)
    ensures Activated(Mint(rules, id, b, height))
  {
  }

  /** What a request other than the next block makes of a benchmark already there. */
  function Touched(w: World, r: Request, id: nat): Bench
    requires id < |w.benches|
  {
    var b := w.benches[id];
    match r
    case SubmitBenchmark(target, stopped, wellFormed, qualities) =>
      if target == id && !Blocked(w, BenchmarkEndpoint) && BenchmarkIsValid(w, id, stopped, wellFormed, qualities)
      then b.(submission := Some(Submission(stopped, w.height, None, None))) else b
    case SubmitProof(target, wellFormed, nonces) =>
      if target == id && !Blocked(w, ProofEndpoint) && ProofIsValid(w, id, wellFormed, nonces)
      then b.(proof := Some(ProofSubmission(w.height, None, SaturatingSub(w.height, b.started), None))) else b
    case Verify(target) => if target == id && VerifyIsValid(w, id) then b.(verifyPending := true) else b
    case Fraud(target) => if target == id then b.(fraudPending := true) else b
    case _ => b
  }

  lemma RequestTouches(rules: Rules, w: World, r: Request, id: nat)
    requires r != AdvanceBlock && id < |w.benches|
    ensures id < |Next(rules, w, r).benches| && Next(rules, w, r).benches[id] == Touched(w, r, id)
  {
  }

  lemma TouchedKeepsInv(rules: Rules, w: World, r: Request, id: nat)
    requires id < |w.benches| && BenchInv(rules, w.benches[id], w.height)
    ensures BenchInv(rules, Touched(w, r, id), w.height)
  {
  }

  lemma RequestKeepsInv(rules: Rules, w: World, r: Request, id: nat)
    requires r != AdvanceBlock && id < |w.benches| && BenchInv(rules, w.benches[id], w.height)
    ensures BenchInv(rules, Next(rules, w, r).benches[id], w.height)
  {
    RequestTouches(rules, w, r, id);
    TouchedKeepsInv(rules, w, r, id);
  }

  lemma NewBenchIsSound(rules: Rules, w: World, r: Request, id: nat)
    requires |w.benches| <= id < |Next(rules, w, r).benches|
    ensures r != AdvanceBlock && BenchInv(rules, Next(rules, w, r).benches[id], w.height)
  {
  }

  lemma MintKeepsInv(rules: Rules, id: nat, b: Bench, height: int)
    requires BenchInv(rules, b, height - 1)
    ensures BenchInv(rules, Mint(rules, id, b, height), height)
  {
    MintKeepsOrder(rules, id, b, height);
    MintKeepsSample(rules, id, b, height);
    MintKeepsActivation(rules, id, b, height);
  }

  lemma AdvanceKeepsInv(rules: Rules, w: World)
    requires Inv(rules, w)
    ensures Inv(rules, Advance(rules, w))
  {
    var v := Advance(rules, w);
    forall i | 0 <= i < |v.benches| ensures BenchInv(rules, v.benches[i], v.height) {
      MintKeepsInv(rules, i, w.benches[i], v.height);
    }
  }

  lemma RequestsKeepInv(rules: Rules, w: World, v: World, r: Request)
    requires Inv(rules, w) && r != AdvanceBlock && v == Next(rules, w, r)
    ensures Inv(rules, v)
  {
    forall i | 0 <= i < |v.benches| ensures BenchInv(rules, v.benches[i], v.height) {
      if i < |w.benches| { RequestKeepsInv(rules, w, r, i); } else { NewBenchIsSound(rules, w, r, i); }
    }
  }

  lemma StepKeepsInv(rules: Rules, w: World, r: Request)
    requires Inv(rules, w)
    ensures Inv(rules, Next(rules, w, r))
  {
    if r == AdvanceBlock { AdvanceKeepsInv(rules, w); } else { RequestsKeepInv(rules, w, Next(rules, w, r), r); }
  }

  lemma {:induction false} RunKeepsInv(rules: Rules, w: World, rs: seq<Request>)
    requires Inv(rules, w)
    ensures Inv(rules, After(rules, w, rs))
  {
    if rs != [] {
      RunKeepsInv(rules, w, rs[..|rs| - 1]);
      StepKeepsInv(rules, After(rules, w, rs[..|rs| - 1]), rs[|rs| - 1]);
    }
  }

  // ---------------------------------------------------------------- theorems

  /** The heights of one benchmark, in every world reached from an empty one. */
  lemma HeightsAreOrdered(rules: Rules, w: World, rs: seq<Request>, id: nat)
    requires IsGenesis(w) && id < |After(rules, w, rs).benches|
    ensures var b := After(rules, w, rs).benches[id];
      && (b.precommit.Some? ==> b.started < b.precommit.value)
      && (BenchmarkHeight(b).Some? ==> b.precommit.Some? && b.precommit.value < BenchmarkHeight(b).value)
      && (ProofHeight(b).Some? ==> BenchmarkHeight(b).Some? && BenchmarkHeight(b).value < ProofHeight(b).value)
      && (b.verified.Some? ==> ProofHeight(b).Some? && ProofHeight(b).value < b.verified.value)
      && (b.verified.Some? && b.fraud.Some? ==> b.verified.value <= b.fraud.value)
  {
    RunKeepsInv(rules, w, rs);
    assert BenchInv(rules, After(rules, w, rs).benches[id], After(rules, w, rs).height);
  }

  predicate Keeps<T(==)>(before: Option<T>, after: Option<T>) {
    before.Some? ==> after == before
  }

  /** What a benchmark never loses: its identity, its confirmations and its published sample. */
  predicate BenchFollows(b: Bench, c: Bench) {
    && c.challenge == b.challenge && c.nonces == b.nonces && c.fee == b.fee && c.started == b.started
    && Keeps(b.precommit, c.precommit)
    && Keeps(BenchmarkHeight(b), BenchmarkHeight(c))
    && Keeps(ProofHeight(b), ProofHeight(c))
    && Keeps(b.activeFrom, c.activeFrom)
    && Keeps(b.activeUntil, c.activeUntil)
    && (b.submission.Some? ==>
          && c.submission.Some?
          && c.submission.value.stopped == b.submission.value.stopped
          && c.submission.value.submitted == b.submission.value.submitted
          && Keeps(b.submission.value.sampled, c.submission.value.sampled))
    && (b.proof.Some? ==> c.proof.Some? && c.proof.value.submitted == b.proof.value.submitted)
  }

  /** A confirmation that appears is the height of the block just minted. */
  predicate FreshAt(before: Option<int>, after: Option<int>, height: int) {
    after == before || after == Some(height)
  }

  predicate HeightsFreshAt(b: Bench, c: Bench, height: int) {
    && FreshAt(b.precommit, c.precommit, height)
    && FreshAt(BenchmarkHeight(b), BenchmarkHeight(c), height)
    && FreshAt(ProofHeight(b), ProofHeight(c), height)
    && FreshAt(b.verified, c.verified, height)
    && FreshAt(b.fraud, c.fraud, height)
    && (c.activeFrom != b.activeFrom ==> c.activeFrom.Some? && c.activeFrom.value >= height)
  }

  lemma MintFollows(rules: Rules, id: nat, b: Bench, height: int)
    requires BenchInv(rules, b, height - 1)
    ensures BenchFollows(b, Mint(rules, id, b, height))
    ensures HeightsFreshAt(b, Mint(rules, id, b, height), height)
    ensures Mint(rules, id, b, height).verified != b.verified ==> b.verifyPending
    ensures Mint(rules, id, b, height).fraud != b.fraud ==> b.fraudPending
  {
  }

  /** A request other than the next block touches no height at all. */
  predicate SameHeights(b: Bench, c: Bench) {
    && c.precommit == b.precommit && BenchmarkHeight(c) == BenchmarkHeight(b) && ProofHeight(c) == ProofHeight(b)
    && c.verified == b.verified && c.fraud == b.fraud
    && c.activeFrom == b.activeFrom && c.activeUntil == b.activeUntil
  }

  lemma TouchedKeepsHeights(rules: Rules, w: World, r: Request, id: nat)
    requires id < |w.benches| && BenchInv(rules, w.benches[id], w.height)
    ensures SameHeights(w.benches[id], Touched(w, r, id)) && BenchFollows(w.benches[id], Touched(w, r, id))
  {
  }

  lemma RequestKeepsHeights(rules: Rules, w: World, r: Request, id: nat)
    requires r != AdvanceBlock && id < |w.benches| && BenchInv(rules, w.benches[id], w.height)
    ensures id < |Next(rules, w, r).benches|
    ensures SameHeights(w.benches[id], Next(rules, w, r).benches[id])
    ensures BenchFollows(w.benches[id], Next(rules, w, r).benches[id])
  {
    RequestTouches(rules, w, r, id);
    TouchedKeepsHeights(rules, w, r, id);
  }

  lemma NewBenchHasNoHeights(rules: Rules, w: World, r: Request, id: nat)
    requires |w.benches| <= id < |Next(rules, w, r).benches|
    ensures var b := Next(rules, w, r).benches[id];
      && b.precommit == None && b.submission == None && b.proof == None
      && b.verified == None && b.fraud == None && b.activeFrom == None && b.activeUntil == None
  {
  }

  lemma SameHeightsSameSets(w: World, v: World, h: int)
    requires |w.benches| <= |v.benches|
    requires forall i :: 0 <= i < |w.benches| ==> SameHeights(w.benches[i], v.benches[i])
    requires forall i :: |w.benches| <= i < |v.benches| ==>
      && v.benches[i].precommit == None && BenchmarkHeight(v.benches[i]) == None && ProofHeight(v.benches[i]) == None
      && v.benches[i].verified == None && v.benches[i].fraud == None && v.benches[i].activeFrom == None
    ensures PrecommitsAt(v, h) == PrecommitsAt(w, h) && BenchmarksAt(v, h) == BenchmarksAt(w, h)
      && ProofsAt(v, h) == ProofsAt(w, h)
    ensures VerifiedAt(v, h) == VerifiedAt(w, h) && FraudsAt(v, h) == FraudsAt(w, h) && ActiveAt(v, h) == ActiveAt(w, h)
  {
  }

  lemma RequestKeepsSets(rules: Rules, w: World, v: World, r: Request, h: int)
    requires Inv(rules, w) && r != AdvanceBlock && v == Next(rules, w, r)
    ensures PrecommitsAt(v, h) == PrecommitsAt(w, h) && BenchmarksAt(v, h) == BenchmarksAt(w, h)
      && ProofsAt(v, h) == ProofsAt(w, h)
    ensures VerifiedAt(v, h) == VerifiedAt(w, h) && FraudsAt(v, h) == FraudsAt(w, h) && ActiveAt(v, h) == ActiveAt(w, h)
  {
    assert |w.benches| <= |v.benches|;
    forall i | 0 <= i < |w.benches| ensures SameHeights(w.benches[i], v.benches[i]) {
      RequestKeepsHeights(rules, w, r, i);
    }
    forall i | |w.benches| <= i < |v.benches|
      ensures v.benches[i].precommit == None && BenchmarkHeight(v.benches[i]) == None
        && ProofHeight(v.benches[i]) == None
      ensures v.benches[i].verified == None && v.benches[i].fraud == None && v.benches[i].activeFrom == None
    {
      NewBenchHasNoHeights(rules, w, r, i);
    }
    SameHeightsSameSets(w, v, h);
  }

  /** No write, injection or ruling changes what the current block says. */
  lemma BlockIsSettledWhenMinted(rules: Rules, w: World, r: Request)
    requires Inv(rules, w) && r != AdvanceBlock
    ensures CurrentBlock(Next(rules, w, r)) == CurrentBlock(w)
  {
    RequestKeepsSets(rules, w, Next(rules, w, r), r, w.height);
  }

  predicate NoBlock(rs: seq<Request>) {
    forall i :: 0 <= i < |rs| ==> rs[i] != AdvanceBlock
  }

  lemma {:induction false} BlockStaysUntilTheNext(rules: Rules, w: World, rs: seq<Request>)
    requires Inv(rules, w) && NoBlock(rs)
    ensures CurrentBlock(After(rules, w, rs)) == CurrentBlock(w)
  {
    if rs != [] {
      var front := rs[..|rs| - 1];
      BlockStaysUntilTheNext(rules, w, front);
      RunKeepsInv(rules, w, front);
      BlockIsSettledWhenMinted(rules, After(rules, w, front), rs[|rs| - 1]);
    }
  }

  // ------------------------------------------------------ over whole histories

  predicate WorldFollows(w: World, v: World) {
    && w.height <= v.height
    && |w.benches| <= |v.benches|
    && (forall i :: 0 <= i < |w.benches| ==> BenchFollows(w.benches[i], v.benches[i]))
  }

  lemma AdvanceFollows(rules: Rules, w: World)
    requires Inv(rules, w)
    ensures WorldFollows(w, Advance(rules, w))
  {
    var v := Advance(rules, w);
    forall i | 0 <= i < |w.benches| ensures BenchFollows(w.benches[i], v.benches[i]) {
      AdvanceFollowsOne(rules, w, i, v.benches[i]);
    }
  }

  lemma AdvanceFollowsOne(rules: Rules, w: World, i: nat, c: Bench)
    requires Inv(rules, w) && i < |w.benches| && c == Mint(rules, i, w.benches[i], w.height + 1)
    ensures BenchFollows(w.benches[i], c)
  {
    MintFollows(rules, i, w.benches[i], w.height + 1);
  }

  lemma RequestFollows(rules: Rules, w: World, v: World, r: Request)
    requires Inv(rules, w) && r != AdvanceBlock && v == Next(rules, w, r)
    ensures WorldFollows(w, v)
  {
    assert v.height == w.height && |w.benches| <= |v.benches|;
    forall i | 0 <= i < |w.benches| ensures BenchFollows(w.benches[i], v.benches[i]) {
      RequestKeepsHeights(rules, w, r, i);
    }
  }

  lemma StepFollows(rules: Rules, w: World, r: Request)
    requires Inv(rules, w)
    ensures WorldFollows(w, Next(rules, w, r))
  {
    if r == AdvanceBlock { AdvanceFollows(rules, w); } else { RequestFollows(rules, w, Next(rules, w, r), r); }
  }

  /** Precommit, benchmark and proof heights, once set, are what they are in every later world. */
  lemma {:induction false} ConfirmationsNeverMove(rules: Rules, w: World, rs: seq<Request>)
    requires Inv(rules, w)
    ensures WorldFollows(w, After(rules, w, rs))
  {
    if rs != [] {
      var front := rs[..|rs| - 1];
      ConfirmationsNeverMove(rules, w, front);
      RunKeepsInv(rules, w, front);
      StepFollows(rules, After(rules, w, front), rs[|rs| - 1]);
    }
  }

  /** The block at `h` confirms the same of both. */
  predicate SameAt(b: Bench, c: Bench, h: int) {
    && (c.precommit == Some(h) <==> b.precommit == Some(h))
    && (BenchmarkHeight(c) == Some(h) <==> BenchmarkHeight(b) == Some(h))
    && (ProofHeight(c) == Some(h) <==> ProofHeight(b) == Some(h))
  }

  lemma MintIsSameAt(rules: Rules, id: nat, b: Bench, height: int, h: int)
    requires BenchInv(rules, b, height - 1) && h < height
    ensures SameAt(b, Mint(rules, id, b, height), h)
  {
    MintFollows(rules, id, b, height);
  }

  lemma SameAtSameSets(w: World, v: World, h: int)
    requires |w.benches| <= |v.benches|
    requires forall i :: 0 <= i < |w.benches| ==> SameAt(w.benches[i], v.benches[i], h)
    requires forall i :: |w.benches| <= i < |v.benches| ==>
      v.benches[i].precommit == None && BenchmarkHeight(v.benches[i]) == None && ProofHeight(v.benches[i]) == None
    ensures PrecommitsAt(v, h) == PrecommitsAt(w, h) && BenchmarksAt(v, h) == BenchmarksAt(w, h)
      && ProofsAt(v, h) == ProofsAt(w, h)
  {
  }

  lemma AdvanceIsSameAt(rules: Rules, w: World, h: int)
    requires Inv(rules, w) && h <= w.height
    ensures var v := Advance(rules, w);
      |v.benches| == |w.benches| && forall i :: 0 <= i < |w.benches| ==> SameAt(w.benches[i], v.benches[i], h)
  {
    var v := Advance(rules, w);
    forall i | 0 <= i < |w.benches| ensures SameAt(w.benches[i], v.benches[i], h) {
      AdvanceIsSameAtOne(rules, w, i, v.benches[i], h);
    }
  }

  lemma AdvanceIsSameAtOne(rules: Rules, w: World, i: nat, c: Bench, h: int)
    requires Inv(rules, w) && i < |w.benches| && h <= w.height && c == Mint(rules, i, w.benches[i], w.height + 1)
    ensures SameAt(w.benches[i], c, h)
  {
    MintIsSameAt(rules, i, w.benches[i], w.height + 1, h);
  }

  lemma MintedSetsStay(rules: Rules, w: World, r: Request, h: int)
    requires Inv(rules, w) && h <= w.height
    ensures PrecommitsAt(Next(rules, w, r), h) == PrecommitsAt(w, h)
    ensures BenchmarksAt(Next(rules, w, r), h) == BenchmarksAt(w, h)
    ensures ProofsAt(Next(rules, w, r), h) == ProofsAt(w, h)
  {
    if r == AdvanceBlock {
      AdvanceIsSameAt(rules, w, h);
      SameAtSameSets(w, Advance(rules, w), h);
    } else {
      RequestKeepsSets(rules, w, Next(rules, w, r), r, h);
    }
  }

  /** The confirmations of every block ever minted are fixed for good. */
  lemma {:induction false} PastConfirmationsAreFixed(rules: Rules, w: World, rs: seq<Request>, h: int)
    requires Inv(rules, w) && h <= w.height
    ensures PrecommitsAt(After(rules, w, rs), h) == PrecommitsAt(w, h)
    ensures BenchmarksAt(After(rules, w, rs), h) == BenchmarksAt(w, h)
    ensures ProofsAt(After(rules, w, rs), h) == ProofsAt(w, h)
  {
    if rs != [] {
      var front := rs[..|rs| - 1];
      PastConfirmationsAreFixed(rules, w, front, h);
      RunKeepsInv(rules, w, front);
      ConfirmationsNeverMove(rules, w, front);
      MintedSetsStay(rules, After(rules, w, front), rs[|rs| - 1], h);
    }
  }

  // ------------------------------------------------------------- injected faults

  /** The endpoint of one of the three writes. */
  function EndpointOf(r: Request): Endpoint {
    match r
    case SubmitPrecommit(_) => PrecommitEndpoint
    case SubmitBenchmark(_, _, _, _) => BenchmarkEndpoint
    case _ => ProofEndpoint
  }

  /** An ambiguous injection changes what a write is answered and never what it does; any other stops it. */
  lemma InjectionChangesTheAnswer(rules: Rules, w: World, r: Request)
    requires r.SubmitPrecommit? || r.SubmitBenchmark? || r.SubmitProof?
    ensures var clean := w.(injections := map[]);
      var answered, undisturbed := Serve(rules, w, r), Serve(rules, clean, r);
      && answered.0.benches == (if Blocked(w, EndpointOf(r)) then w.benches else undisturbed.0.benches)
      && (answered.1 == Accepted <==> Injected(w, EndpointOf(r)) == None && undisturbed.1 == Accepted)
  {
    if r.SubmitPrecommit? {
      var clean := w.(injections := map[]);
      assert PrecommitIsValid(rules, clean, r.precommit) == PrecommitIsValid(rules, w, r.precommit);
      if PrecommitIsValid(rules, w, r.precommit) {
        assert NewBench(rules, clean, r.precommit) == NewBench(rules, w, r.precommit);
      }
    }
  }
}
