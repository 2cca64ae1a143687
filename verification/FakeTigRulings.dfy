/**
 * When a published ruling keeps its height: verification and fraud heights
 * can move, and this says over whole runs of requests when they do.
 */
module FakeTigRulings {
  import opened Wrappers
  import opened FakeTig
  import opened FakeTigSafety

  // ----------------------------------------------------------------- one request

  /** What one request makes of the rulings of a benchmark already there. */
  ghost predicate RulingStep(w: World, r: Request, id: nat, b: Bench, c: Bench) {
    if r == AdvanceBlock then
      && c.verified == (if b.verifyPending then Some(w.height + 1) else b.verified)
      && c.fraud == (if b.fraudPending then Some(w.height + 1) else b.fraud)
      && !c.verifyPending && !c.fraudPending
    else
      && c.verified == b.verified && c.fraud == b.fraud
      && (c.verifyPending <==> b.verifyPending || (r == Verify(id) && VerifyIsValid(w, id)))
      && (c.fraudPending <==> b.fraudPending || r == Fraud(id))
  }

  lemma RequestIsRulingStep(rules: Rules, w: World, r: Request, id: nat)
    requires id < |w.benches|
    ensures id < |Next(rules, w, r).benches|
    ensures RulingStep(w, r, id, w.benches[id], Next(rules, w, r).benches[id])
  {
    if r == AdvanceBlock {
      AdvanceRules(rules, w, id, Next(rules, w, r).benches[id]);
    } else {
      RequestTouches(rules, w, r, id);
      TouchedIsRulingStep(w, r, id, Next(rules, w, r).benches[id]);
    }
  }

  lemma AdvanceRules(rules: Rules, w: World, id: nat, c: Bench)
    requires id < |w.benches| && c == Mint(rules, id, w.benches[id], w.height + 1)
    ensures RulingStep(w, AdvanceBlock, id, w.benches[id], c)
  {
    MintRules(rules, id, w.benches[id], w.height + 1);
  }

  lemma TouchedIsRulingStep(w: World, r: Request, id: nat, c: Bench)
    requires id < |w.benches| && r != AdvanceBlock && c == Touched(w, r, id)
    ensures RulingStep(w, r, id, w.benches[id], c)
  {
    TouchedRules(w, r, id);
  }

  lemma TouchedRules(w: World, r: Request, id: nat)
    requires id < |w.benches| && r != AdvanceBlock
    ensures RulingStep(w, r, id, w.benches[id], Touched(w, r, id))
  {
  }

  lemma MintRules(rules: Rules, id: nat, b: Bench, height: int)
    ensures var c := Mint(rules, id, b, height);
      && c.verified == (if b.verifyPending then Some(height) else b.verified)
      && c.fraud == (if b.fraudPending then Some(height) else b.fraud)
      && !c.verifyPending && !c.fraudPending
  {
  }

  // ------------------------------------------------------------ what the run asks

  /** Fraud is set or pending, so verification is refused from here on. */
  predicate RuledOut(b: Bench) {
    b.fraud.Some? || b.fraudPending
  }

  /** A verification request that no fraud request precedes. */
  predicate AsksVerify(rs: seq<Request>, id: nat) {
    exists m :: 0 <= m < |rs| && rs[m] == Verify(id) && Fraud(id) !in rs[..m]
  }

  /** A block minted with a verification of the benchmark pending: from before, or asked for in time. */
  predicate MintsVerify(b: Bench, rs: seq<Request>, id: nat) {
    exists k :: 0 <= k < |rs| && rs[k] == AdvanceBlock && (b.verifyPending || (!RuledOut(b) && AsksVerify(rs[..k], id)))
  }

  /** A block minted with a fraud ruling pending. */
  predicate MintsFraud(b: Bench, rs: seq<Request>, id: nat) {
    exists k :: 0 <= k < |rs| && rs[k] == AdvanceBlock && (b.fraudPending || Fraud(id) in rs[..k])
  }

  lemma AsksOneMore(rs: seq<Request>, r: Request, id: nat)
    ensures AsksVerify(rs + [r], id) <==> AsksVerify(rs, id) || (r == Verify(id) && Fraud(id) !in rs)
  {
    var more := rs + [r];
    assert more[..|rs|] == rs;
    forall m | 0 <= m < |rs| ensures more[..m] == rs[..m] && more[m] == rs[m] {
    }
    if r == Verify(id) && Fraud(id) !in rs { assert more[|rs|] == Verify(id); }
    if AsksVerify(rs, id) {
      var m :| 0 <= m < |rs| && rs[m] == Verify(id) && Fraud(id) !in rs[..m];
      assert more[m] == Verify(id) && Fraud(id) !in more[..m];
    }
  }

  lemma MintsOneMore(b: Bench, rs: seq<Request>, r: Request, id: nat)
    ensures MintsVerify(b, rs + [r], id) <==>
      MintsVerify(b, rs, id) || (r == AdvanceBlock && (b.verifyPending || (!RuledOut(b) && AsksVerify(rs, id))))
    ensures MintsFraud(b, rs + [r], id) <==>
      MintsFraud(b, rs, id) || (r == AdvanceBlock && (b.fraudPending || Fraud(id) in rs))
  {
    var more := rs + [r];
    assert more[..|rs|] == rs && more[|rs|] == r;
    forall k | 0 <= k < |rs| ensures more[..k] == rs[..k] && more[k] == rs[k] {
    }
    if MintsVerify(b, rs, id) {
      var k :| 0 <= k < |rs| && rs[k] == AdvanceBlock && (b.verifyPending || (!RuledOut(b) && AsksVerify(rs[..k], id)));
      assert more[k] == AdvanceBlock && more[..k] == rs[..k];
    }
    if MintsFraud(b, rs, id) {
      var k :| 0 <= k < |rs| && rs[k] == AdvanceBlock && (b.fraudPending || Fraud(id) in rs[..k]);
      assert more[k] == AdvanceBlock && more[..k] == rs[..k];
    }
  }

  // ------------------------------------------------------------------- whole runs

  /** Where the rulings of `b` stand after `rs`, as the bench `c` of a world at `height`. */
  ghost predicate FraudStands(b: Bench, c: Bench, rs: seq<Request>, id: nat, start: int, height: int) {
    && start <= height
    && (RuledOut(c) <==> RuledOut(b) || Fraud(id) in rs)
    && (if MintsFraud(b, rs, id) then c.fraud.Some? && c.fraud.value > start else c.fraud == b.fraud)
    && (c.fraudPending ==> b.fraudPending || Fraud(id) in rs)
    && ((b.fraudPending || Fraud(id) in rs) && !MintsFraud(b, rs, id) ==> c.fraudPending)
  }

  ghost predicate VerifyStands(b: Bench, c: Bench, rs: seq<Request>, id: nat, start: int, height: int) {
    && ProofHeight(c).Some?
    && (if MintsVerify(b, rs, id) then c.verified.Some? && c.verified.value > start else c.verified == b.verified)
    && (c.verifyPending ==> b.verifyPending || (!RuledOut(b) && AsksVerify(rs, id)))
    && ((b.verifyPending || (!RuledOut(b) && AsksVerify(rs, id))) && !MintsVerify(b, rs, id) ==> c.verifyPending)
  }

  lemma FraudStandsStep(b: Bench, w: World, rs: seq<Request>, r: Request, id: nat, start: int, d: Bench, height: int)
    requires id < |w.benches| && FraudStands(b, w.benches[id], rs, id, start, w.height)
    requires RulingStep(w, r, id, w.benches[id], d) && height == if r == AdvanceBlock then w.height + 1 else w.height
    ensures FraudStands(b, d, rs + [r], id, start, height)
  {
    MintsOneMore(b, rs, r, id);
    assert Fraud(id) in rs + [r] <==> Fraud(id) in rs || r == Fraud(id);
  }

  lemma VerifyStandsStep(b: Bench, w: World, rs: seq<Request>, r: Request, id: nat, start: int, d: Bench, height: int)
    requires id < |w.benches| && FraudStands(b, w.benches[id], rs, id, start, w.height)
    requires VerifyStands(b, w.benches[id], rs, id, start, w.height) && ProofHeight(d).Some?
    requires RulingStep(w, r, id, w.benches[id], d) && height == if r == AdvanceBlock then w.height + 1 else w.height
    ensures VerifyStands(b, d, rs + [r], id, start, height)
  {
    MintsOneMore(b, rs, r, id);
    AsksOneMore(rs, r, id);
  }

  lemma HeightOfNext(rules: Rules, w: World, r: Request)
    ensures Next(rules, w, r).height == if r == AdvanceBlock then w.height + 1 else w.height
  {
  }

  lemma {:induction false} FraudStandsAfter(rules: Rules, w: World, rs: seq<Request>, id: nat)
    requires id < |w.benches|
    ensures id < |After(rules, w, rs).benches|
    ensures FraudStands(w.benches[id], After(rules, w, rs).benches[id], rs, id, w.height, After(rules, w, rs).height)
  {
    if rs != [] {
      var front, r := rs[..|rs| - 1], rs[|rs| - 1];
      var before := After(rules, w, front);
      FraudStandsAfter(rules, w, front, id);
      RequestIsRulingStep(rules, before, r, id);
      HeightOfNext(rules, before, r);
      FraudStandsStep(w.benches[id], before, front, r, id, w.height, Next(rules, before, r).benches[id],
          Next(rules, before, r).height);
      assert front + [r] == rs;
    }
  }

  lemma VerifyStandsNext(rules: Rules, b: Bench, w: World, rs: seq<Request>, r: Request, id: nat, start: int, v: World)
    requires id < |w.benches| && v == Next(rules, w, r) && id < |v.benches| && ProofHeight(v.benches[id]).Some?
    requires FraudStands(b, w.benches[id], rs, id, start, w.height)
      && VerifyStands(b, w.benches[id], rs, id, start, w.height)
    ensures VerifyStands(b, v.benches[id], rs + [r], id, start, v.height)
  {
    RequestIsRulingStep(rules, w, r, id);
    HeightOfNext(rules, w, r);
    VerifyStandsStep(b, w, rs, r, id, start, v.benches[id], v.height);
  }

  /** The benchmark's proof is confirmed at every point of the run. */
  ghost predicate ProvedThroughout(rules: Rules, w: World, rs: seq<Request>, id: nat) {
    && id < |After(rules, w, rs).benches|
    && ProofHeight(After(rules, w, rs).benches[id]).Some?
    && (rs != [] ==> ProvedThroughout(rules, w, rs[..|rs| - 1], id))
  }

  lemma {:induction false} ProvedStays(rules: Rules, w: World, rs: seq<Request>, id: nat)
    requires Inv(rules, w) && id < |w.benches| && ProofHeight(w.benches[id]).Some?
    ensures ProvedThroughout(rules, w, rs, id)
  {
    ProofStays(rules, w, rs, id);
    if rs != [] { ProvedStays(rules, w, rs[..|rs| - 1], id); }
  }

  lemma VerifyStandsLast(rules: Rules, b: Bench, w: World, rs: seq<Request>, id: nat, start: int, v: World)
    requires rs != [] && id < |w.benches| && v == Next(rules, w, rs[|rs| - 1])
    requires id < |v.benches| && ProofHeight(v.benches[id]).Some?
    requires FraudStands(b, w.benches[id], rs[..|rs| - 1], id, start, w.height)
    requires VerifyStands(b, w.benches[id], rs[..|rs| - 1], id, start, w.height)
    ensures VerifyStands(b, v.benches[id], rs, id, start, v.height)
  {
    assert rs == rs[..|rs| - 1] + [rs[|rs| - 1]];
    VerifyStandsNext(rules, b, w, rs[..|rs| - 1], rs[|rs| - 1], id, start, v);
  }

  lemma {:induction false} VerifyStandsAfter(rules: Rules, w: World, rs: seq<Request>, id: nat)
    requires id < |w.benches| && ProvedThroughout(rules, w, rs, id)
    ensures VerifyStands(w.benches[id], After(rules, w, rs).benches[id], rs, id, w.height, After(rules, w, rs).height)
  {
    if rs != [] {
      var front := rs[..|rs| - 1];
      VerifyStandsAfter(rules, w, front, id);
      FraudStandsAfter(rules, w, front, id);
      VerifyStandsLast(rules, w.benches[id], After(rules, w, front), rs, id, w.height, After(rules, w, rs));
    }
  }

  lemma ProofStays(rules: Rules, w: World, rs: seq<Request>, id: nat)
    requires Inv(rules, w) && id < |w.benches| && ProofHeight(w.benches[id]).Some?
    ensures id < |After(rules, w, rs).benches| && ProofHeight(After(rules, w, rs).benches[id]).Some?
  {
    ConfirmationsNeverMove(rules, w, rs);
    assert BenchFollows(w.benches[id], After(rules, w, rs).benches[id]);
  }

  /**
   * A published verification keeps its height over a run exactly when no
   * block is minted in it while a verification is pending: one pending at the
   * start, or one asked for before any fraud ruling was set or asked for.
   */
  lemma VerifiedMovesIffMinted(rules: Rules, w: World, rs: seq<Request>, id: nat)
    requires Inv(rules, w) && id < |w.benches| && w.benches[id].verified.Some?
    ensures id < |After(rules, w, rs).benches|
    ensures After(rules, w, rs).benches[id].verified != w.benches[id].verified <==> MintsVerify(w.benches[id], rs, id)
  {
    assert BenchInv(rules, w.benches[id], w.height);
    ProvedStays(rules, w, rs, id);
    VerifyStandsAfter(rules, w, rs, id);
  }

  /** And a fraud height exactly when no block is minted while a fraud ruling is pending. */
  lemma FraudMovesIffMinted(rules: Rules, w: World, rs: seq<Request>, id: nat)
    requires Inv(rules, w) && id < |w.benches|
    ensures id < |After(rules, w, rs).benches|
    ensures After(rules, w, rs).benches[id].fraud != w.benches[id].fraud <==> MintsFraud(w.benches[id], rs, id)
  {
    assert BenchInv(rules, w.benches[id], w.height);
    FraudStandsAfter(rules, w, rs, id);
  }

  // ---------------------------------------------------- a height that moves, run

  /** One benchmark, with nothing ruled, and no injection queued. */
  ghost predicate IsAlone(w: World, b: Bench) {
    && w.benches == [b] && w.injections == map[] && b.started <= w.height
    && b.fraud == None && !b.fraudPending && b.verified == None && !b.verifyPending
  }

  lemma AfterStep(rules: Rules, w: World, rs: seq<Request>, r: Request)
    ensures After(rules, w, rs + [r]) == Next(rules, After(rules, w, rs), r)
  {
    assert (rs + [r])[..|rs + [r]| - 1] == rs;
  }

  /** From a precommit to a confirmed proof, with a confirmation delay of at most one block. */
  lemma ReachesProof(rules: Rules, w: World, p: PrecommitRequest) returns (rs: seq<Request>)
    requires IsGenesis(w) && w.injections == map[] && rules.confirmDelay <= 1 && PrecommitIsValid(rules, w, p)
    ensures var v := After(rules, w, rs);
      |v.benches| == 1 && IsAlone(v, v.benches[0]) && ProofHeight(v.benches[0]).Some?
  {
    var none: seq<Request> := [];
    var w1 := Precommitted(rules, w, p);
    AfterStep(rules, w, none, SubmitPrecommit(p));
    var w2 := Confirmed(rules, w1);
    var one := none + [SubmitPrecommit(p)];
    AfterStep(rules, w, one, AdvanceBlock);
    var two := one + [AdvanceBlock];
    var submit := SubmitBenchmark(0, false, true, w2.benches[0].nonces);
    var w3 := Submitted(rules, w2);
    AfterStep(rules, w, two, submit);
    var three := two + [submit];
    var w4 := BenchmarkConfirmed(rules, w3);
    AfterStep(rules, w, three, AdvanceBlock);
    var four := three + [AdvanceBlock];
    var prove := SubmitProof(0, true, w4.benches[0].submission.value.sampled.value);
    var w5 := Proved(rules, w4);
    AfterStep(rules, w, four, prove);
    var five := four + [prove];
    var w6 := ProofConfirmed(rules, w5);
    AfterStep(rules, w, five, AdvanceBlock);
    rs := five + [AdvanceBlock];
  }

  lemma Precommitted(rules: Rules, w: World, p: PrecommitRequest) returns (v: World)
    requires IsGenesis(w) && w.injections == map[] && PrecommitIsValid(rules, w, p)
    ensures v == Next(rules, w, SubmitPrecommit(p)) && |v.benches| == 1 && IsAlone(v, v.benches[0])
    ensures v.benches[0].precommit == None && v.benches[0].submission == None && v.benches[0].proof == None
  {
    v := Next(rules, w, SubmitPrecommit(p));
  }

  lemma Confirmed(rules: Rules, w: World) returns (v: World)
    requires |w.benches| == 1 && IsAlone(w, w.benches[0]) && rules.confirmDelay <= 1
    requires w.benches[0].precommit == None && w.benches[0].submission == None && w.benches[0].proof == None
    ensures v == Next(rules, w, AdvanceBlock) && |v.benches| == 1 && IsAlone(v, v.benches[0])
    ensures v.benches[0].precommit.Some? && v.benches[0].submission == None && v.benches[0].proof == None
  {
    v := Next(rules, w, AdvanceBlock);
    assert v.benches[0] == Mint(rules, 0, w.benches[0], w.height + 1);
  }

  lemma Submitted(rules: Rules, w: World) returns (v: World)
    requires |w.benches| == 1 && IsAlone(w, w.benches[0])
    requires w.benches[0].precommit.Some? && w.benches[0].submission == None && w.benches[0].proof == None
    ensures v == Next(rules, w, SubmitBenchmark(0, false, true, w.benches[0].nonces)) && |v.benches| == 1
    ensures IsAlone(v, v.benches[0]) && v.benches[0].precommit.Some? && v.benches[0].proof == None
    ensures v.benches[0].submission == Some(Submission(false, v.height, None, None))
  {
    v := Next(rules, w, SubmitBenchmark(0, false, true, w.benches[0].nonces));
  }

  lemma BenchmarkConfirmed(rules: Rules, w: World) returns (v: World)
    requires |w.benches| == 1 && IsAlone(w, w.benches[0]) && rules.confirmDelay <= 1
    requires w.benches[0].precommit.Some? && w.benches[0].proof == None
    requires w.benches[0].submission == Some(Submission(false, w.height, None, None))
    ensures v == Next(rules, w, AdvanceBlock) && |v.benches| == 1 && IsAlone(v, v.benches[0])
      && v.benches[0].proof == None
    ensures v.benches[0].submission.Some? && !v.benches[0].submission.value.stopped
    ensures v.benches[0].submission.value.confirmed.Some? && v.benches[0].submission.value.sampled.Some?
  {
    v := Next(rules, w, AdvanceBlock);
    MintConfirms(rules, w.benches[0], w.height + 1);
    MintRules(rules, 0, w.benches[0], w.height + 1);
    assert v.benches[0] == Mint(rules, 0, w.benches[0], w.height + 1);
  }

  lemma MintConfirms(rules: Rules, b: Bench, height: int)
    requires b.precommit.Some? && b.proof == None && rules.confirmDelay <= 1
    requires b.submission == Some(Submission(false, height - 1, None, None))
    ensures var c := Mint(rules, 0, b, height);
      && c.proof == None && c.started == b.started && c.submission.Some? && !c.submission.value.stopped
      && c.submission.value.confirmed.Some? && c.submission.value.sampled.Some?
  {
  }

  lemma Proved(rules: Rules, w: World) returns (v: World)
    requires |w.benches| == 1 && IsAlone(w, w.benches[0]) && w.benches[0].proof == None
    requires w.benches[0].submission.Some? && !w.benches[0].submission.value.stopped
    requires w.benches[0].submission.value.confirmed.Some? && w.benches[0].submission.value.sampled.Some?
    ensures v == Next(rules, w, SubmitProof(0, true, w.benches[0].submission.value.sampled.value)) && |v.benches| == 1
    ensures IsAlone(v, v.benches[0]) && v.benches[0].proof.Some? && v.benches[0].proof.value.confirmed == None
    ensures v.benches[0].proof.value.submitted == v.height
  {
    v := Next(rules, w, SubmitProof(0, true, w.benches[0].submission.value.sampled.value));
  }

  lemma ProofConfirmed(rules: Rules, w: World) returns (v: World)
    requires |w.benches| == 1 && IsAlone(w, w.benches[0]) && rules.confirmDelay <= 1
    requires w.benches[0].proof.Some? && w.benches[0].proof.value.confirmed == None
    requires w.benches[0].proof.value.submitted == w.height
    ensures v == Next(rules, w, AdvanceBlock) && |v.benches| == 1 && IsAlone(v, v.benches[0])
      && ProofHeight(v.benches[0]).Some?
  {
    v := Next(rules, w, AdvanceBlock);
    MintProves(rules, w.benches[0], w.height + 1);
    MintRules(rules, 0, w.benches[0], w.height + 1);
    assert v.benches[0] == Mint(rules, 0, w.benches[0], w.height + 1);
  }

  lemma MintProves(rules: Rules, b: Bench, height: int)
    requires rules.confirmDelay <= 1 && b.proof.Some? && b.proof.value.confirmed == None
    requires b.proof.value.submitted == height - 1
    ensures var c := Mint(rules, 0, b, height); ProofHeight(c).Some? && c.started == b.started
  {
  }

  /**
   * From a fresh world: a benchmark is verified at one height and, its
   * verification requested again, at the next. The block that named it no
   * longer does.
   */
  lemma VerifiedHeightCanMove(rules: Rules, w: World, p: PrecommitRequest)
    returns (rs: seq<Request>, more: seq<Request>)
    requires IsGenesis(w) && w.injections == map[] && rules.confirmDelay <= 1 && PrecommitIsValid(rules, w, p)
    ensures var v := After(rules, w, rs); var u := After(rules, v, more);
      && 0 in VerifiedAt(v, v.height)
      && 0 !in VerifiedAt(u, v.height)
      && 0 in VerifiedAt(u, u.height)
  {
    var start := ReachesProof(rules, w, p);
    var v0 := After(rules, w, start);
    rs := start + [Verify(0)] + [AdvanceBlock];
    AfterStep(rules, w, start, Verify(0));
    AfterStep(rules, w, start + [Verify(0)], AdvanceBlock);
    var v := After(rules, w, rs);
    VerifiedNext(rules, v0);
    var none: seq<Request> := [];
    more := none + [Verify(0)] + [AdvanceBlock];
    AfterStep(rules, v, none, Verify(0));
    AfterStep(rules, v, none + [Verify(0)], AdvanceBlock);
    VerifiedNext(rules, v);
  }

  lemma VerifiedNext(rules: Rules, w: World)
    requires |w.benches| == 1 && ProofHeight(w.benches[0]).Some? && !RuledOut(w.benches[0])
    ensures var v := Next(rules, Next(rules, w, Verify(0)), AdvanceBlock);
      && |v.benches| == 1 && v.height == w.height + 1 && v.benches[0].verified == Some(v.height)
      && ProofHeight(v.benches[0]).Some? && !RuledOut(v.benches[0])
  {
    var asked := Next(rules, w, Verify(0));
    RequestIsRulingStep(rules, w, Verify(0), 0);
    RequestIsRulingStep(rules, asked, AdvanceBlock, 0);
    assert Next(rules, asked, AdvanceBlock).benches[0] == Mint(rules, 0, asked.benches[0], asked.height + 1);
  }
}
