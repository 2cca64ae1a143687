/**
 * The fake chain: benchmarks move through precommit, benchmark, proof and
 * ruling only when a block is minted, and every request in between leaves
 * the block already served as it was.
 *
 * Benchmarks are numbered from 0 in the order they were created, and the
 * parts of the configuration that only pick numbers are functions in `Rules`.
 */
module FakeTig {
  import opened Wrappers
  import Sampling
  import Ids

  datatype Submission = Submission(stopped: bool, submitted: int, confirmed: Option<int>, sampled: Option<seq<nat>>)
  datatype ProofSubmission = ProofSubmission(submitted: int, confirmed: Option<int>, delay: nat,
      blockActive: Option<int>)

  datatype Bench = Bench(
    challenge: string, nonces: nat, fee: nat, started: int,
    precommit: Option<int>, submission: Option<Submission>, proof: Option<ProofSubmission>,
    activeFrom: Option<int>, activeUntil: Option<int>,
    verified: Option<int>, fraud: Option<int>, verifyPending: bool, fraudPending: bool)

  datatype Challenge = Challenge(
    tracks: map<string, nat>, minBundles: nat, maxFuel: nat, baseFee: nat, perNonceFee: nat,
    samples: nat, lifespan: nat)

  /** `weight` is the byte sum of a benchmark's id; `activation` the blocks a proof waits to become active. */
  datatype Rules = Rules(
    confirmDelay: nat, secondsBetweenBlocks: nat, blocksPerRound: nat, challenges: map<string, Challenge>,
    weight: nat -> nat, activation: (string, nat) -> nat)

  datatype Mode = Reject | RateLimit | Fault | Ambiguous
  datatype Endpoint = PrecommitEndpoint | BenchmarkEndpoint | ProofEndpoint

  datatype World = World(
    height: int, round: int, timestamp: int, benches: seq<Bench>,
    injections: map<Endpoint, seq<Mode>>, writes: map<Endpoint, nat>)

  // ------------------------------------------------------------------- minting

  function SampleCount(rules: Rules, challenge: string): nat {
    if challenge in rules.challenges then rules.challenges[challenge].samples else 3
  }

  function Lifespan(rules: Rules, challenge: string): nat {
    if challenge in rules.challenges then rules.challenges[challenge].lifespan else 120
  }

  /** A ruling asked for since the last block is published by this one. */
  function Rule(b: Bench, height: int): Bench {
    b.(verified := if b.verifyPending then Some(height) else b.verified,
       fraud := if b.fraudPending then Some(height) else b.fraud,
       verifyPending := false, fraudPending := false)
  }

  function ConfirmPrecommit(b: Bench, height: int, delay: nat): Bench {
    if b.precommit == None && height >= b.started + delay then b.(precommit := Some(height)) else b
  }

  predicate BenchmarkIsDue(b: Bench, height: int, delay: nat) {
    b.submission.Some? && b.submission.value.confirmed == None && b.precommit.Some?
      && height >= b.submission.value.submitted + delay
  }

  function ConfirmBenchmark(b: Bench, height: int, delay: nat): Bench {
    if BenchmarkIsDue(b, height, delay) then b.(submission := Some(b.submission.value.(confirmed := Some(height))))
      else b
  }

  predicate ProofIsDue(b: Bench, height: int, delay: nat) {
    b.proof.Some? && b.proof.value.confirmed == None && height >= b.proof.value.submitted + delay
  }

  function ConfirmProof(b: Bench, height: int, delay: nat): Bench {
    if ProofIsDue(b, height, delay) then b.(proof := Some(b.proof.value.(confirmed := Some(height)))) else b
  }

  /** The first loop over the benchmarks: rulings and confirmations. */
  function Confirm(b: Bench, height: int, delay: nat): Bench {
    ConfirmProof(ConfirmBenchmark(ConfirmPrecommit(Rule(b, height), height, delay), height, delay), height, delay)
  }

  predicate NeedsSampling(b: Bench, height: int, delay: nat) {
    BenchmarkIsDue(ConfirmPrecommit(Rule(b, height), height, delay), height, delay) && !b.submission.value.stopped
  }

  /** The second and third loops: sampled nonces, then the active interval. */
  function WithSample(rules: Rules, id: nat, b: Bench): Bench {
    if b.submission.Some? then
      b.(submission := Some(b.submission.value.(sampled :=
        Some(Sampling.Sample(rules.weight(id), b.nonces, SampleCount(rules, b.challenge))))))
    else
      b
  }

  function WithActivation(rules: Rules, b: Bench, height: int): Bench {
    if b.proof.Some? then
      var from := height + rules.activation(b.challenge, b.proof.value.delay);
      b.(proof := Some(b.proof.value.(blockActive := Some(from))),
         activeFrom := Some(from),
         activeUntil := Some(b.started + Lifespan(rules, b.challenge)))
    else
      b
  }

  /** What minting the block at `height` makes of one benchmark. */
  function Mint(rules: Rules, id: nat, b: Bench, height: int): Bench {
    var confirmed := Confirm(b, height, rules.confirmDelay);
    var sampled := if NeedsSampling(b, height, rules.confirmDelay) then WithSample(rules, id, confirmed) else confirmed;
    if ProofIsDue(b, height, rules.confirmDelay) then WithActivation(rules, sampled, height) else sampled
  }

  function Advance(rules: Rules, w: World): World {
    var height := w.height + 1;
    w.(height := height,
       timestamp := w.timestamp + rules.secondsBetweenBlocks,
       round := if rules.blocksPerRound > 0 && height % rules.blocksPerRound == 0 then w.round + 1 else w.round,
       benches := seq(|w.benches|, i requires 0 <= i < |w.benches| => Mint(rules, i, w.benches[i], height)))
  }

  // ------------------------------------------------------------------ requests

  datatype TrackSetting = TrackSetting(bundles: nat, fuel: nat)
  datatype PrecommitRequest = PrecommitRequest(
    ownPlayer: bool, block: int, challenge: string, trackEmpty: bool, settings: map<string, TrackSetting>)

  /** The three writes, the two rulings, the injection and the next block. */
  datatype Request =
    | SubmitPrecommit(precommit: PrecommitRequest)
    | SubmitBenchmark(id: nat, stopped: bool, wellFormed: bool, qualities: nat)
    | SubmitProof(id: nat, wellFormed: bool, nonces: seq<nat>)
    | Verify(id: nat)
    | Fraud(id: nat)
    | Inject(target: Endpoint, mode: Mode, count: nat)
    | AdvanceBlock

  /** Whether the caller was told the request went through. */
  datatype Reply = Accepted | Refused

  function CountWrite(w: World, e: Endpoint): World {
    w.(writes := w.writes[e := (if e in w.writes then w.writes[e] else 0) + 1])
  }

  function Injected(w: World, e: Endpoint): Option<Mode> {
    if e in w.injections && w.injections[e] != [] then Some(w.injections[e][0]) else None
  }

  function TakeInjection(w: World, e: Endpoint): World {
    if Injected(w, e).Some? then w.(injections := w.injections[e := w.injections[e][1..]]) else w
  }

  /** The write arrived and its injection, if any, was used up. */
  function Arrived(w: World, e: Endpoint): World {
    TakeInjection(CountWrite(w, e), e)
  }

  /** An injection other than the ambiguous one refuses the write before it is looked at. */
  predicate Blocked(w: World, e: Endpoint) {
    Injected(w, e).Some? && Injected(w, e) != Some(Ambiguous)
  }

  function ReplyTo(w: World, e: Endpoint): Reply {
    if Injected(w, e) == Some(Ambiguous) then Refused else Accepted
  }

  function SelectedTrack(c: Challenge): string
    requires c.tracks != map[]
  {
    var order := Ids.InOrder(c.tracks.Keys);
    assert |order| > 0;
    order[0]
  }

  lemma SelectedIsActive(c: Challenge)
    requires c.tracks != map[]
    ensures SelectedTrack(c) in c.tracks
  {
    Ids.HeadIsMember(Ids.InOrder(c.tracks.Keys));
  }

  predicate PrecommitIsValid(rules: Rules, w: World, p: PrecommitRequest) {
    && p.ownPlayer
    && (p.block == w.height || p.block == w.height - 1)
    && p.trackEmpty
    && p.challenge in rules.challenges
    && var c := rules.challenges[p.challenge];
    && p.settings.Keys == c.tracks.Keys
    && c.tracks != map[]
    && (SelectedIsActive(c);
        var s := p.settings[SelectedTrack(c)];
        s.bundles >= c.minBundles && s.fuel <= c.maxFuel)
  }

  /** The fee is charged per bundle, whatever the rate is called. */
  function NewBench(rules: Rules, w: World, p: PrecommitRequest): Bench
    requires PrecommitIsValid(rules, w, p)
  {
    var c := rules.challenges[p.challenge];
    SelectedIsActive(c);
    var bundles := p.settings[SelectedTrack(c)].bundles;
    Bench(p.challenge, bundles * c.tracks[SelectedTrack(c)], c.baseFee + c.perNonceFee * bundles, w.height,
          None, None, None, None, None, None, None, false, false)
  }

  predicate BenchmarkIsValid(w: World, id: nat, stopped: bool, wellFormed: bool, qualities: nat) {
    && id < |w.benches|
    && w.benches[id].precommit.Some?
    && w.benches[id].submission.None?
    && wellFormed
    && (stopped || qualities == w.benches[id].nonces)
  }

  /** Every sampled nonce exactly once and no other. */
  predicate ProofIsValid(w: World, id: nat, wellFormed: bool, nonces: seq<nat>) {
    && id < |w.benches|
    && w.benches[id].submission.Some?
    && var s := w.benches[id].submission.value;
    && !s.stopped
    && s.confirmed.Some?
    && s.sampled.Some?
    && w.benches[id].proof.None?
    && wellFormed
    && multiset(nonces) == multiset(s.sampled.value)
  }

  function SaturatingSub(a: int, b: int): nat {
    if a > b then a - b else 0
  }

  predicate VerifyIsValid(w: World, id: nat) {
    && id < |w.benches|
    && w.benches[id].proof.Some?
    && w.benches[id].proof.value.confirmed.Some?
    && w.benches[id].fraud.None?
    && !w.benches[id].fraudPending
  }

  function Repeated(mode: Mode, count: nat): seq<Mode> {
    if count == 0 then [] else [mode] + Repeated(mode, count - 1)
  }

  function Serve(rules: Rules, w: World, r: Request): (World, Reply) {
    match r
    case SubmitPrecommit(p) =>
      var v := Arrived(w, PrecommitEndpoint);
      if Blocked(w, PrecommitEndpoint) || !PrecommitIsValid(rules, w, p) then (v, Refused)
      else (v.(benches := w.benches + [NewBench(rules, w, p)]), ReplyTo(w, PrecommitEndpoint))
    case SubmitBenchmark(id, stopped, wellFormed, qualities) =>
      var v := Arrived(w, BenchmarkEndpoint);
      if Blocked(w, BenchmarkEndpoint) || !BenchmarkIsValid(w, id, stopped, wellFormed, qualities) then (v, Refused)
      else
        (v.(benches := w.benches[id := w.benches[id].(submission := Some(Submission(stopped, w.height, None, None)))]),
         ReplyTo(w, BenchmarkEndpoint))
    case SubmitProof(id, wellFormed, nonces) =>
      var v := Arrived(w, ProofEndpoint);
      if Blocked(w, ProofEndpoint) || !ProofIsValid(w, id, wellFormed, nonces) then (v, Refused)
      else
        var b := w.benches[id];
        var sent := ProofSubmission(w.height, None, SaturatingSub(w.height, b.started), None);
        (v.(benches := w.benches[id := b.(proof := Some(sent))]), ReplyTo(w, ProofEndpoint))
    case Verify(id) =>
      if VerifyIsValid(w, id) then (w.(benches := w.benches[id := w.benches[id].(verifyPending := true)]), Accepted)
      else (w, Refused)
    case Fraud(id) =>
      if id < |w.benches| then (w.(benches := w.benches[id := w.benches[id].(fraudPending := true)]), Accepted)
      else (w, Refused)
    case Inject(target, mode, count) =>
      (w.(injections := w.injections[target :=
        (if target in w.injections then w.injections[target] else []) + Repeated(mode, count)]), Accepted)
    case AdvanceBlock =>
      (Advance(rules, w), Accepted)
  }

  function Next(rules: Rules, w: World, r: Request): World {
    Serve(rules, w, r).0
  }

  function After(rules: Rules, w: World, rs: seq<Request>): World {
    if rs == [] then w else Next(rules, After(rules, w, rs[..|rs| - 1]), rs[|rs| - 1])
  }

  // --------------------------------------------------------- what a block says

  /** The ids a block names, kind by kind. */
  datatype Block = Block(
    height: int, round: int, timestamp: int,
    precommits: set<nat>, benchmarks: set<nat>, proofs: set<nat>, verified: set<nat>, frauds: set<nat>,
      active: set<nat>)

  function BenchmarkHeight(b: Bench): Option<int> {
    if b.submission.Some? then b.submission.value.confirmed else None
  }

  function ProofHeight(b: Bench): Option<int> {
    if b.proof.Some? then b.proof.value.confirmed else None
  }

  function PrecommitsAt(w: World, h: int): set<nat> {
    set i | 0 <= i < |w.benches| && w.benches[i].precommit == Some(h)
  }

  function BenchmarksAt(w: World, h: int): set<nat> {
    set i | 0 <= i < |w.benches| && BenchmarkHeight(w.benches[i]) == Some(h)
  }

  function ProofsAt(w: World, h: int): set<nat> {
    set i | 0 <= i < |w.benches| && ProofHeight(w.benches[i]) == Some(h)
  }

  function VerifiedAt(w: World, h: int): set<nat> {
    set i | 0 <= i < |w.benches| && w.benches[i].verified == Some(h)
  }

  function FraudsAt(w: World, h: int): set<nat> {
    set i | 0 <= i < |w.benches| && w.benches[i].fraud == Some(h)
  }

  predicate IsActive(b: Bench, h: int) {
    b.activeFrom.Some? && b.activeUntil.Some? && b.activeFrom.value <= h < b.activeUntil.value
  }

  function ActiveAt(w: World, h: int): set<nat> {
    set i | 0 <= i < |w.benches| && IsActive(w.benches[i], h)
  }

  function CurrentBlock(w: World): Block {
    Block(w.height, w.round, w.timestamp, PrecommitsAt(w, w.height), BenchmarksAt(w, w.height), ProofsAt(w, w.height),
          VerifiedAt(w, w.height), FraudsAt(w, w.height), ActiveAt(w, w.height))
  }
}
