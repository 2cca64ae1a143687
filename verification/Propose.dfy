/** `propose` and `reserve`: one deciding pass, from typed records. */
module Propose {
  import opened Wrappers
  import opened Numbers
  import opened Ids
  import opened Compute
  import opened Ratio
  import C = Challenge
  import A = Algorithm
  import S = Source
  import B = Bundles

  /** A listed challenge with its configuration; its active tracks are the keys of the nonce map. */
  datatype Listed = Listed(
    id: string, computeType: ComputeType, minNumBundles: U64, noncesPerBundle: map<string, U64>,
    baseFee: U128, perNonceFee: U128, networkQualifiers: map<string, U128>)

  /** One row of the active-benchmark cache. */
  datatype ActiveMeta = ActiveMeta(
    benchmarkId: string, algorithmId: string, trackId: string, fuelBudget: Option<U64>,
    qualities: seq<int>, hyperparameters: string, blockConfirmed: U64)

  datatype Block = Block(
    listed: seq<Listed>,
    algorithms: map<string, seq<A.Algorithm>>,
    stats: C.Stats,
    poolQualifiers: map<string, map<string, U128>>,
    inFlight: seq<C.InFlightBenchmark>,
    active: seq<ActiveMeta>,
    rankOf: string -> nat)

  datatype TrackSettings = TrackSettings(numBundles: nat, fuelBudget: Option<U64>, hyperparameters: string)

  datatype Proposal = Proposal(
    selectedChallenge: string, selectedAlgorithm: string,
    drawRanks: map<string, nat>, selection: C.Selection,
    numBundles: map<string, nat>, trackSettings: map<string, TrackSettings>, feeByTrack: map<string, U128>)

  datatype Proposed = NoAction(selection: C.Selection) | Precommit(proposal: Proposal)

  datatype ProposeError =
    | SelectedChallengeUnknown(challengeId: string)
    | SelectedAlgorithmUnknown(challengeId: string)
    | ChallengeFailed(challenge: C.ChallengeError)
    | RatioFailed(ratio: RatioError)
    | BundlesFailed(bundles: B.BundleSizingError)
    | FeeOverflow(challengeId: string, trackId: string)

  // -- inputs of the stages --------------------------------------------------------

  function GetOr<V>(m: map<string, V>, key: string, default: V): V {
    if key in m then m[key] else default
  }

  /** `source_candidates`: rows without a fuel budget offer nothing to copy. */
  function SourceCandidates(active: seq<ActiveMeta>): seq<S.SourceBenchmark> {
    if active == [] then []
    else
      var m := active[0];
      (if m.fuelBudget.None? then []
       else [S.SourceBenchmark(m.benchmarkId, m.algorithmId, m.trackId, true, false,
                               m.blockConfirmed, m.qualities, m.hyperparameters, m.fuelBudget.value)])
      + SourceCandidates(active[1..])
  }

  /** A real cached benchmark backs a source. */
  ghost predicate Backs(m: ActiveMeta, algorithmId: string, trackId: string, settings: TrackSettings) {
    && m.algorithmId == algorithmId && m.trackId == trackId
    && m.fuelBudget.Some? && settings.fuelBudget == m.fuelBudget && settings.hyperparameters == m.hyperparameters
  }

  /** The source a cached benchmark offers: its own fields, verified and not fraudulent. */
  ghost predicate IsOfferOf(m: ActiveMeta, b: S.SourceBenchmark) {
    && b.benchmarkId == m.benchmarkId && b.algorithmId == m.algorithmId && b.trackId == m.trackId
    && b.verified && !b.fraudulent && b.blockConfirmed == m.blockConfirmed && b.qualityByBundle == m.qualities
    && b.hyperparameters == m.hyperparameters && m.fuelBudget == Some(b.fuelBudget)
  }

  /** The candidate sources are exactly what the cached benchmarks with a fuel budget offer. */
  lemma {:induction false} CandidatesAreCached(active: seq<ActiveMeta>, b: S.SourceBenchmark)
    ensures b in SourceCandidates(active) <==> exists m :: m in active && IsOfferOf(m, b)
  {
    if active != [] {
      CandidatesAreCached(active[1..], b);
      if b in SourceCandidates(active) && b !in SourceCandidates(active[1..]) { assert IsOfferOf(active[0], b); }
      if m :| m in active && IsOfferOf(m, b) {
        if m in active[1..] {
          assert b in SourceCandidates(active[1..]);
        } else {
          assert m == active[0] && b == SourceCandidates(active)[0];
        }
      }
    }
  }

  /** The active tracks of a challenge, in order; a challenge without any is no candidate. */
  function Tracks(c: Listed): (s: seq<string>)
    ensures Ascending(s) && forall t :: t in s <==> t in c.noncesPerBundle
  {
    InOrder(c.noncesPerBundle.Keys)
  }

  function Candidates(listed: seq<Listed>): seq<Listed> {
    if listed == [] then []
    else Candidates(listed[..|listed| - 1])
         + if listed[|listed| - 1].noncesPerBundle.Keys == {} then [] else [listed[|listed| - 1]]
  }

  predicate DistinctIds(listed: seq<Listed>) {
    forall i, j :: 0 <= i < j < |listed| ==> listed[i].id != listed[j].id
  }

  lemma {:induction false} CandidatesAreListed(listed: seq<Listed>)
    ensures forall c :: c in Candidates(listed) <==> c in listed && c.noncesPerBundle.Keys != {}
    ensures DistinctIds(listed) ==> DistinctIds(Candidates(listed))
  {
    if listed != [] {
      var n := |listed| - 1;
      assert listed == listed[..n] + [listed[n]];
      CandidatesAreListed(listed[..n]);
      if DistinctIds(listed) {
        forall i | 0 <= i < |Candidates(listed[..n])| ensures Candidates(listed[..n])[i].id != listed[n].id {
          assert Candidates(listed[..n])[i] in listed[..n];
        }
      }
    }
  }

  // -- one candidate ---------------------------------------------------------------

  /** What the algorithm and source stages concluded for one candidate. */
  datatype PerChallenge = PerChallenge(algorithm: A.AlgorithmSelection, sources: map<string, S.SourceBenchmark>)

  ghost predicate IsPerChallenge(block: Block, c: Listed, p: PerChallenge) {
    && IsAlgorithmFor(block, c, p.algorithm)
    && p.sources.Keys <= c.noncesPerBundle.Keys
    && (p.algorithm.selected.None? ==> p.sources == map[])
    && (forall t :: t in p.sources ==>
          S.IsBestSource(SourceCandidates(block.active), p.algorithm.selected.value, t, p.sources[t]))
    && (p.algorithm.selected.Some? ==> forall t :: t in c.noncesPerBundle && t !in p.sources ==>
          forall b :: b in SourceCandidates(block.active) ==> !S.IsCandidate(b, p.algorithm.selected.value, t))
  }

  ghost predicate IsAlgorithmFor(block: Block, c: Listed, algorithm: A.AlgorithmSelection) {
    var listed := if c.id in block.algorithms then block.algorithms[c.id] else [];
    && (algorithm.selected.None? <==> forall a :: a in listed ==> !A.IsSelectable(a))
    && (algorithm.selected.Some? ==> exists a :: A.IsSelected(listed, a) && a.id == algorithm.selected.value)
    && algorithm.bestOnTrack.Keys == c.noncesPerBundle.Keys
    && forall t :: t in algorithm.bestOnTrack ==>
         A.IsBestOnTrack(A.SurvivorIds(listed), block.stats, t, algorithm.bestOnTrack[t])
  }

  /** Two surviving algorithms of a challenge whose rates on one of its tracks cannot be compared. */
  ghost predicate RatesClash(block: Block, c: Listed) {
    c.id in block.algorithms
    && exists t, a, b :: t in c.noncesPerBundle
         && a in A.SurvivorIds(block.algorithms[c.id]) && b in A.SurvivorIds(block.algorithms[c.id])
         && A.Incomparable(block.stats, a, b, t)
  }

  /** `per_challenge`. */
  method DecideCandidate(block: Block, c: Listed) returns (r: Result<PerChallenge, RatioError>)
    ensures r.Ok? ==> IsPerChallenge(block, c, r.value)
    ensures r.Err? ==> RatesClash(block, c)
  {
    var algorithm := A.SelectAlgorithm(GetOr(block.algorithms, c.id, []), block.stats, Tracks(c));
    if algorithm.Err? { return Err(algorithm.error); }
    assert algorithm.value.bestOnTrack.Keys == c.noncesPerBundle.Keys;
    var sources: map<string, S.SourceBenchmark> := map[];
    if algorithm.value.selected.Some? {
      sources := SourcesFor(block, Tracks(c), algorithm.value.selected.value);
    }
    r := Ok(PerChallenge(algorithm.value, sources));
  }

  method SourcesFor(block: Block, tracks: seq<string>, algorithmId: string)
    returns (sources: map<string, S.SourceBenchmark>)
    ensures forall t :: t in sources ==>
      t in tracks && S.IsBestSource(SourceCandidates(block.active), algorithmId, t, sources[t])
    ensures forall t :: t in tracks && t !in sources ==>
      forall b :: b in SourceCandidates(block.active) ==> !S.IsCandidate(b, algorithmId, t)
  {
    sources := map[];
    var candidates := SourceCandidates(block.active);
    for i := 0 to |tracks|
      invariant forall t :: t in sources ==> t in tracks && S.IsBestSource(candidates, algorithmId, t, sources[t])
      invariant forall j :: 0 <= j < i && tracks[j] !in sources ==> forall b :: b in candidates ==>
        !S.IsCandidate(b, algorithmId, tracks[j])
    {
      var source := S.SelectSource(candidates, algorithmId, tracks[i]);
      if source.Some? { sources := sources[tracks[i] := source.value]; }
    }
  }

  /** The challenge as the selection sees it, with the tracks its sources cover. */
  function AsChallenge(c: Listed, p: PerChallenge): C.Challenge {
    C.Challenge(c.id, c.computeType, Tracks(c), c.networkQualifiers, InOrder(p.sources.Keys))
  }

  // -- the pass --------------------------------------------------------------------

  /** What a committed proposal says of the challenge it names and of what was decided for it. */
  ghost predicate IsProposalFor(block: Block, offer: OfferedCompute, p: Proposal, c: Listed, decided: PerChallenge) {
    && IsReady(block, offer, c, decided)
    && p.selectedChallenge == c.id && decided.algorithm.selected == Some(p.selectedAlgorithm)
    && p.trackSettings.Keys == p.numBundles.Keys == p.feeByTrack.Keys == c.noncesPerBundle.Keys
    && forall t :: t in p.numBundles ==>
         IsTrackProposal(block, p, c, decided, t) && IsCountFor(offer, c, decided.algorithm, t, p.numBundles[t])
  }

  /** The right number of bundles of a track: aligned where the selected algorithm is the best on it. */
  ghost predicate IsCountFor(offer: OfferedCompute, c: Listed, algorithm: A.AlgorithmSelection, t: string, count: nat) {
    && t in c.noncesPerBundle
    && B.IsSizeOf(offer, c.minNumBundles, B.TrackSizing(c.noncesPerBundle[t], SelectedIsBest(algorithm, t)), count)
  }

  ghost predicate SelectedIsBest(algorithm: A.AlgorithmSelection, t: string) {
    algorithm.selected.Some? && t in algorithm.bestOnTrack && algorithm.bestOnTrack[t] == algorithm.selected
  }

  ghost predicate IsTrackProposal(block: Block, p: Proposal, c: Listed, decided: PerChallenge, t: string) {
    && t in p.trackSettings && t in p.numBundles && t in p.feeByTrack && t in decided.sources
    && p.trackSettings[t].numBundles == p.numBundles[t]
    && p.trackSettings[t].fuelBudget == Some(decided.sources[t].fuelBudget)
    && p.trackSettings[t].hyperparameters == decided.sources[t].hyperparameters
    && p.numBundles[t] >= c.minNumBundles
    && p.feeByTrack[t] == c.baseFee + c.perNonceFee * p.numBundles[t]
    && exists m :: m in block.active && Backs(m, p.selectedAlgorithm, t, p.trackSettings[t])
  }

  /** What an error says of the block: where its arithmetic overflowed. */
  ghost predicate IsFailureOf(block: Block, offer: OfferedCompute, e: ProposeError) {
    match e
    case RatioFailed(_) => exists c :: c in Candidates(block.listed) && RatesClash(block, c)
    case ChallengeFailed(Arithmetic(_)) => SelectionOverflows(block, offer)
    case BundlesFailed(why) =>
      exists c, p :: IsChosen(block, offer, c, p) && SizingFails(offer, c, p.algorithm, why)
    case FeeOverflow(id, t) =>
      exists c, p :: IsChosen(block, offer, c, p) && c.id == id && FeeFails(offer, c, p.algorithm, t)
    case _ => false
  }

  /** The challenge the selection chose, and what was decided for it. */
  ghost predicate IsChosen(block: Block, offer: OfferedCompute, c: Listed, p: PerChallenge) {
    && IsReady(block, offer, c, p)
    && exists ranks, s :: IsSelectionFrom(block, offer, ranks, s) && s.selected == Some(c.id)
  }

  /** Zero cores for an aligned track, or a track whose smallest filling count is no u64. */
  ghost predicate SizingFails(offer: OfferedCompute, c: Listed, algorithm: A.AlgorithmSelection,
                              why: B.BundleSizingError) {
    match why
    case ZeroCores => offer == Cpu(0) && exists t :: t in c.noncesPerBundle && SelectedIsBest(algorithm, t)
    case Overflow(t) =>
      && offer.Cpu? && t in c.noncesPerBundle && SelectedIsBest(algorithm, t)
      && forall count: nat :: IsCountFor(offer, c, algorithm, t, count) ==> count > U64_MAX
  }

  /** The fee of the right count on a track is no u128. */
  ghost predicate FeeFails(offer: OfferedCompute, c: Listed, algorithm: A.AlgorithmSelection, t: string) {
    exists count: nat ::
      IsCountFor(offer, c, algorithm, t, count) && c.baseFee + c.perNonceFee * count > U128_MAX
  }

  ghost predicate IsDecided(block: Block, c: Listed, per: map<string, PerChallenge>, challenge: C.Challenge) {
    && c.id in per
    && IsPerChallenge(block, c, per[c.id])
    && challenge.id == c.id
    && challenge.computeType == c.computeType
    && challenge.networkQualifiers == c.networkQualifiers
    && Ascending(challenge.activeTracks) && (forall t :: t in challenge.activeTracks <==> t in c.noncesPerBundle)
    && Ascending(challenge.tracksWithSource)
    && (forall t :: t in challenge.tracksWithSource <==> t in per[c.id].sources)
  }

  // What the loop over the candidates has built after `n` of them.
  ghost predicate DecidedUpTo(block: Block, candidates: seq<Listed>, n: nat, per: map<string, PerChallenge>,
                              challenges: seq<C.Challenge>)
    requires n <= |candidates|
  {
    && |challenges| == n
    && (forall k :: 0 <= k < n ==> challenges[k].id == candidates[k].id)
    && (DistinctIds(candidates) ==> forall k :: 0 <= k < n ==> IsDecided(block, candidates[k], per, challenges[k]))
  }

  lemma DecidedOneMore(block: Block, candidates: seq<Listed>, n: nat, per: map<string, PerChallenge>,
                       challenges: seq<C.Challenge>, p: PerChallenge)
    requires n < |candidates| && DecidedUpTo(block, candidates, n, per, challenges)
      && IsPerChallenge(block, candidates[n], p)
    ensures DecidedUpTo(block, candidates, n + 1, per[candidates[n].id := p],
      challenges + [AsChallenge(candidates[n], p)])
  {
    var per', challenges' := per[candidates[n].id := p], challenges + [AsChallenge(candidates[n], p)];
    if DistinctIds(candidates) {
      forall k | 0 <= k < n + 1 ensures IsDecided(block, candidates[k], per', challenges'[k]) {
        if k < n { assert IsDecided(block, candidates[k], per, challenges[k]); }
      }
    }
  }

  method DecideCandidates(block: Block, candidates: seq<Listed>)
    returns (r: Result<(map<string, PerChallenge>, seq<C.Challenge>), RatioError>)
    ensures r.Ok? ==> DecidedUpTo(block, candidates, |candidates|, r.value.0, r.value.1)
    ensures r.Err? ==> exists c :: c in candidates && RatesClash(block, c)
  {
    var per: map<string, PerChallenge> := map[];
    var challenges: seq<C.Challenge> := [];
    for n := 0 to |candidates|
      invariant DecidedUpTo(block, candidates, n, per, challenges)
    {
      var decided := DecideCandidate(block, candidates[n]);
      if decided.Err? { return Err(decided.error); }
      DecidedOneMore(block, candidates, n, per, challenges, decided.value);
      per := per[candidates[n].id := decided.value];
      challenges := challenges + [AsChallenge(candidates[n], decided.value)];
    }
    r := Ok((per, challenges));
  }

  /** The ids the draw ranks: compute-compatible, and with every active track sourced. */
  function EligibleIds(offer: OfferedCompute, challenges: seq<C.Challenge>): set<string> {
    set c | c in challenges && MatchesChallenge(offer, c.computeType)
            && (forall t :: t in c.activeTracks ==> t in c.tracksWithSource) :: c.id
  }

  /** The draw ranks exactly the challenges the selection considers. */
  lemma EligibleIsConsidered(offer: OfferedCompute, challenges: seq<C.Challenge>, id: string)
    ensures id in EligibleIds(offer, challenges) <==> id in C.ConsideredIds(offer, challenges)
  {
    C.ConsideredMembers(offer, challenges, id);
    if id in EligibleIds(offer, challenges) {
      var c :| c in challenges && C.IsConsidered(offer, c) && c.id == id;
      var k :| 0 <= k < |challenges| && challenges[k] == c;
    }
  }

  function RanksOf(rankOf: string -> nat, ids: set<string>): map<string, nat> {
    map id | id in ids :: rankOf(id)
  }

  // The listed challenge an id stands for: the last one under that id.
  function IndexOf(candidates: seq<Listed>, id: string): (k: Option<nat>)
    ensures k.Some? ==> k.value < |candidates| && candidates[k.value].id == id
    ensures k.None? ==> forall i :: 0 <= i < |candidates| ==> candidates[i].id != id
  {
    if candidates == [] then None
    else if candidates[|candidates| - 1].id == id then Some(|candidates| - 1)
    else IndexOf(candidates[..|candidates| - 1], id)
  }

  /** A candidate whose every active track has a source. */
  ghost predicate IsReady(block: Block, offer: OfferedCompute, c: Listed, p: PerChallenge) {
    && c in block.listed && c.noncesPerBundle.Keys != {} && (offer.Cpu? <==> c.computeType.CpuChallenge?)
    && IsPerChallenge(block, c, p) && p.sources.Keys == c.noncesPerBundle.Keys
  }

  // With distinct ids, the selected challenge is a candidate with every track sourced.
  lemma SelectedIsReady(block: Block, offer: OfferedCompute, candidates: seq<Listed>, per: map<string, PerChallenge>,
                        challenges: seq<C.Challenge>, id: string)
    requires DistinctIds(candidates) && DecidedUpTo(block, candidates, |candidates|, per, challenges)
    requires forall c :: c in candidates ==> c in block.listed && c.noncesPerBundle.Keys != {}
    requires id in C.ConsideredIds(offer, challenges)
    ensures IndexOf(candidates, id).Some? && id in per
    ensures IsReady(block, offer, candidates[IndexOf(candidates, id).value], per[id])
  {
    var k := DecidedAt(block, offer, candidates, per, challenges, id);
    IndexIsUnique(candidates, k);
    SourcesCoverTracks(offer, candidates[k], per[id], challenges[k]);
    assert candidates[k] in candidates;
  }

  lemma DecidedAt(block: Block, offer: OfferedCompute, candidates: seq<Listed>, per: map<string, PerChallenge>,
                  challenges: seq<C.Challenge>, id: string)
    returns (k: nat)
    requires DistinctIds(candidates) && DecidedUpTo(block, candidates, |candidates|, per, challenges)
      && id in C.ConsideredIds(offer, challenges)
    ensures k < |candidates| == |challenges| && candidates[k].id == id && C.IsConsidered(offer, challenges[k])
    ensures IsDecided(block, candidates[k], per, challenges[k])
  {
    C.ConsideredMembers(offer, challenges, id);
    k :| 0 <= k < |challenges| && challenges[k].id == id && C.IsConsidered(offer, challenges[k]);
    assert IsDecided(block, candidates[k], per, challenges[k]);
  }

  lemma {:induction false} IndexIsUnique(candidates: seq<Listed>, k: nat)
    requires DistinctIds(candidates) && k < |candidates|
    ensures IndexOf(candidates, candidates[k].id) == Some(k)
  {
    var n := |candidates| - 1;
    if k < n { IndexIsUnique(candidates[..n], k); }
  }

  lemma SourcesCoverTracks(offer: OfferedCompute, c: Listed, p: PerChallenge, challenge: C.Challenge)
    requires C.IsConsidered(offer, challenge) && p.sources.Keys <= c.noncesPerBundle.Keys
    requires forall t :: t in challenge.activeTracks <==> t in c.noncesPerBundle
    requires forall t :: t in challenge.tracksWithSource <==> t in p.sources
    ensures p.sources.Keys == c.noncesPerBundle.Keys
  {
    forall t | t in c.noncesPerBundle ensures t in p.sources {
      assert t in challenge.activeTracks;
    }
  }

  method Fees(c: Listed, numBundles: map<string, nat>) returns (r: Result<map<string, U128>, ProposeError>)
    ensures r.Ok? ==> r.value.Keys == numBundles.Keys
    ensures r.Ok? ==> forall t :: t in numBundles ==> r.value[t] == c.baseFee + c.perNonceFee * numBundles[t]
    ensures r.Err? ==>
      && r.error.FeeOverflow? && r.error.challengeId == c.id
      && r.error.trackId in numBundles && c.baseFee + c.perNonceFee * numBundles[r.error.trackId] > U128_MAX
  {
    r := FeesInOrder(c, numBundles, InOrder(numBundles.Keys));
  }

  method FeesInOrder(c: Listed, numBundles: map<string, nat>, order: seq<string>)
    returns (r: Result<map<string, U128>, ProposeError>)
    requires forall t :: t in order <==> t in numBundles
    ensures r.Ok? ==> r.value.Keys == numBundles.Keys
    ensures r.Ok? ==> forall t :: t in numBundles ==> r.value[t] == c.baseFee + c.perNonceFee * numBundles[t]
    ensures r.Err? ==>
      && r.error.FeeOverflow? && r.error.challengeId == c.id
      && r.error.trackId in numBundles && c.baseFee + c.perNonceFee * numBundles[r.error.trackId] > U128_MAX
  {
    var fees: map<string, U128> := map[];
    for i := 0 to |order|
      invariant forall j :: 0 <= j < i ==> order[j] in fees
      invariant forall t :: t in fees ==> t in numBundles && fees[t] == c.baseFee + c.perNonceFee * numBundles[t]
    {
      var t := order[i];
      assert t in numBundles;
      var fee := CheckedFee(c, numBundles[t]);
      if fee.None? { return Err(FeeOverflow(c.id, t)); }
      fees := fees[t := fee.value];
    }
    assert fees.Keys == numBundles.Keys;
    r := Ok(fees);
  }

  function CheckedFee(c: Listed, count: nat): (fee: Option<U128>)
    ensures fee.Some? <==> c.baseFee + c.perNonceFee * count <= U128_MAX
    ensures fee.Some? ==> fee.value == c.baseFee + c.perNonceFee * count
  {
    var scaled := CheckedMul(c.perNonceFee, count, U128_MAX);
    if scaled.None? then None else CheckedAdd(scaled.value, c.baseFee, U128_MAX)
  }

  function SettingsFor(count: nat, sources: map<string, S.SourceBenchmark>, t: string): TrackSettings {
    if t in sources then TrackSettings(count, Some(sources[t].fuelBudget), sources[t].hyperparameters)
    else TrackSettings(count, None, "")
  }

  lemma SettingsAreBacked(block: Block, algorithmId: string, t: string, source: S.SourceBenchmark,
                          settings: TrackSettings)
    requires S.IsBestSource(SourceCandidates(block.active), algorithmId, t, source)
    requires settings.fuelBudget == Some(source.fuelBudget) && settings.hyperparameters == source.hyperparameters
    ensures exists m :: m in block.active && Backs(m, algorithmId, t, settings)
  {
    CandidatesAreCached(block.active, source);
    var m :| m in block.active && IsOfferOf(m, source);
    assert Backs(m, algorithmId, t, settings);
  }

  function Sizings(c: Listed, algorithm: A.AlgorithmSelection): map<string, B.TrackSizing> {
    map t | t in c.noncesPerBundle :: B.TrackSizing(c.noncesPerBundle[t], A.IsBest(algorithm, t))
  }

  method SizeCandidate(offer: OfferedCompute, c: Listed, algorithm: A.AlgorithmSelection)
    returns (r: Result<map<string, nat>, B.BundleSizingError>)
    ensures r.Ok? ==> r.value.Keys == c.noncesPerBundle.Keys
    ensures r.Ok? ==> forall t :: t in r.value ==>
      r.value[t] <= U64_MAX && IsCountFor(offer, c, algorithm, t, r.value[t]) && r.value[t] >= c.minNumBundles
    ensures r.Err? ==> SizingFails(offer, c, algorithm, r.error)
  {
    var tracks := Sizings(c, algorithm);
    var sizing := B.SizeBundles(offer, c.minNumBundles, tracks);
    forall t | t in tracks
      ensures tracks[t] == B.TrackSizing(c.noncesPerBundle[t], SelectedIsBest(algorithm, t))
    {
    }
    if sizing.Err? {
      SizingFailed(offer, c, algorithm, tracks, sizing.error);
      return Err(sizing.error);
    }
    r := Ok(sizing.value.numBundles);
  }

  lemma SizingFailed(offer: OfferedCompute, c: Listed, algorithm: A.AlgorithmSelection,
                     tracks: map<string, B.TrackSizing>, why: B.BundleSizingError)
    requires tracks.Keys == c.noncesPerBundle.Keys
    requires forall t :: t in tracks ==>
      tracks[t] == B.TrackSizing(c.noncesPerBundle[t], SelectedIsBest(algorithm, t))
    requires why.ZeroCores? ==> offer == Cpu(0) && exists t :: t in tracks && B.IsAligned(offer, tracks[t])
    requires why.Overflow? ==>
      why.trackId in tracks && B.IsAligned(offer, tracks[why.trackId])
        && B.CannotFit(offer, c.minNumBundles, tracks[why.trackId])
    ensures SizingFails(offer, c, algorithm, why)
  {
    if why.ZeroCores? {
      var t :| t in tracks && B.IsAligned(offer, tracks[t]);
      assert t in c.noncesPerBundle && SelectedIsBest(algorithm, t);
    }
  }

  /** A proposal put together from a candidate and what was decided for it. */
  ghost predicate IsCompletion(offer: OfferedCompute, c: Listed, p: PerChallenge, proposal: Proposal) {
    && p.algorithm.selected == Some(proposal.selectedAlgorithm) && proposal.selectedChallenge == c.id
    && proposal.numBundles.Keys == proposal.feeByTrack.Keys == proposal.trackSettings.Keys == c.noncesPerBundle.Keys
    && forall t :: t in proposal.numBundles ==>
         && IsCountFor(offer, c, p.algorithm, t, proposal.numBundles[t]) && proposal.numBundles[t] >= c.minNumBundles
         && proposal.feeByTrack[t] == c.baseFee + c.perNonceFee * proposal.numBundles[t]
         && proposal.trackSettings[t].numBundles == proposal.numBundles[t]
         && (t in p.sources ==>
               && proposal.trackSettings[t].fuelBudget == Some(p.sources[t].fuelBudget)
               && proposal.trackSettings[t].hyperparameters == p.sources[t].hyperparameters)
         && (t !in p.sources ==>
               proposal.trackSettings[t].fuelBudget == None && proposal.trackSettings[t].hyperparameters == "")
  }

  lemma CompletionIsProposal(block: Block, offer: OfferedCompute, c: Listed, p: PerChallenge, proposal: Proposal)
    requires IsReady(block, offer, c, p) && IsCompletion(offer, c, p, proposal)
    ensures IsProposalFor(block, offer, proposal, c, p)
  {
    forall t | t in proposal.numBundles ensures IsTrackProposal(block, proposal, c, p, t) {
      SettingsAreBacked(block, proposal.selectedAlgorithm, t, p.sources[t], proposal.trackSettings[t]);
    }
  }

  lemma ReadyHasAlgorithm(block: Block, offer: OfferedCompute, c: Listed, p: PerChallenge)
    requires IsReady(block, offer, c, p)
    ensures p.algorithm.selected.Some?
  {
  }

  ghost predicate CompletionFails(offer: OfferedCompute, c: Listed, p: PerChallenge, e: ProposeError) {
    match e
    case SelectedAlgorithmUnknown(_) => p.algorithm.selected.None?
    case BundlesFailed(why) => SizingFails(offer, c, p.algorithm, why)
    case FeeOverflow(id, t) => c.id == id && FeeFails(offer, c, p.algorithm, t)
    case _ => false
  }

  // The chosen candidate's settings, track by track.
  method Complete(offer: OfferedCompute, c: Listed, p: PerChallenge, ranks: map<string, nat>, selection: C.Selection)
    returns (r: Result<Proposal, ProposeError>)
    ensures r.Ok? ==> r.value.selection == selection && r.value.drawRanks == ranks
    ensures r.Ok? ==> IsCompletion(offer, c, p, r.value)
    ensures r.Err? ==> CompletionFails(offer, c, p, r.error)
  {
    if p.algorithm.selected.None? { return Err(SelectedAlgorithmUnknown(c.id)); }
    var sizing := SizeCandidate(offer, c, p.algorithm);
    if sizing.Err? { return Err(BundlesFailed(sizing.error)); }
    var counts := sizing.value;
    var fees := Fees(c, counts);
    if fees.Err? {
      ghost var t := fees.error.trackId;
      assert IsCountFor(offer, c, p.algorithm, t, counts[t]);
      return Err(fees.error);
    }
    var settings := map t | t in counts :: SettingsFor(counts[t], p.sources, t);
    r := Ok(Proposal(c.id, p.algorithm.selected.value, ranks, selection, counts, settings, fees.value));
  }

  ghost predicate AllDecided(block: Block, candidates: seq<Listed>, per: map<string, PerChallenge>,
                             challenges: seq<C.Challenge>) {
    && |challenges| == |candidates|
    && forall k :: 0 <= k < |challenges| ==> IsDecided(block, candidates[k], per, challenges[k])
  }

  /** A selection made from a block: over its candidates, with a rank for each one considered. */
  ghost predicate IsSelectionFrom(block: Block, offer: OfferedCompute, ranks: map<string, nat>, s: C.Selection) {
    && (forall id :: id in ranks <==> id in s.considered)
    && (forall id :: id in ranks ==> ranks[id] == block.rankOf(id))
    && exists per, challenges :: AllDecided(block, Candidates(block.listed), per, challenges)
         && C.IsSelectionOf(C.Input(offer, challenges, block.poolQualifiers, block.inFlight, block.stats, ranks), s)
  }

  /** The selection's arithmetic overflows over the block's candidates. */
  ghost predicate SelectionOverflows(block: Block, offer: OfferedCompute) {
    exists per, challenges, ranks :: AllDecided(block, Candidates(block.listed), per, challenges)
      && C.ArithmeticOverflows(C.Input(offer, challenges, block.poolQualifiers, block.inFlight, block.stats, ranks))
  }

  ghost predicate IsPass(block: Block, offer: OfferedCompute, r: Result<Proposed, ProposeError>) {
    match r
    case Err(e) => IsFailureOf(block, offer, e)
    case Ok(NoAction(selection)) =>
      selection.considered == [] && exists ranks :: IsSelectionFrom(block, offer, ranks, selection)
    case Ok(Precommit(p)) =>
      && (exists c, decided :: IsProposalFor(block, offer, p, c, decided))
      && IsSelectionFrom(block, offer, p.drawRanks, p.selection)
      && p.selection.selected == Some(p.selectedChallenge)
  }

  // The stages up to the selection.
  method SelectFrom(block: Block, offer: OfferedCompute, candidates: seq<Listed>, per: map<string, PerChallenge>,
                    challenges: seq<C.Challenge>)
    returns (ranks: map<string, nat>, r: Result<C.Selection, ProposeError>)
    requires candidates == Candidates(block.listed) && DecidedUpTo(block, candidates, |candidates|, per, challenges)
    ensures DistinctIds(block.listed) && r.Err? ==>
      r.error.ChallengeFailed? && r.error.challenge.Arithmetic? && SelectionOverflows(block, offer)
    ensures DistinctIds(block.listed) && r.Ok? ==> IsSelectionFrom(block, offer, ranks, r.value)
    ensures DistinctIds(block.listed) && r.Ok? && r.value.selected.Some? ==>
      && IndexOf(candidates, r.value.selected.value).Some? && r.value.selected.value in per
      && IsReady(block, offer, candidates[IndexOf(candidates, r.value.selected.value).value],
           per[r.value.selected.value])
    ensures DistinctIds(block.listed) && r.Ok? && r.value.selected.None? ==> r.value.considered == []
  {
    CandidatesAreListed(block.listed);
    ranks := RanksOf(block.rankOf, EligibleIds(offer, challenges));
    forall id ensures id in ranks <==> id in C.ConsideredIds(offer, challenges) {
      EligibleIsConsidered(offer, challenges, id);
    }
    var input := C.Input(offer, challenges, block.poolQualifiers, block.inFlight, block.stats, ranks);
    var selection := C.SelectChallenge(input);
    if DistinctIds(block.listed) { assert AllDecided(block, candidates, per, challenges) && C.DistinctIds(challenges); }
    if selection.Err? { return ranks, Err(ChallengeFailed(selection.error)); }
    r := Ok(selection.value);
    if DistinctIds(block.listed) {
      assert C.IsSelectionOf(input, selection.value);
      if selection.value.selected.Some? {
        C.SelectedIsConsidered(input, selection.value);
        SelectedIsReady(block, offer, candidates, per, challenges, selection.value.selected.value);
      }
    }
  }

  /** `propose`. */
  method Propose(block: Block, offer: OfferedCompute) returns (r: Result<Proposed, ProposeError>)
    ensures DistinctIds(block.listed) ==> IsPass(block, offer, r)
  {
    var candidates := Candidates(block.listed);
    var decided := DecideCandidates(block, candidates);
    if decided.Err? { return Err(RatioFailed(decided.error)); }
    var (per, challenges) := decided.value;
    var ranks, selection := SelectFrom(block, offer, candidates, per, challenges);
    if selection.Err? { return Err(selection.error); }
    if selection.value.selected.None? { return Ok(NoAction(selection.value)); }
    var chosen := selection.value.selected.value;
    var k := IndexOf(candidates, chosen);
    if k.None? || chosen !in per { return Err(SelectedChallengeUnknown(chosen)); }
    var c, p := candidates[k.value], per[chosen];
    var proposal := Complete(offer, c, p, ranks, selection.value);
    if DistinctIds(block.listed) { ReadyHasAlgorithm(block, offer, c, p); }
    if proposal.Err? {
      if DistinctIds(block.listed) { CompletionFailsPass(block, offer, c, p, ranks, selection.value, proposal.error); }
      return Err(proposal.error);
    }
    if DistinctIds(block.listed) { CompletionIsProposal(block, offer, c, p, proposal.value); }
    r := Ok(Precommit(proposal.value));
  }

  lemma CompletionFailsPass(block: Block, offer: OfferedCompute, c: Listed, p: PerChallenge,
                            ranks: map<string, nat>, s: C.Selection, e: ProposeError)
    requires IsReady(block, offer, c, p) && IsSelectionFrom(block, offer, ranks, s) && s.selected == Some(c.id)
    requires CompletionFails(offer, c, p, e) && p.algorithm.selected.Some?
    ensures IsFailureOf(block, offer, e)
  {
    assert IsChosen(block, offer, c, p);
  }

  // -- the reserve -----------------------------------------------------------------

  /** What one track exposes: the method penalty for its bundles, its fee and the failure charge. */
  ghost function Exposure(counts: map<string, U64>, fees: map<string, U128>, penalty: U128, charge: U128,
                          t: string): nat
    requires t in counts
  {
    penalty * counts[t] + (if t in fees then fees[t] else 0) + charge
  }

  ghost function Capped(n: nat): U128 {
    if n <= U128_MAX then n else U128_MAX
  }

  function SaturatedExposure(penalty: U128, count: U64, fee: U128, charge: U128): U128 {
    var method_ := if penalty * count <= U128_MAX then penalty * count else U128_MAX;
    var withFee := if method_ + fee <= U128_MAX then method_ + fee else U128_MAX;
    if withFee + charge <= U128_MAX then withFee + charge else U128_MAX
  }

  /** Saturating each step saturates the exposure. */
  lemma SaturatedIsCapped(penalty: U128, count: U64, fee: U128, charge: U128)
    ensures SaturatedExposure(penalty, count, fee, charge) == Capped(penalty * count + fee + charge)
  {
  }

  function Reserves(counts: map<string, U64>, fees: map<string, U128>, penalty: U128, charge: U128): map<string, U128> {
    map t | t in counts :: SaturatedExposure(penalty, counts[t], if t in fees then fees[t] else 0, charge)
  }

  /** The greatest capped exposure over the tracks, and nothing for no track. */
  ghost predicate IsReserve(counts: map<string, U64>, fees: map<string, U128>, penalty: U128, charge: U128,
                            most: U128) {
    && (forall t :: t in counts ==> Capped(Exposure(counts, fees, penalty, charge, t)) <= most)
    && (if counts == map[] then most == 0
        else exists t :: t in counts && most == Capped(Exposure(counts, fees, penalty, charge, t)))
  }

  lemma ReservesAreCapped(counts: map<string, U64>, fees: map<string, U128>, penalty: U128, charge: U128, t: string)
    requires t in counts
    ensures t in Reserves(counts, fees, penalty, charge)
    ensures Reserves(counts, fees, penalty, charge)[t] == Capped(Exposure(counts, fees, penalty, charge, t))
  {
    SaturatedIsCapped(penalty, counts[t], if t in fees then fees[t] else 0, charge);
  }

  /** `reserve`: the maximum over every proposed track. */
  method Reserve(counts: map<string, U64>, fees: map<string, U128>, penalty: U128, charge: U128) returns (most: U128)
    ensures IsReserve(counts, fees, penalty, charge, most)
  {
    var totals := Reserves(counts, fees, penalty, charge);
    most := MostOf(totals);
    assert totals == map[] <==> counts == map[] by { assert totals.Keys == counts.Keys; }
    forall t | t in counts ensures totals[t] == Capped(Exposure(counts, fees, penalty, charge, t)) {
      ReservesAreCapped(counts, fees, penalty, charge, t);
    }
  }

  ghost predicate IsMost(totals: map<string, U128>, most: U128) {
    && (forall t :: t in totals ==> totals[t] <= most)
    && (if totals == map[] then most == 0 else exists t :: t in totals && most == totals[t])
  }

  method MostOf(totals: map<string, U128>) returns (most: U128)
    ensures IsMost(totals, most)
  {
    most := 0;
    var order := InOrder(totals.Keys);
    for i := 0 to |order|
      invariant forall j :: 0 <= j < i ==> totals[order[j]] <= most
      invariant most == 0 || exists t :: t in totals && most == totals[t]
    {
      var t := order[i];
      assert t in totals;
      if totals[t] > most { most := totals[t]; }
    }
    assert forall t :: t in totals ==> t in order;
    if totals != map[] && most == 0 {
      var t :| t in totals;
      assert totals[t] == 0;
    }
  }

  /**
   * A recorded reserve covers whichever track is picked exactly when no track's
   * exposure passes the 128-bit range: saturation records less than the exposure.
   */
  lemma ReserveCovers(counts: map<string, U64>, fees: map<string, U128>, penalty: U128, charge: U128, most: U128)
    requires IsReserve(counts, fees, penalty, charge, most)
    ensures (forall t :: t in counts ==> Exposure(counts, fees, penalty, charge, t) <= most)
       <==> (forall t :: t in counts ==> Exposure(counts, fees, penalty, charge, t) <= U128_MAX)
  {
    forall t | t in counts
      ensures Exposure(counts, fees, penalty, charge, t) <= most
         <==> Exposure(counts, fees, penalty, charge, t) <= U128_MAX
    {
      assert Capped(Exposure(counts, fees, penalty, charge, t)) <= most;
    }
  }

  /** One track of four bundles at a penalty of 2^127: the reserve is less than half of what the track exposes. */
  lemma SaturationUnderstates(most: U128)
    requires IsReserve(map["t" := 4], map[], 0x8000_0000_0000_0000_0000_0000_0000_0000, 0, most)
    ensures most == U128_MAX
    ensures Exposure(map["t" := 4], map[], 0x8000_0000_0000_0000_0000_0000_0000_0000, 0, "t") == 2 * most + 2
  {
    var counts: map<string, U64> := map["t" := 4];
    assert "t" in counts;
    assert Exposure(counts, map[], 0x8000_0000_0000_0000_0000_0000_0000_0000, 0, "t") > U128_MAX;
  }
}
