/** `select_challenge`: the eligible challenge with the lowest projected balancing factor. */
module Challenge {
  import opened Wrappers
  import opened Numbers
  import opened Ratio
  import opened Ids
  import opened Compute

  datatype Challenge = Challenge(
    id: string, computeType: ComputeType, activeTracks: seq<string>,
    networkQualifiers: map<string, U128>, tracksWithSource: seq<string>)

  datatype InFlightBenchmark = InFlightBenchmark(
    benchmarkId: string, challengeId: string, algorithmId: string, trackId: Option<string>, numBundles: U128)

  datatype TrackStats = TrackStats(qualifiers: U128, activeBundles: U128)

  type Stats = map<string, map<string, TrackStats>>

  datatype Input = Input(
    offered: OfferedCompute,
    challenges: seq<Challenge>,
    poolQualifiers: map<string, map<string, U128>>,
    inFlight: seq<InFlightBenchmark>,
    stats: Stats,
    drawRanks: map<string, nat>)

  datatype Excluded = IncompatibleComputeType | TrackWithoutSource(trackId: string)

  datatype Selection = Selection(
    considered: seq<string>,
    excluded: map<string, Excluded>,
    expectedAddition: map<string, Ratio>,
    projectedFactor: map<string, Ratio>,
    tieCandidates: Option<seq<string>>,
    selected: Option<string>)

  datatype ChallengeError = Arithmetic(error: RatioError) | MissingDrawRank(challengeId: string)

  // -- the exact rule ----------------------------------------------------------

  /** The row of the two keys, when both are there. */
  function StatsOf(stats: Stats, algorithmId: string, trackId: string): (s: Option<TrackStats>)
    ensures s.Some? <==> algorithmId in stats && trackId in stats[algorithmId]
    ensures s.Some? ==> s.value == stats[algorithmId][trackId]
  {
    if algorithmId !in stats then None
    else if trackId !in stats[algorithmId] then None
    else Some(stats[algorithmId][trackId])
  }

  /** Qualifiers a projected benchmark is expected to add; zero where there is no live rate. */
  ghost function ExpectedOf(stats: Stats, b: InFlightBenchmark): real {
    if b.trackId.None? then 0.0 else
    var s := StatsOf(stats, b.algorithmId, b.trackId.value);
    if s.None? || s.value.activeBundles == 0 then 0.0
    else b.numBundles as real * (s.value.qualifiers as real / s.value.activeBundles as real)
  }

  ghost function ExpectedFor(stats: Stats, b: InFlightBenchmark, challengeId: string): real {
    if b.challengeId == challengeId then ExpectedOf(stats, b) else 0.0
  }

  ghost function ExpectedAddition(stats: Stats, benchmarks: seq<InFlightBenchmark>, challengeId: string): real {
    if benchmarks == [] then 0.0
    else ExpectedAddition(stats, benchmarks[..|benchmarks| - 1], challengeId)
         + ExpectedFor(stats, benchmarks[|benchmarks| - 1], challengeId)
  }

  function QualifiersOn(counts: map<string, U128>, track: string): U128 {
    if track in counts then counts[track] else 0
  }

  ghost function Total(counts: map<string, U128>, tracks: seq<string>): nat {
    if tracks == [] then 0
    else
      var last := tracks[|tracks| - 1];
      Total(counts, tracks[..|tracks| - 1]) + if last in counts then counts[last] else 0
  }

  /** The pool's own qualifiers, none for a challenge it has no row for. */
  function PoolCounts(input: Input, challengeId: string): (counts: map<string, U128>)
    ensures challengeId in input.poolQualifiers ==> counts == input.poolQualifiers[challengeId]
    ensures challengeId !in input.poolQualifiers ==> counts == map[]
  {
    if challengeId in input.poolQualifiers then input.poolQualifiers[challengeId] else map[]
  }

  ghost function FactorFrom(pool: nat, network: nat, addition: real): real {
    if network as real + addition == 0.0 then 0.0
    else (pool as real + addition) / (network as real + addition)
  }

  /** (pool + addition) / (network + addition), and zero where that divides by zero. */
  ghost function FactorOf(input: Input, c: Challenge): real {
    FactorFrom(Total(PoolCounts(input, c.id), c.activeTracks), Total(c.networkQualifiers, c.activeTracks),
               ExpectedAddition(input.stats, input.inFlight, c.id))
  }

  /** Of the offered kind of compute, and with a source on every active track. */
  ghost predicate IsConsidered(offered: OfferedCompute, c: Challenge) {
    && (offered.Cpu? <==> c.computeType.CpuChallenge?)
    && forall t :: t in c.activeTracks ==> t in c.tracksWithSource
  }

  predicate DistinctIds(challenges: seq<Challenge>) {
    forall i, j :: 0 <= i < j < |challenges| ==> challenges[i].id != challenges[j].id
  }

  // -- projection ----------------------------------------------------------------

  /** `TrackStats::rate`. */
  function RateOf(s: TrackStats): (r: Option<Ratio>)
    ensures r.None? <==> s.activeBundles == 0
    ensures r.Some? ==> Value(r.value) == s.qualifiers as real / s.activeBundles as real
  {
    if s.activeBundles == 0 then None else Some(New(s.qualifiers, s.activeBundles).value)
  }

  function Expected(stats: Stats, b: InFlightBenchmark): (r: Result<Ratio, RatioError>)
    ensures r.Ok? ==> Value(r.value) == ExpectedOf(stats, b)
  {
    if b.trackId.None? then Ok(ZERO) else
    var s := StatsOf(stats, b.algorithmId, b.trackId.value);
    if s.None? || RateOf(s.value).None? then Ok(ZERO)
    else CheckedScale(RateOf(s.value).value, b.numBundles)
  }

  function AdditionOf(additions: map<string, Ratio>, challengeId: string): Ratio {
    if challengeId in additions then additions[challengeId] else ZERO
  }

  /** Some benchmark's expectation, or the exact sum up to and with it, does not fit. */
  ghost predicate ProjectionOverflows(stats: Stats, benchmarks: seq<InFlightBenchmark>) {
    exists i, sum: Ratio :: 0 <= i < |benchmarks| && CannotAdd(stats, benchmarks, i, sum)
  }

  ghost predicate CannotAdd(stats: Stats, benchmarks: seq<InFlightBenchmark>, i: nat, sum: Ratio)
    requires i < |benchmarks|
  {
    && benchmarks[i].trackId.Some?
    && Value(sum) == ExpectedAddition(stats, benchmarks[..i], benchmarks[i].challengeId)
    && (ExpectationFails(stats, benchmarks[i])
        || exists e: Ratio :: Value(e) == ExpectedOf(stats, benchmarks[i]) && CheckedSum(sum, e).Err?)
  }

  /** The benchmark's bundles at its live rate do not fit. */
  ghost predicate ExpectationFails(stats: Stats, b: InFlightBenchmark) {
    && b.trackId.Some?
    && var s := StatsOf(stats, b.algorithmId, b.trackId.value);
    && s.Some?
    && s.value.activeBundles > 0
    && CheckedScale(RateOf(s.value).value, b.numBundles).Err?
  }

  lemma CannotAddIs(stats: Stats, b: InFlightBenchmark, sum: Ratio)
    ensures Expected(stats, b).Err? <==> ExpectationFails(stats, b)
    ensures Expected(stats, b).Ok? ==>
      (CheckedSum(sum, Expected(stats, b).value).Err?
       <==> exists e: Ratio :: Value(e) == ExpectedOf(stats, b) && CheckedSum(sum, e).Err?)
  {
    if Expected(stats, b).Ok? {
      forall e: Ratio | Value(e) == ExpectedOf(stats, b) ensures e == Expected(stats, b).value {
        LowestTermsAreUnique(e, Expected(stats, b).value);
      }
    }
  }

  /** The additions with one more benchmark, or the failure. */
  function AddOne(stats: Stats, far: map<string, Ratio>, b: InFlightBenchmark): Result<map<string, Ratio>, RatioError> {
    if b.trackId.None? then Ok(far) else
    var expected := Expected(stats, b);
    if expected.Err? then Err(expected.error) else
    var sum := CheckedSum(AdditionOf(far, b.challengeId), expected.value);
    if sum.Err? then Err(sum.error) else Ok(far[b.challengeId := sum.value])
  }

  lemma AddOneIsExact(stats: Stats, far: map<string, Ratio>, b: InFlightBenchmark, c: string)
    ensures var r := AddOne(stats, far, b);
      r.Ok? ==> Value(AdditionOf(r.value, c)) == Value(AdditionOf(far, c)) + ExpectedFor(stats, b, c)
  {
  }

  /** The running additions, or the first failure. */
  function Projected(stats: Stats, benchmarks: seq<InFlightBenchmark>): Result<map<string, Ratio>, RatioError> {
    if benchmarks == [] then Ok(map[]) else
    var far := Projected(stats, benchmarks[..|benchmarks| - 1]);
    if far.Err? then far else AddOne(stats, far.value, benchmarks[|benchmarks| - 1])
  }

  lemma {:induction false} ProjectedIsExact(stats: Stats, benchmarks: seq<InFlightBenchmark>, c: string)
    ensures var r := Projected(stats, benchmarks);
      r.Ok? ==> Value(AdditionOf(r.value, c)) == ExpectedAddition(stats, benchmarks, c)
  {
    if benchmarks != [] {
      var n := |benchmarks| - 1;
      ProjectedIsExact(stats, benchmarks[..n], c);
      var far := Projected(stats, benchmarks[..n]);
      if far.Ok? { AddOneIsExact(stats, far.value, benchmarks[n], c); }
    }
  }

  lemma OverflowOneMore(stats: Stats, benchmarks: seq<InFlightBenchmark>)
    requires benchmarks != []
    ensures var n := |benchmarks| - 1;
      ProjectionOverflows(stats, benchmarks) <==>
      ProjectionOverflows(stats, benchmarks[..n]) || exists sum: Ratio :: CannotAdd(stats, benchmarks, n, sum)
  {
    var n := |benchmarks| - 1;
    var front := benchmarks[..n];
    forall i, sum: Ratio | 0 <= i < n
      ensures CannotAdd(stats, front, i, sum) <==> CannotAdd(stats, benchmarks, i, sum)
    {
      assert front[..i] == benchmarks[..i];
    }
  }

  lemma CannotAddIff(stats: Stats, benchmarks: seq<InFlightBenchmark>, i: nat, far: Ratio)
    requires i < |benchmarks| && benchmarks[i].trackId.Some?
    requires Value(far) == ExpectedAddition(stats, benchmarks[..i], benchmarks[i].challengeId)
    ensures (exists sum: Ratio :: CannotAdd(stats, benchmarks, i, sum)) <==> CannotAdd(stats, benchmarks, i, far)
  {
    forall sum: Ratio | CannotAdd(stats, benchmarks, i, sum) ensures sum == far {
      LowestTermsAreUnique(sum, far);
    }
  }

  /** The fold fails exactly where an expectation, or the exact sum with it, does not fit. */
  lemma {:induction false} ProjectedFailsIff(stats: Stats, benchmarks: seq<InFlightBenchmark>)
    ensures Projected(stats, benchmarks).Err? <==> ProjectionOverflows(stats, benchmarks)
  {
    if benchmarks != [] {
      var n := |benchmarks| - 1;
      var front, b := benchmarks[..n], benchmarks[n];
      ProjectedFailsIff(stats, front);
      ProjectedIsExact(stats, front, b.challengeId);
      OverflowOneMore(stats, benchmarks);
      var far := Projected(stats, front);
      if far.Ok? && b.trackId.Some? {
        CannotAddIff(stats, benchmarks, n, AdditionOf(far.value, b.challengeId));
        CannotAddIs(stats, b, AdditionOf(far.value, b.challengeId));
      }
    }
  }

  lemma {:induction false} FailureStays(stats: Stats, benchmarks: seq<InFlightBenchmark>, i: nat)
    requires i <= |benchmarks| && Projected(stats, benchmarks[..i]).Err?
    ensures Projected(stats, benchmarks).Err?
    decreases |benchmarks| - i
  {
    if i < |benchmarks| {
      assert benchmarks[..i + 1][..i] == benchmarks[..i];
      FailureStays(stats, benchmarks, i + 1);
    } else {
      assert benchmarks[..i] == benchmarks;
    }
  }

  /** `project`: the expected addition of every challenge, exact, or an overflow on the way. */
  method Project(stats: Stats, benchmarks: seq<InFlightBenchmark>) returns (r: Result<map<string, Ratio>, RatioError>)
    ensures r.Ok? ==> forall c: string :: Value(AdditionOf(r.value, c)) == ExpectedAddition(stats, benchmarks, c)
    ensures r.Err? <==> ProjectionOverflows(stats, benchmarks)
  {
    ProjectedFailsIff(stats, benchmarks);
    forall c: string
      ensures Projected(stats, benchmarks).Ok? ==>
        Value(AdditionOf(Projected(stats, benchmarks).value, c)) == ExpectedAddition(stats, benchmarks, c)
    {
      ProjectedIsExact(stats, benchmarks, c);
    }
    r := RunProjection(stats, benchmarks);
  }

  method RunProjection(stats: Stats, benchmarks: seq<InFlightBenchmark>)
    returns (r: Result<map<string, Ratio>, RatioError>)
    ensures r.Ok? <==> Projected(stats, benchmarks).Ok?
    ensures r.Ok? ==> r == Projected(stats, benchmarks)
  {
    var additions: map<string, Ratio> := map[];
    for i := 0 to |benchmarks|
      invariant Projected(stats, benchmarks[..i]) == Ok(additions)
    {
      assert benchmarks[..i + 1][..i] == benchmarks[..i];
      var next := AddOne(stats, additions, benchmarks[i]);
      if next.Err? {
        FailureStays(stats, benchmarks, i + 1);
        return next;
      }
      additions := next.value;
    }
    assert benchmarks[..|benchmarks|] == benchmarks;
    r := Ok(additions);
  }

  /** A total, one of the two sums, or their quotient, does not fit. */
  ghost predicate FactorOverflows(network: nat, pool: nat, addition: Ratio) {
    || network > U128_MAX
    || pool > U128_MAX
    || CheckedSum(Whole(network), addition).Err?
    || CheckedSum(Whole(pool), addition).Err?
    || (var below := CheckedSum(Whole(network), addition).value;
        below.numerator > 0 && CheckedDivide(CheckedSum(Whole(pool), addition).value, below).Err?)
  }

  lemma {:induction false} TotalGrows(counts: map<string, U128>, tracks: seq<string>, i: nat)
    requires i <= |tracks|
    ensures Total(counts, tracks[..i]) <= Total(counts, tracks)
    decreases |tracks| - i
  {
    if i < |tracks| {
      assert tracks[..i + 1][..i] == tracks[..i];
      TotalGrows(counts, tracks, i + 1);
    } else {
      assert tracks[..i] == tracks;
    }
  }

  /** The two totals over the active tracks, or an overflow. */
  method Totals(network: map<string, U128>, pool: map<string, U128>, tracks: seq<string>)
    returns (r: Result<(U128, U128), RatioError>)
    ensures r.Ok? ==> r.value == (Total(network, tracks), Total(pool, tracks))
    ensures r.Err? <==> Total(network, tracks) > U128_MAX || Total(pool, tracks) > U128_MAX
  {
    var poolQ: U128, networkQ: U128 := 0, 0;
    for i := 0 to |tracks|
      invariant poolQ == Total(pool, tracks[..i]) && networkQ == Total(network, tracks[..i])
    {
      assert tracks[..i + 1][..i] == tracks[..i];
      TotalGrows(network, tracks, i + 1);
      TotalGrows(pool, tracks, i + 1);
      var more := CheckedAdd(networkQ, QualifiersOn(network, tracks[i]), U128_MAX);
      if more.None? { return Err(Overflow("network_q")); }
      networkQ := more.value;
      var pooled := CheckedAdd(poolQ, QualifiersOn(pool, tracks[i]), U128_MAX);
      if pooled.None? { return Err(Overflow("pool_q")); }
      poolQ := pooled.value;
    }
    assert tracks[..|tracks|] == tracks;
    r := Ok((networkQ, poolQ));
  }

  /** The factor of two totals, as the code forms it. */
  function FactorOfTotals(networkQ: U128, poolQ: U128, addition: Ratio): (r: Result<Ratio, RatioError>)
    ensures r.Ok? ==> Value(r.value) == FactorFrom(poolQ, networkQ, Value(addition))
  {
    var denominator := CheckedSum(Whole(networkQ), addition);
    if denominator.Err? then denominator
    else
      ZeroValue(denominator.value);
      if denominator.value.numerator == 0 then Ok(ZERO)
      else
        var numerator := CheckedSum(Whole(poolQ), addition);
        if numerator.Err? then numerator else CheckedDivide(numerator.value, denominator.value)
  }

  /** It fails exactly where a sum or the quotient does not fit: a zero denominator hides no failing sum. */
  lemma FactorFailsIff(networkQ: U128, poolQ: U128, addition: Ratio)
    ensures FactorOfTotals(networkQ, poolQ, addition).Err? <==> FactorOverflows(networkQ, poolQ, addition)
  {
    var denominator := CheckedSum(Whole(networkQ), addition);
    if denominator.Ok? && denominator.value.numerator == 0 {
      ZeroValue(denominator.value);
      ZeroHidesNothing(networkQ, poolQ, addition);
    }
  }

  lemma ZeroHidesNothing(networkQ: U128, poolQ: U128, addition: Ratio)
    requires networkQ as real + Value(addition) == 0.0
    ensures CheckedSum(Whole(poolQ), addition).Ok?
  {
    ZeroAddition(networkQ, addition);
    AddingZeroFits(poolQ);
  }

  lemma ZeroAddition(network: U128, addition: Ratio)
    requires network as real + Value(addition) == 0.0
    ensures addition == ZERO
  {
    assert Value(addition) >= 0.0;
    LowestTermsAreUnique(addition, ZERO);
  }

  lemma AddingZeroFits(pool: U128)
    ensures CheckedSum(Whole(pool), ZERO).Ok?
  {
    assert Gcd(1, 1) == 1;
  }

  /** `projected_raw_factor_of`: exact, or an overflow on the way. */
  method ProjectedFactor(c: Challenge, pool: map<string, U128>, addition: Ratio) returns (r: Result<Ratio, RatioError>)
    ensures r.Ok? ==>
      Value(r.value) ==
      FactorFrom(Total(pool, c.activeTracks), Total(c.networkQualifiers, c.activeTracks), Value(addition))
    ensures r.Err? <==>
      FactorOverflows(Total(c.networkQualifiers, c.activeTracks), Total(pool, c.activeTracks), addition)
  {
    var totals := Totals(c.networkQualifiers, pool, c.activeTracks);
    if totals.Err? { return Err(totals.error); }
    r := FactorOfTotals(totals.value.0, totals.value.1, addition);
    FactorFailsIff(totals.value.0, totals.value.1, addition);
  }

  lemma ZeroValue(r: Ratio)
    ensures r.numerator == 0 <==> Value(r) == 0.0
  {
    QuotientOrder(r.numerator, r.denominator, 0, 1);
  }

  // -- the lowest factor and the draw ----------------------------------------------

  /** The ids holding the lowest factor, each of them and no other, in id order. */
  ghost predicate AreLowest(factors: map<string, Ratio>, ids: seq<string>) {
    && ids != [] && Ascending(ids)
    && (forall id :: id in ids ==> id in factors)
    && forall id, other :: id in ids && other in factors ==>
         Value(factors[id]) <= Value(factors[other])
         && (other in ids <==> Value(factors[other]) == Value(factors[id]))
  }

  // The same, over the first `n` keys of the walk.
  ghost predicate LowestSoFar(factors: map<string, Ratio>, order: seq<string>, n: nat, lowest: Ratio, ids: seq<string>)
    requires n <= |order| && forall id :: id in order ==> id in factors
  {
    && ids != [] && Ascending(ids)
    && (forall id :: id in ids ==> id in order[..n] && Value(factors[id]) == Value(lowest))
    && (forall j :: 0 <= j < n ==> Value(lowest) <= Value(factors[order[j]]))
    && (forall j :: 0 <= j < n && Value(factors[order[j]]) == Value(lowest) ==> order[j] in ids)
  }

  lemma TiedOneMore(factors: map<string, Ratio>, order: seq<string>, n: nat, lowest: Ratio, ids: seq<string>)
    requires n < |order| && Ascending(order) && forall id :: id in order ==> id in factors
    requires LowestSoFar(factors, order, n, lowest, ids)
    requires Value(factors[order[n]]) == Value(lowest)
    ensures LowestSoFar(factors, order, n + 1, lowest, ids + [order[n]])
  {
    var ids' := ids + [order[n]];
    forall i, j | 0 <= i < j < |ids'| ensures Before(ids'[i], ids'[j]) {
      if j == |ids| {
        assert ids[i] in order[..n];
        var k :| 0 <= k < n && order[..n][k] == ids[i];
      }
    }
    forall id | id in ids' ensures id in order[..n + 1] {
      if id in ids { assert id in order[..n]; } else { assert order[..n + 1][n] == id; }
    }
  }

  lemma LowerOneMore(factors: map<string, Ratio>, order: seq<string>, n: nat, lowest: Ratio, ids: seq<string>)
    requires n < |order| && forall id :: id in order ==> id in factors
    requires n > 0 ==> LowestSoFar(factors, order, n, lowest, ids) && Value(factors[order[n]]) < Value(lowest)
    ensures LowestSoFar(factors, order, n + 1, factors[order[n]], [order[n]])
  {
    assert order[..n + 1][n] == order[n];
  }

  lemma HigherOneMore(factors: map<string, Ratio>, order: seq<string>, n: nat, lowest: Ratio, ids: seq<string>)
    requires n < |order| && forall id :: id in order ==> id in factors
    requires LowestSoFar(factors, order, n, lowest, ids) && Value(factors[order[n]]) > Value(lowest)
    ensures LowestSoFar(factors, order, n + 1, lowest, ids)
  {
    forall id | id in ids ensures id in order[..n + 1] {
      var k :| 0 <= k < n && order[..n][k] == id;
      assert order[..n + 1][k] == id;
    }
  }

  lemma LowestOfAll(factors: map<string, Ratio>, order: seq<string>, lowest: Ratio, ids: seq<string>)
    requires (forall id :: id in order <==> id in factors) && LowestSoFar(factors, order, |order|, lowest, ids)
    ensures AreLowest(factors, ids)
  {
    assert order[..|order|] == order;
    forall id, other | id in ids && other in factors
      ensures Value(factors[id]) <= Value(factors[other])
        && (other in ids <==> Value(factors[other]) == Value(factors[id]))
    {
      var j :| 0 <= j < |order| && order[j] == other;
    }
  }

  /** The lowest of the factors whose ids come before `id`. */
  ghost predicate IsLowestBefore(factors: map<string, Ratio>, id: string, m: Ratio) {
    && (exists other :: other in factors && Before(other, id) && factors[other] == m)
    && forall other :: other in factors && Before(other, id) ==> Value(m) <= Value(factors[other])
  }

  /** Some factor cannot be compared with the lowest of those before it. */
  ghost predicate FactorsClash(factors: map<string, Ratio>) {
    exists id, m :: id in factors && ClashesAt(factors, id, m)
  }

  ghost predicate ClashesAt(factors: map<string, Ratio>, id: string, m: Ratio)
    requires id in factors
  {
    IsLowestBefore(factors, id, m) && CheckedCompare(factors[id], m).Err?
  }

  lemma BeforeInOrder(order: seq<string>, i: nat, other: string)
    requires Ascending(order) && i < |order| && other in order && Before(other, order[i])
    ensures exists j :: 0 <= j < i && order[j] == other
  {
    var j :| 0 <= j < |order| && order[j] == other;
    Trichotomy(order[i], other);
  }

  lemma NothingBeforeFirst(factors: map<string, Ratio>, order: seq<string>)
    requires |order| > 0 && Ascending(order) && forall id :: id in order <==> id in factors
    ensures order[0] in factors && forall m :: !ClashesAt(factors, order[0], m)
  {
    assert order[0] in order;
    forall other | other in factors && Before(other, order[0]) ensures false {
      BeforeInOrder(order, 0, other);
    }
  }

  /** The lowest of the first `n` factors of the walk, or None once a comparison failed. */
  function LowestUpTo(factors: map<string, Ratio>, order: seq<string>, n: nat): Option<Ratio>
    requires 0 < n <= |order| && forall id :: id in order ==> id in factors
  {
    if n == 1 then Some(factors[order[0]]) else
    var lowest := LowestUpTo(factors, order, n - 1);
    if lowest.None? then None else
    var c := CheckedCompare(factors[order[n - 1]], lowest.value);
    if c.Err? then None else if c.value.Less? then Some(factors[order[n - 1]]) else lowest
  }

  ghost predicate IsLowestOf(factors: map<string, Ratio>, order: seq<string>, n: nat, m: Ratio)
    requires n <= |order| && forall id :: id in order ==> id in factors
  {
    && (exists j :: 0 <= j < n && factors[order[j]] == m)
    && forall j :: 0 <= j < n ==> Value(m) <= Value(factors[order[j]])
  }

  lemma {:induction false} LowestUpToIsLowest(factors: map<string, Ratio>, order: seq<string>, n: nat)
    requires 0 < n <= |order| && forall id :: id in order ==> id in factors
    ensures var m := LowestUpTo(factors, order, n); m.Some? ==> IsLowestOf(factors, order, n, m.value)
  {
    if n > 1 {
      LowestUpToIsLowest(factors, order, n - 1);
      var m := LowestUpTo(factors, order, n);
      if m.Some? { assert factors[order[n - 1]] == m.value || m == LowestUpTo(factors, order, n - 1); }
    } else {
      assert factors[order[0]] == LowestUpTo(factors, order, n).value;
    }
  }

  lemma LowestOfIsBefore(factors: map<string, Ratio>, order: seq<string>, n: nat, m: Ratio)
    requires 0 < n < |order| && Ascending(order) && forall id :: id in order <==> id in factors
    ensures IsLowestOf(factors, order, n, m) <==> IsLowestBefore(factors, order[n], m)
  {
    if IsLowestOf(factors, order, n, m) {
      var j :| 0 <= j < n && factors[order[j]] == m;
      assert order[j] in order && Before(order[j], order[n]);
      forall other | other in factors && Before(other, order[n]) ensures Value(m) <= Value(factors[other]) {
        BeforeInOrder(order, n, other);
      }
    }
    if IsLowestBefore(factors, order[n], m) {
      var other :| other in factors && Before(other, order[n]) && factors[other] == m;
      BeforeInOrder(order, n, other);
      forall j | 0 <= j < n ensures Value(m) <= Value(factors[order[j]]) {
        assert order[j] in order && Before(order[j], order[n]);
      }
    }
  }

  lemma LowestOfIsUnique(factors: map<string, Ratio>, order: seq<string>, n: nat, m: Ratio, m': Ratio)
    requires n <= |order| && forall id :: id in order ==> id in factors
    requires IsLowestOf(factors, order, n, m) && IsLowestOf(factors, order, n, m')
    ensures m == m'
  {
    LowestTermsAreUnique(m, m');
  }

  /** Whether the comparison at place `n` of the walk fails. */
  lemma ClashAtIff(factors: map<string, Ratio>, order: seq<string>, n: nat)
    requires 0 < n < |order| && Ascending(order) && forall id :: id in order <==> id in factors
    requires LowestUpTo(factors, order, n).Some?
    ensures order[n] in factors
    ensures LowestUpTo(factors, order, n + 1).None? <==> exists m :: ClashesAt(factors, order[n], m)
  {
    assert order[n] in order;
    LowestUpToIsLowest(factors, order, n);
    var lowest := LowestUpTo(factors, order, n).value;
    LowestOfIsBefore(factors, order, n, lowest);
    forall m | ClashesAt(factors, order[n], m) ensures m == lowest {
      LowestOfIsBefore(factors, order, n, m);
      LowestOfIsUnique(factors, order, n, m, lowest);
    }
    if LowestUpTo(factors, order, n + 1).None? { assert ClashesAt(factors, order[n], lowest); }
  }

  ghost predicate ClashesUpTo(factors: map<string, Ratio>, order: seq<string>, n: nat)
    requires n <= |order| && forall id :: id in order <==> id in factors
  {
    exists j, m :: 0 <= j < n && order[j] in factors && ClashesAt(factors, order[j], m)
  }

  lemma {:induction false} WalkFailsIff(factors: map<string, Ratio>, order: seq<string>, n: nat)
    requires 0 < n <= |order| && Ascending(order) && forall id :: id in order <==> id in factors
    ensures LowestUpTo(factors, order, n).None? <==> ClashesUpTo(factors, order, n)
  {
    if n == 1 {
      NothingBeforeFirst(factors, order);
    } else {
      WalkFailsIff(factors, order, n - 1);
      if LowestUpTo(factors, order, n - 1).Some? {
        ClashAtIff(factors, order, n - 1);
      } else {
        var j, m :| 0 <= j < n - 1 && order[j] in factors && ClashesAt(factors, order[j], m);
        assert ClashesUpTo(factors, order, n);
      }
    }
  }

  lemma AllClashes(factors: map<string, Ratio>, order: seq<string>)
    requires forall id :: id in order <==> id in factors
    ensures ClashesUpTo(factors, order, |order|) <==> FactorsClash(factors)
  {
    if FactorsClash(factors) {
      var id, m :| id in factors && ClashesAt(factors, id, m);
      var j :| 0 <= j < |order| && order[j] == id;
      assert ClashesAt(factors, order[j], m);
    }
  }

  /** `lowest_factor`. */
  method LowestFactor(factors: map<string, Ratio>) returns (r: Result<Option<seq<string>>, RatioError>)
    ensures r.Ok? ==> if factors == map[] then r.value.None? else r.value.Some? && AreLowest(factors, r.value.value)
    ensures r.Err? <==> FactorsClash(factors)
  {
    var order := InOrder(factors.Keys);
    AllClashes(factors, order);
    if |order| == 0 { return Ok(None); }
    WalkFailsIff(factors, order, |order|);
    var walked := WalkFactors(factors, order);
    if walked.Err? { return Err(walked.error); }
    LowestOfAll(factors, order, walked.value.0, walked.value.1);
    r := Ok(Some(walked.value.1));
  }

  lemma {:induction false} WalkStaysFailed(factors: map<string, Ratio>, order: seq<string>, n: nat)
    requires 0 < n <= |order| && (forall id :: id in order ==> id in factors) && LowestUpTo(factors, order, n).None?
    ensures LowestUpTo(factors, order, |order|).None?
    decreases |order| - n
  {
    if n < |order| { WalkStaysFailed(factors, order, n + 1); }
  }

  method WalkFactors(factors: map<string, Ratio>, order: seq<string>)
    returns (r: Result<(Ratio, seq<string>), RatioError>)
    requires |order| > 0 && Ascending(order) && forall id :: id in order ==> id in factors
    ensures r.Ok? ==> LowestSoFar(factors, order, |order|, r.value.0, r.value.1)
    ensures r.Err? <==> LowestUpTo(factors, order, |order|).None?
  {
    var lowest, ids := factors[order[0]], [order[0]];
    LowerOneMore(factors, order, 0, lowest, ids);
    for i := 1 to |order|
      invariant LowestSoFar(factors, order, i, lowest, ids)
      invariant LowestUpTo(factors, order, i) == Some(lowest)
    {
      assert order[i] in factors;
      var factor := factors[order[i]];
      var c := CheckedCompare(factor, lowest);
      if c.Err? {
        WalkStaysFailed(factors, order, i + 1);
        return Err(c.error);
      }
      match c.value
      case Less =>
        LowerOneMore(factors, order, i, lowest, ids);
        lowest, ids := factor, [order[i]];
      case Equal =>
        TiedOneMore(factors, order, i, lowest, ids);
        ids := ids + [order[i]];
      case Greater =>
        HigherOneMore(factors, order, i, lowest, ids);
    }
    r := Ok((lowest, ids));
  }

  /** Smaller rank first, then smaller id. */
  ghost predicate DrawnBefore(ranks: map<string, nat>, a: string, b: string)
    requires a in ranks && b in ranks
  {
    ranks[a] < ranks[b] || (ranks[a] == ranks[b] && Before(a, b))
  }

  ghost predicate WinsDraw(ranks: map<string, nat>, tied: seq<string>, winner: string) {
    && winner in tied && (forall id :: id in tied ==> id in ranks)
    && forall id :: id in tied && id != winner ==> DrawnBefore(ranks, winner, id)
  }

  /** `resolve_tie`. */
  method ResolveTie(tied: seq<string>, ranks: map<string, nat>) returns (r: Result<string, ChallengeError>)
    ensures r.Ok? <==> tied != [] && forall id :: id in tied ==> id in ranks
    ensures r.Ok? ==> WinsDraw(ranks, tied, r.value)
    ensures r.Err? ==> r.error.MissingDrawRank?
  {
    var best: Option<string> := None;
    for i := 0 to |tied|
      invariant best.None? <==> i == 0
      invariant best.Some? ==> best.value in tied && best.value in ranks
      invariant forall j :: 0 <= j < i ==>
        tied[j] in ranks && (tied[j] == best.value || DrawnBefore(ranks, best.value, tied[j]))
    {
      var id := tied[i];
      if id !in ranks { return Err(MissingDrawRank(id)); }
      if best.Some? { Trichotomy(id, best.value); }
      if best.None? || ranks[id] < ranks[best.value]
         || (ranks[id] == ranks[best.value] && Before(id, best.value)) {
        forall j | 0 <= j < i && tied[j] != id ensures DrawnBefore(ranks, id, tied[j]) {
          if tied[j] != best.value && ranks[id] == ranks[best.value] == ranks[tied[j]] {
            Transitive(id, best.value, tied[j]);
          }
        }
        best := Some(id);
      }
    }
    if best.None? { return Err(MissingDrawRank("")); }
    r := Ok(best.value);
  }

  lemma WinnerIsUnique(ranks: map<string, nat>, tied: seq<string>, tied': seq<string>, a: string, b: string)
    requires WinsDraw(ranks, tied, a) && WinsDraw(ranks, tied', b)
    requires forall id :: id in tied <==> id in tied'
    ensures a == b
  {
    if a != b { Trichotomy(a, b); }
  }

  // -- the selection ---------------------------------------------------------------

  ghost predicate IsFirstUnsourced(tracks: seq<string>, sourced: seq<string>, t: string) {
    exists k :: 0 <= k < |tracks| && tracks[k] == t && t !in sourced && forall j :: 0 <= j < k ==> tracks[j] in sourced
  }

  method FindUnsourced(tracks: seq<string>, sourced: seq<string>) returns (r: Option<string>)
    ensures r.None? <==> forall t :: t in tracks ==> t in sourced
    ensures r.Some? ==> IsFirstUnsourced(tracks, sourced, r.value)
  {
    for k := 0 to |tracks|
      invariant forall j :: 0 <= j < k ==> tracks[j] in sourced
    {
      if tracks[k] !in sourced {
        assert tracks[k] in tracks;
        return Some(tracks[k]);
      }
    }
    r := None;
  }

  ghost function ConsideredIds(offered: OfferedCompute, challenges: seq<Challenge>): seq<string> {
    if challenges == [] then []
    else
      var last := challenges[|challenges| - 1];
      ConsideredIds(offered, challenges[..|challenges| - 1]) + if IsConsidered(offered, last) then [last.id] else []
  }

  lemma {:induction false} ConsideredMembers(offered: OfferedCompute, challenges: seq<Challenge>, id: string)
    ensures id in ConsideredIds(offered, challenges) <==>
      exists k :: 0 <= k < |challenges| && challenges[k].id == id && IsConsidered(offered, challenges[k])
  {
    if challenges != [] {
      var n := |challenges| - 1;
      var front := challenges[..n];
      ConsideredMembers(offered, front, id);
      if id in ConsideredIds(offered, front) {
        var k :| 0 <= k < n && front[k].id == id && IsConsidered(offered, front[k]);
        assert challenges[k] == front[k];
      }
      if k :| 0 <= k < |challenges| && challenges[k].id == id && IsConsidered(offered, challenges[k]) {
        if k < n { assert front[k] == challenges[k]; }
      }
    }
  }

  /** Every considered challenge comes before every later considered one in id order. */
  ghost predicate ListedInOrder(offered: OfferedCompute, challenges: seq<Challenge>) {
    forall i, j :: 0 <= i < j < |challenges| && IsConsidered(offered, challenges[i])
      && IsConsidered(offered, challenges[j])
      ==> Before(challenges[i].id, challenges[j].id)
  }

  lemma AscendingOneMore(s: seq<string>, x: string)
    ensures Ascending(s + [x]) <==> Ascending(s) && forall y :: y in s ==> Before(y, x)
  {
    var t := s + [x];
    if Ascending(t) {
      forall i, j | 0 <= i < j < |s| ensures Before(s[i], s[j]) { assert t[i] == s[i] && t[j] == s[j]; }
      forall y | y in s ensures Before(y, x) {
        var i :| 0 <= i < |s| && s[i] == y;
        assert t[i] == y && t[|s|] == x;
      }
    }
    if Ascending(s) && forall y :: y in s ==> Before(y, x) {
      forall i, j | 0 <= i < j < |t| ensures Before(t[i], t[j]) {
        if j < |s| { assert t[i] == s[i] && t[j] == s[j]; } else { assert s[i] in s; }
      }
    }
  }

  /** The considered ids come out in id order exactly when the considered challenges went in that way. */
  lemma {:induction false} ConsideredInOrderIff(offered: OfferedCompute, challenges: seq<Challenge>)
    ensures Ascending(ConsideredIds(offered, challenges)) <==> ListedInOrder(offered, challenges)
  {
    if challenges != [] {
      var n := |challenges| - 1;
      var front, last := challenges[..n], challenges[n];
      ConsideredInOrderIff(offered, front);
      assert ListedInOrder(offered, challenges) ==> ListedInOrder(offered, front);
      if IsConsidered(offered, last) {
        AscendingOneMore(ConsideredIds(offered, front), last.id);
        if ListedInOrder(offered, challenges) {
          forall id | id in ConsideredIds(offered, front) ensures Before(id, last.id) {
            ConsideredMembers(offered, front, id);
            var k :| 0 <= k < n && front[k].id == id && IsConsidered(offered, front[k]);
            assert challenges[k] == front[k];
          }
        }
        if Ascending(ConsideredIds(offered, challenges)) { LastComesLast(offered, challenges, front, last); }
      } else {
        assert ConsideredIds(offered, challenges) == ConsideredIds(offered, front);
        LastIsUnheard(offered, challenges);
      }
    }
  }

  lemma LastComesLast(offered: OfferedCompute, challenges: seq<Challenge>, front: seq<Challenge>, last: Challenge)
    requires challenges == front + [last] && ListedInOrder(offered, front)
    requires forall id :: id in ConsideredIds(offered, front) ==> Before(id, last.id)
    ensures ListedInOrder(offered, challenges)
  {
    forall i, j | 0 <= i < j < |challenges| && IsConsidered(offered, challenges[i])
      && IsConsidered(offered, challenges[j])
      ensures Before(challenges[i].id, challenges[j].id)
    {
      assert challenges[i] == front[i];
      if j < |front| { assert challenges[j] == front[j]; } else { ConsideredMembers(offered, front, front[i].id); }
    }
  }

  lemma LastIsUnheard(offered: OfferedCompute, challenges: seq<Challenge>)
    requires challenges != [] && !IsConsidered(offered, challenges[|challenges| - 1])
    ensures ListedInOrder(offered, challenges[..|challenges| - 1]) <==> ListedInOrder(offered, challenges)
  {
    var n := |challenges| - 1;
    var front := challenges[..n];
    if ListedInOrder(offered, front) {
      forall i, j | 0 <= i < j <= n && IsConsidered(offered, challenges[i]) && IsConsidered(offered, challenges[j])
        ensures Before(challenges[i].id, challenges[j].id)
      {
        assert challenges[i] == front[i] && challenges[j] == front[j];
      }
    }
  }

  /** Two challenges listed as "b", "a" and tied on nothing: the selection reports them in that order. */
  lemma ConsideredCanBeUnsorted() returns (input: Input, s: Selection)
    ensures IsSelectionOf(input, s) && DistinctIds(input.challenges)
    ensures s.considered == ["b", "a"] && !Ascending(s.considered)
  {
    var b, a := Challenge("b", CpuChallenge, [], map[], []), Challenge("a", CpuChallenge, [], map[], []);
    input := Input(Cpu(1), [b, a], map[], [], map[], map["a" := 0, "b" := 1]);
    var zeros: map<string, Ratio> := map["a" := ZERO, "b" := ZERO];
    s := Selection(["b", "a"], map[], zeros, zeros, Some(["a", "b"]), Some("a"));
    OneLetterOrder();
    TwoConsidered(input.offered, b, a);
    assert s.considered[0] == "b" && s.considered[1] == "a";
    ZeroValue(ZERO);
    BothLowest(zeros);
    assert IsOutcome(s, input.drawRanks, ["a", "b"]);
  }

  lemma OneLetterOrder()
    ensures "a" != "b" && Before("a", "b") && !Before("b", "a")
  {
    assert "a"[0] == 'a' && "b"[0] == 'b';
  }

  lemma TwoConsidered(offered: OfferedCompute, first: Challenge, second: Challenge)
    requires IsConsidered(offered, first) && IsConsidered(offered, second)
    ensures ConsideredIds(offered, [first, second]) == [first.id, second.id]
  {
    assert [first, second][..1] == [first] && [first][..0] == [];
    assert ConsideredIds(offered, [first]) == [first.id];
  }

  lemma BothLowest(zeros: map<string, Ratio>)
    requires zeros == map["a" := ZERO, "b" := ZERO]
    ensures AreLowest(zeros, ["a", "b"])
  {
    OneLetterOrder();
    assert ["a", "b"][0] == "a" && ["a", "b"][1] == "b";
  }

  /**
   * What a selection says of an input: the considered challenges, the exact
   * factor of each, the ids tied on the true minimum, and the draw's winner.
   */
  ghost predicate IsSelectionOf(input: Input, s: Selection) {
    && s.considered == ConsideredIds(input.offered, input.challenges)
    && (forall id :: id in s.projectedFactor <==> id in s.considered)
    && s.expectedAddition.Keys == s.projectedFactor.Keys
    && (forall c :: c in input.challenges && IsConsidered(input.offered, c) ==>
          HasFactor(input, c, s.expectedAddition, s.projectedFactor))
    && (s.considered == [] ==> s.selected.None? && s.tieCandidates.None?)
    && (s.considered != [] ==> s.selected.Some? && exists lowest :: IsOutcome(s, input.drawRanks, lowest))
  }

  ghost predicate IsOutcome(s: Selection, ranks: map<string, nat>, lowest: seq<string>) {
    && s.selected.Some? && AreLowest(s.projectedFactor, lowest)
    && if |lowest| == 1 then s.tieCandidates.None? && s.selected.value == lowest[0]
       else s.tieCandidates == Some(lowest) && WinsDraw(ranks, lowest, s.selected.value)
  }

  // The challenges the factor loop has covered after `n` of them.
  ghost predicate KeysUpTo(input: Input, n: nat, additions: map<string, Ratio>, factors: map<string, Ratio>)
    requires n <= |input.challenges|
  {
    && additions.Keys == factors.Keys
    && forall id :: id in factors <==> id in ConsideredIds(input.offered, input.challenges[..n])
  }

  ghost predicate HasFactor(input: Input, c: Challenge, additions: map<string, Ratio>, factors: map<string, Ratio>) {
    && c.id in factors && c.id in additions
    && Value(factors[c.id]) == FactorOf(input, c)
    && Value(additions[c.id]) == ExpectedAddition(input.stats, input.inFlight, c.id)
  }

  // What it has computed for them.
  ghost predicate FactorsUpTo(input: Input, n: nat, additions: map<string, Ratio>, factors: map<string, Ratio>)
    requires n <= |input.challenges|
  {
    forall k :: 0 <= k < n && IsConsidered(input.offered, input.challenges[k]) ==>
      HasFactor(input, input.challenges[k], additions, factors)
  }

  lemma FactorOneMore(input: Input, n: nat, additions: map<string, Ratio>, factors: map<string, Ratio>, addition: Ratio,
                      factor: Ratio)
    requires n < |input.challenges| && DistinctIds(input.challenges)
    requires FactorsUpTo(input, n, additions, factors)
    requires Value(addition) == ExpectedAddition(input.stats, input.inFlight, input.challenges[n].id)
    requires Value(factor) == FactorOf(input, input.challenges[n])
    ensures FactorsUpTo(input, n + 1, additions[input.challenges[n].id := addition],
      factors[input.challenges[n].id := factor])
  {
    var id := input.challenges[n].id;
    forall k | 0 <= k < n + 1 && IsConsidered(input.offered, input.challenges[k])
      ensures HasFactor(input, input.challenges[k], additions[id := addition], factors[id := factor])
    {
      if k < n { assert HasFactor(input, input.challenges[k], additions, factors); }
    }
  }

  lemma FactorFits(input: Input, c: Challenge, addition: Ratio)
    requires Value(addition) == ExpectedAddition(input.stats, input.inFlight, c.id)
    requires !FactorOverflows(Total(c.networkQualifiers, c.activeTracks),
      Total(PoolCounts(input, c.id), c.activeTracks), addition)
    ensures forall other :: !FactorOverflowsIn(input, c, other)
  {
    forall other ensures !FactorOverflowsIn(input, c, other) {
      LowestTermsAreUnique(other, addition);
    }
  }

  ghost predicate SomeFactorOverflows(input: Input) {
    exists c, addition :: c in input.challenges && IsConsidered(input.offered, c)
      && FactorOverflowsIn(input, c, addition)
  }

  lemma NoneOverflows(input: Input)
    requires forall k, other :: 0 <= k < |input.challenges| && IsConsidered(input.offered, input.challenges[k]) ==>
      !FactorOverflowsIn(input, input.challenges[k], other)
    ensures !SomeFactorOverflows(input)
  {
  }

  /** None of the first `n` considered challenges has a factor that does not fit. */
  ghost predicate FactorsFit(input: Input, projection: map<string, Ratio>, n: nat)
    requires n <= |input.challenges|
  {
    n == 0 || (
      && FactorsFit(input, projection, n - 1)
      && (IsConsidered(input.offered, input.challenges[n - 1]) ==>
           FactorFitsAt(input, projection, input.challenges[n - 1])))
  }

  ghost predicate FactorFitsAt(input: Input, projection: map<string, Ratio>, c: Challenge) {
    !FactorOverflows(Total(c.networkQualifiers, c.activeTracks), Total(PoolCounts(input, c.id), c.activeTracks),
                     AdditionOf(projection, c.id))
  }

  lemma {:induction false} FitsAt(input: Input, projection: map<string, Ratio>, n: nat, k: nat)
    requires k < n <= |input.challenges| && FactorsFit(input, projection, n)
    requires IsConsidered(input.offered, input.challenges[k])
    ensures FactorFitsAt(input, projection, input.challenges[k])
  {
    if k < n - 1 { FitsAt(input, projection, n - 1, k); }
  }

  lemma FittingFactor(input: Input, projection: map<string, Ratio>, n: nat, k: nat, other: Ratio)
    requires forall c: string :: Value(AdditionOf(projection, c)) == ExpectedAddition(input.stats, input.inFlight, c)
    requires k < n <= |input.challenges| && FactorsFit(input, projection, n)
    requires IsConsidered(input.offered, input.challenges[k])
    ensures !FactorOverflowsIn(input, input.challenges[k], other)
  {
    FitsAt(input, projection, n, k);
    FactorFits(input, input.challenges[k], AdditionOf(projection, input.challenges[k].id));
  }

  method FactorAt(input: Input, projection: map<string, Ratio>, c: Challenge) returns (r: Result<Ratio, RatioError>)
    requires forall id: string :: Value(AdditionOf(projection, id)) == ExpectedAddition(input.stats, input.inFlight, id)
    ensures r.Ok? <==> FactorFitsAt(input, projection, c)
    ensures r.Err? ==> FactorOverflowsIn(input, c, AdditionOf(projection, c.id))
    ensures r.Ok? ==> Value(r.value) == FactorOf(input, c)
  {
    r := ProjectedFactor(c, PoolCounts(input, c.id), AdditionOf(projection, c.id));
  }

  method Factors(input: Input, projection: map<string, Ratio>)
    returns (r: Result<(map<string, Ratio>, map<string, Ratio>), RatioError>)
    requires forall c: string :: Value(AdditionOf(projection, c)) == ExpectedAddition(input.stats, input.inFlight, c)
    ensures r.Ok? ==> KeysUpTo(input, |input.challenges|, r.value.0, r.value.1)
    ensures r.Ok? && DistinctIds(input.challenges) ==> FactorsUpTo(input, |input.challenges|, r.value.0, r.value.1)
    ensures r.Err? <==> SomeFactorOverflows(input)
  {
    r := WalkChallenges(input, projection);
    if r.Ok? {
      forall k, other | 0 <= k < |input.challenges| && IsConsidered(input.offered, input.challenges[k])
        ensures !FactorOverflowsIn(input, input.challenges[k], other)
      {
        FittingFactor(input, projection, |input.challenges|, k, other);
      }
      NoneOverflows(input);
    }
  }

  ghost predicate WalkedUpTo(input: Input, projection: map<string, Ratio>, n: nat,
                             additions: map<string, Ratio>, factors: map<string, Ratio>)
    requires n <= |input.challenges|
  {
    && KeysUpTo(input, n, additions, factors)
    && (DistinctIds(input.challenges) ==> FactorsUpTo(input, n, additions, factors))
    && FactorsFit(input, projection, n)
  }

  method WalkChallenges(input: Input, projection: map<string, Ratio>)
    returns (r: Result<(map<string, Ratio>, map<string, Ratio>), RatioError>)
    requires forall c: string :: Value(AdditionOf(projection, c)) == ExpectedAddition(input.stats, input.inFlight, c)
    ensures r.Ok? ==> WalkedUpTo(input, projection, |input.challenges|, r.value.0, r.value.1)
    ensures r.Err? ==> SomeFactorOverflows(input)
  {
    var additions: map<string, Ratio>, factors: map<string, Ratio> := map[], map[];
    for n := 0 to |input.challenges|
      invariant WalkedUpTo(input, projection, n, additions, factors)
    {
      var next := WalkOne(input, projection, n, additions, factors);
      if next.Err? { return next; }
      additions, factors := next.value.0, next.value.1;
    }
    r := Ok((additions, factors));
  }

  method WalkOne(input: Input, projection: map<string, Ratio>, n: nat,
                 additions: map<string, Ratio>, factors: map<string, Ratio>)
    returns (r: Result<(map<string, Ratio>, map<string, Ratio>), RatioError>)
    requires forall c: string :: Value(AdditionOf(projection, c)) == ExpectedAddition(input.stats, input.inFlight, c)
    requires n < |input.challenges| && WalkedUpTo(input, projection, n, additions, factors)
    ensures r.Ok? ==> WalkedUpTo(input, projection, n + 1, r.value.0, r.value.1)
    ensures r.Err? ==> SomeFactorOverflows(input)
  {
    var c := input.challenges[n];
    var excluded := ReasonFor(input.offered, c);
    if excluded.Some? {
      WalkedPast(input, projection, n, additions, factors);
      return Ok((additions, factors));
    }
    var addition := AdditionOf(projection, c.id);
    var factor := FactorAt(input, projection, c);
    if factor.Err? {
      SomeOverflows(input, c, addition);
      return Err(factor.error);
    }
    WalkedOneMore(input, projection, n, additions, factors, addition, factor.value);
    r := Ok((additions[c.id := addition], factors[c.id := factor.value]));
  }

  lemma WalkedPast(input: Input, projection: map<string, Ratio>, n: nat, additions: map<string, Ratio>,
                   factors: map<string, Ratio>)
    requires n < |input.challenges| && WalkedUpTo(input, projection, n, additions, factors)
    requires !IsConsidered(input.offered, input.challenges[n])
    ensures WalkedUpTo(input, projection, n + 1, additions, factors)
  {
    assert input.challenges[..n + 1][..n] == input.challenges[..n];
  }

  lemma KeysOneMore(input: Input, n: nat, additions: map<string, Ratio>, factors: map<string, Ratio>, x: Ratio,
                    y: Ratio)
    requires n < |input.challenges| && KeysUpTo(input, n, additions, factors)
    requires IsConsidered(input.offered, input.challenges[n])
    ensures KeysUpTo(input, n + 1, additions[input.challenges[n].id := x], factors[input.challenges[n].id := y])
  {
    assert input.challenges[..n + 1][..n] == input.challenges[..n];
  }

  lemma WalkedOneMore(input: Input, projection: map<string, Ratio>, n: nat,
                      additions: map<string, Ratio>, factors: map<string, Ratio>, addition: Ratio, factor: Ratio)
    requires n < |input.challenges| && WalkedUpTo(input, projection, n, additions, factors)
    requires IsConsidered(input.offered, input.challenges[n]) && FactorFitsAt(input, projection, input.challenges[n])
    requires Value(addition) == ExpectedAddition(input.stats, input.inFlight, input.challenges[n].id)
    requires Value(factor) == FactorOf(input, input.challenges[n])
    ensures WalkedUpTo(input, projection, n + 1,
      additions[input.challenges[n].id := addition], factors[input.challenges[n].id := factor])
  {
    KeysOneMore(input, n, additions, factors, addition, factor);
    if DistinctIds(input.challenges) { FactorOneMore(input, n, additions, factors, addition, factor); }
  }

  lemma SomeOverflows(input: Input, c: Challenge, addition: Ratio)
    requires c in input.challenges && IsConsidered(input.offered, c) && FactorOverflowsIn(input, c, addition)
    ensures SomeFactorOverflows(input)
  {
  }

  ghost predicate FactorOverflowsIn(input: Input, c: Challenge, addition: Ratio) {
    && Value(addition) == ExpectedAddition(input.stats, input.inFlight, c.id)
    && FactorOverflows(Total(c.networkQualifiers, c.activeTracks), Total(PoolCounts(input, c.id), c.activeTracks),
                       addition)
  }

  /** The exact factors of the considered challenges, in lowest terms. */
  ghost predicate AreFactors(input: Input, additions: map<string, Ratio>, factors: map<string, Ratio>) {
    KeysUpTo(input, |input.challenges|, additions, factors)
      && FactorsUpTo(input, |input.challenges|, additions, factors)
  }

  /** The three places where the selection's arithmetic can overflow. */
  ghost predicate ArithmeticOverflows(input: Input) {
    || ProjectionOverflows(input.stats, input.inFlight)
    || SomeFactorOverflows(input)
    || (exists additions, factors :: AreFactors(input, additions, factors) && FactorsClash(factors))
  }

  lemma FactorsAreUnique(input: Input, additions: map<string, Ratio>, factors: map<string, Ratio>,
                         additions': map<string, Ratio>, factors': map<string, Ratio>)
    requires AreFactors(input, additions, factors) && AreFactors(input, additions', factors')
    ensures factors == factors'
  {
    assert input.challenges[..|input.challenges|] == input.challenges;
    forall id | id in factors ensures factors[id] == factors'[id] {
      ConsideredMembers(input.offered, input.challenges, id);
      var i :| 0 <= i < |input.challenges| && input.challenges[i].id == id
        && IsConsidered(input.offered, input.challenges[i]);
      assert HasFactor(input, input.challenges[i], additions, factors);
      assert HasFactor(input, input.challenges[i], additions', factors');
      LowestTermsAreUnique(factors[id], factors'[id]);
    }
  }

  /** Why each challenge that is not considered is left out. */
  ghost predicate ExclusionsAreRight(input: Input, n: nat, excluded: map<string, Excluded>)
    requires n <= |input.challenges|
  {
    && (forall k :: 0 <= k < n && !IsConsidered(input.offered, input.challenges[k]) ==>
          input.challenges[k].id in excluded
            && IsReason(input.offered, input.challenges[k], excluded[input.challenges[k].id]))
    && (forall id :: id in excluded ==>
          exists k :: 0 <= k < n && input.challenges[k].id == id && !IsConsidered(input.offered, input.challenges[k]))
  }

  ghost predicate IsReason(offered: OfferedCompute, c: Challenge, reason: Excluded) {
    match reason
    case IncompatibleComputeType => offered.Cpu? != c.computeType.CpuChallenge?
    case TrackWithoutSource(t) =>
      offered.Cpu? == c.computeType.CpuChallenge? && IsFirstUnsourced(c.activeTracks, c.tracksWithSource, t)
  }

  lemma OverflowsIffClash(input: Input, additions: map<string, Ratio>, factors: map<string, Ratio>)
    requires !ProjectionOverflows(input.stats, input.inFlight) && !SomeFactorOverflows(input)
    requires AreFactors(input, additions, factors)
    ensures ArithmeticOverflows(input) <==> FactorsClash(factors)
  {
    if additions', factors' :| AreFactors(input, additions', factors') && FactorsClash(factors') {
      FactorsAreUnique(input, additions, factors, additions', factors');
    }
  }

  /** Why a challenge is left out, the compute type first; None when it is considered. */
  method ReasonFor(offered: OfferedCompute, c: Challenge) returns (r: Option<Excluded>)
    ensures r.None? <==> IsConsidered(offered, c)
    ensures r.Some? ==> IsReason(offered, c, r.value)
  {
    if !MatchesChallenge(offered, c.computeType) { return Some(IncompatibleComputeType); }
    var unsourced := FindUnsourced(c.activeTracks, c.tracksWithSource);
    r := if unsourced.Some? then Some(TrackWithoutSource(unsourced.value)) else None;
  }

  lemma ExclusionOneMore(input: Input, n: nat, excluded: map<string, Excluded>, reason: Option<Excluded>)
    requires n < |input.challenges| && DistinctIds(input.challenges) && ExclusionsAreRight(input, n, excluded)
    requires reason.None? <==> IsConsidered(input.offered, input.challenges[n])
    requires reason.Some? ==> IsReason(input.offered, input.challenges[n], reason.value)
    ensures reason.None? ==> ExclusionsAreRight(input, n + 1, excluded)
    ensures reason.Some? ==> ExclusionsAreRight(input, n + 1, excluded[input.challenges[n].id := reason.value])
  {
    if reason.Some? {
      var more := excluded[input.challenges[n].id := reason.value];
      forall id | id in more
        ensures exists k ::
          0 <= k < n + 1 && input.challenges[k].id == id && !IsConsidered(input.offered, input.challenges[k])
      {
        if id != input.challenges[n].id {
          var k :| 0 <= k < n && input.challenges[k].id == id && !IsConsidered(input.offered, input.challenges[k]);
        }
      }
    }
  }

  method Sift(input: Input) returns (considered: seq<string>, excluded: map<string, Excluded>)
    ensures considered == ConsideredIds(input.offered, input.challenges)
    ensures DistinctIds(input.challenges) ==> ExclusionsAreRight(input, |input.challenges|, excluded)
  {
    excluded, considered := map[], [];
    for n := 0 to |input.challenges|
      invariant considered == ConsideredIds(input.offered, input.challenges[..n])
      invariant DistinctIds(input.challenges) ==> ExclusionsAreRight(input, n, excluded)
    {
      var c := input.challenges[n];
      assert input.challenges[..n + 1][..n] == input.challenges[..n];
      var reason := ReasonFor(input.offered, c);
      if DistinctIds(input.challenges) { ExclusionOneMore(input, n, excluded, reason); }
      if reason.Some? {
        excluded := excluded[c.id := reason.value];
      } else {
        considered := considered + [c.id];
      }
    }
    assert input.challenges[..|input.challenges|] == input.challenges;
  }

  /** `select_challenge`. */
  method SelectChallenge(input: Input) returns (r: Result<Selection, ChallengeError>)
    ensures r.Ok? && DistinctIds(input.challenges) ==> IsSelectionOf(input, r.value)
    ensures r.Ok? && DistinctIds(input.challenges) ==> ExclusionsAreRight(input, |input.challenges|, r.value.excluded)
    ensures DistinctIds(input.challenges) ==> (r.Err? && r.error.Arithmetic? <==> ArithmeticOverflows(input))
    ensures r.Err? && r.error.MissingDrawRank? ==>
      exists id :: id in ConsideredIds(input.offered, input.challenges) && id !in input.drawRanks
  {
    var considered, excluded := Sift(input);
    var projection := Project(input.stats, input.inFlight);
    if projection.Err? { return Err(Arithmetic(projection.error)); }
    var sums := Factors(input, projection.value);
    if sums.Err? { return Err(Arithmetic(sums.error)); }
    var (additions, factors) := sums.value;
    if DistinctIds(input.challenges) { OverflowsIffClash(input, additions, factors); }
    r := SelectFactors(input, considered, excluded, additions, factors);
  }

  // The selection from the factors.
  method SelectFactors(input: Input, considered: seq<string>, excluded: map<string, Excluded>,
                       additions: map<string, Ratio>, factors: map<string, Ratio>)
    returns (r: Result<Selection, ChallengeError>)
    requires considered == ConsideredIds(input.offered, input.challenges)
    requires KeysUpTo(input, |input.challenges|, additions, factors)
    requires DistinctIds(input.challenges) ==> FactorsUpTo(input, |input.challenges|, additions, factors)
    ensures r.Ok? && DistinctIds(input.challenges) ==> IsSelectionOf(input, r.value)
    ensures r.Ok? ==> r.value.excluded == excluded
    ensures r.Err? && r.error.Arithmetic? <==> FactorsClash(factors)
    ensures r.Err? && r.error.MissingDrawRank? ==>
      exists id :: id in ConsideredIds(input.offered, input.challenges) && id !in input.drawRanks
  {
    assert input.challenges[..|input.challenges|] == input.challenges;
    var lowest := LowestFactor(factors);
    if lowest.Err? { return Err(Arithmetic(lowest.error)); }
    if lowest.value.None? {
      if considered != [] { HeadIsMember(considered); }
      r := Ok(Selection(considered, excluded, additions, factors, None, None));
      if DistinctIds(input.challenges) { FactorsGiveSelection(input, r.value); }
      return;
    }
    var ids := lowest.value.value;
    var s;
    if |ids| == 1 {
      s := Selection(considered, excluded, additions, factors, None, Some(ids[0]));
    } else {
      var winner := ResolveTie(ids, input.drawRanks);
      if winner.Err? {
        assert exists id :: id in ids && id !in input.drawRanks;
        return Err(winner.error);
      }
      s := Selection(considered, excluded, additions, factors, Some(ids), Some(winner.value));
    }
    assert IsOutcome(s, input.drawRanks, ids);
    assert ids[0] in factors && ids[0] in considered;
    if DistinctIds(input.challenges) { FactorsGiveSelection(input, s); }
    r := Ok(s);
  }

  lemma FactorsGiveSelection(input: Input, s: Selection)
    requires FactorsUpTo(input, |input.challenges|, s.expectedAddition, s.projectedFactor)
    ensures forall c :: c in input.challenges && IsConsidered(input.offered, c) ==>
      HasFactor(input, c, s.expectedAddition, s.projectedFactor)
  {
    forall c | c in input.challenges && IsConsidered(input.offered, c)
      ensures HasFactor(input, c, s.expectedAddition, s.projectedFactor)
    {
      var k :| 0 <= k < |input.challenges| && input.challenges[k] == c;
    }
  }

  // -- consequences ------------------------------------------------------------------

  /** The winner's factor is the true minimum over every considered challenge. */
  lemma SelectedIsMinimal(input: Input, s: Selection, w: Challenge, c: Challenge)
    requires DistinctIds(input.challenges) && IsSelectionOf(input, s)
    requires w in input.challenges && IsConsidered(input.offered, w) && s.selected == Some(w.id)
    requires c in input.challenges && IsConsidered(input.offered, c)
    ensures FactorOf(input, w) <= FactorOf(input, c)
    ensures FactorOf(input, w) == FactorOf(input, c) && c.id != w.id ==>
      w.id in input.drawRanks && c.id in input.drawRanks && DrawnBefore(input.drawRanks, w.id, c.id)
  {
    assert HasFactor(input, w, s.expectedAddition, s.projectedFactor);
    assert HasFactor(input, c, s.expectedAddition, s.projectedFactor);
    var lowest :| IsOutcome(s, input.drawRanks, lowest);
    assert w.id in lowest;
  }

  lemma SelectedIsConsidered(input: Input, s: Selection)
    requires IsSelectionOf(input, s) && s.selected.Some?
    ensures s.selected.value in s.considered && s.selected.value in ConsideredIds(input.offered, input.challenges)
  {
    var lowest :| IsOutcome(s, input.drawRanks, lowest);
    assert s.selected.value in lowest;
  }

  lemma {:induction false} AdditionSplit(stats: Stats, a: seq<InFlightBenchmark>, b: seq<InFlightBenchmark>, id: string)
    ensures ExpectedAddition(stats, a + b, id) == ExpectedAddition(stats, a, id) + ExpectedAddition(stats, b, id)
  {
    if b == [] {
      assert a + b == a;
    } else {
      var n := |b| - 1;
      assert (a + b)[..|a + b| - 1] == a + b[..n];
      AdditionSplit(stats, a, b[..n], id);
    }
  }

  lemma AdditionWithout(stats: Stats, b: seq<InFlightBenchmark>, k: nat, id: string)
    requires k < |b|
    ensures ExpectedAddition(stats, b, id) ==
      ExpectedAddition(stats, b[..k] + b[k + 1..], id) + ExpectedFor(stats, b[k], id)
  {
    assert b == b[..k + 1] + b[k + 1..] && b[..k + 1][..k] == b[..k];
    AdditionSplit(stats, b[..k], b[k + 1..], id);
    AdditionSplit(stats, b[..k + 1], b[k + 1..], id);
  }

  lemma MultisetWithout<T>(b: seq<T>, k: nat)
    requires k < |b|
    ensures multiset(b[..k] + b[k + 1..]) == multiset(b) - multiset{b[k]}
  {
    assert b == b[..k] + [b[k]] + b[k + 1..];
  }

  /** The expected addition does not depend on the order of the in-flight list. */
  lemma {:induction false} AdditionIsOrderFree(stats: Stats, a: seq<InFlightBenchmark>, b: seq<InFlightBenchmark>,
                                               id: string)
    requires multiset(a) == multiset(b)
    ensures ExpectedAddition(stats, a, id) == ExpectedAddition(stats, b, id)
    decreases |a|
  {
    if a == [] {
      assert |multiset(b)| == 0;
    } else {
      var n := |a| - 1;
      assert a[n] in multiset(b);
      var k :| 0 <= k < |b| && b[k] == a[n];
      MultisetWithout(a, n);
      MultisetWithout(b, k);
      AdditionIsOrderFree(stats, a[..n] + a[n + 1..], b[..k] + b[k + 1..], id);
      AdditionWithout(stats, a, n, id);
      AdditionWithout(stats, b, k, id);
    }
  }

  /**
   * Reordering the challenges and the in-flight benchmarks changes neither the
   * additions, nor the factors, nor the tie, nor the winner.
   */
  lemma SelectionIsOrderFree(input: Input, input': Input, s: Selection, s': Selection)
    requires DistinctIds(input.challenges) && DistinctIds(input'.challenges)
    requires input' == input.(challenges := input'.challenges, inFlight := input'.inFlight)
    requires multiset(input.challenges) == multiset(input'.challenges)
    requires multiset(input.inFlight) == multiset(input'.inFlight)
    requires IsSelectionOf(input, s) && IsSelectionOf(input', s')
    ensures s.expectedAddition == s'.expectedAddition && s.projectedFactor == s'.projectedFactor
    ensures s.tieCandidates == s'.tieCandidates && s.selected == s'.selected
  {
    SameFactors(input, input', s, s');
    if s.considered != [] { HeadIsMember(s.considered); }
    if s'.considered != [] { HeadIsMember(s'.considered); }
    if s.considered != [] {
      var lowest :| IsOutcome(s, input.drawRanks, lowest);
      var lowest' :| IsOutcome(s', input.drawRanks, lowest');
      LowestIsUnique(s.projectedFactor, lowest, lowest');
      if |lowest| != 1 { WinnerIsUnique(input.drawRanks, lowest, lowest', s.selected.value, s'.selected.value); }
    }
  }

  lemma SameFactors(input: Input, input': Input, s: Selection, s': Selection)
    requires input' == input.(challenges := input'.challenges, inFlight := input'.inFlight)
    requires multiset(input.challenges) == multiset(input'.challenges)
    requires multiset(input.inFlight) == multiset(input'.inFlight)
    requires IsSelectionOf(input, s) && IsSelectionOf(input', s')
    ensures s.expectedAddition == s'.expectedAddition && s.projectedFactor == s'.projectedFactor
  {
    forall id | id in s.projectedFactor
      ensures id in s'.projectedFactor && s.projectedFactor[id] == s'.projectedFactor[id]
        && s.expectedAddition[id] == s'.expectedAddition[id]
    {
      var c := Shared(input, input', s, id);
      SameFactor(input, input', s, s', c);
    }
    forall id | id in s'.projectedFactor ensures id in s.projectedFactor {
      var c := Shared(input', input, s', id);
      assert HasFactor(input, c, s.expectedAddition, s.projectedFactor);
    }
  }

  // The challenge behind a factor, listed by both inputs.
  lemma Shared(input: Input, input': Input, s: Selection, id: string) returns (c: Challenge)
    requires IsSelectionOf(input, s) && id in s.projectedFactor
    requires multiset(input.challenges) == multiset(input'.challenges)
    ensures c.id == id && IsConsidered(input.offered, c) && c in input.challenges && c in input'.challenges
  {
    ConsideredMembers(input.offered, input.challenges, id);
    var k :| 0 <= k < |input.challenges| && input.challenges[k].id == id
      && IsConsidered(input.offered, input.challenges[k]);
    c := input.challenges[k];
    assert c in multiset(input'.challenges);
  }

  lemma SameFactor(input: Input, input': Input, s: Selection, s': Selection, c: Challenge)
    requires input' == input.(challenges := input'.challenges, inFlight := input'.inFlight)
    requires multiset(input.inFlight) == multiset(input'.inFlight)
    requires HasFactor(input, c, s.expectedAddition, s.projectedFactor)
    requires HasFactor(input', c, s'.expectedAddition, s'.projectedFactor)
    ensures s.projectedFactor[c.id] == s'.projectedFactor[c.id] && s.expectedAddition[c.id] == s'.expectedAddition[c.id]
  {
    AdditionIsOrderFree(input.stats, input.inFlight, input'.inFlight, c.id);
    LowestTermsAreUnique(s.projectedFactor[c.id], s'.projectedFactor[c.id]);
    LowestTermsAreUnique(s.expectedAddition[c.id], s'.expectedAddition[c.id]);
  }

  lemma LowestIsUnique(factors: map<string, Ratio>, a: seq<string>, b: seq<string>)
    requires AreLowest(factors, a) && AreLowest(factors, b)
    ensures a == b
  {
    assert a[0] in a && b[0] in b;
    forall id ensures id in a <==> id in b {
    }
    AscendingIsUnique(a, b);
  }
}
