/** `size_bundles`: how many bundles to propose on each track. */
module Bundles {
  import opened Wrappers
  import opened Numbers
  import opened Ids
  import opened Compute

  datatype TrackSizing = TrackSizing(noncesPerBundle: nat, bestOnTrack: bool)

  datatype Derivation = Derivation(gcdCoresNonces: nat, bundleMultiple: nat)

  datatype BundleSizing = BundleSizing(numBundles: map<string, nat>, derivation: map<string, Derivation>)

  datatype BundleSizingError = ZeroCores | Overflow(trackId: string)

  // -- the rule -----------------------------------------------------------

  ghost predicate Fills(cores: nat, nonces: nat, count: nat)
    requires cores > 0
  {
    count * nonces % cores == 0
  }

  /** The count wanted on an aligned track. */
  ghost predicate IsSmallestFilling(minimum: nat, cores: nat, nonces: nat, count: nat)
    requires cores > 0
  {
    count >= minimum && Fills(cores, nonces, count)
    && forall other: nat :: minimum <= other < count ==> !Fills(cores, nonces, other)
  }

  /** Only a CPU offer on a track its algorithm is best on is aligned to whole cores. */
  ghost predicate IsAligned(offer: OfferedCompute, track: TrackSizing) {
    offer.Cpu? && track.bestOnTrack
  }

  // -- the alignment ----------------------------------------------------------

  function CeilDiv(a: nat, b: nat): nat
    requires b > 0
  {
    a / b + if a % b > 0 then 1 else 0
  }

  lemma CeilDivIsLeast(a: nat, b: nat, k: nat)
    requires b > 0
    ensures a <= CeilDiv(a, b) * b < a + b
    ensures a <= k * b ==> CeilDiv(a, b) * b <= k * b
  {
    CeilDivBounds(a, b);
    if a <= k * b && k < CeilDiv(a, b) {
      MulMonotone(k, CeilDiv(a, b) - 1, b);
    }
  }

  lemma CeilDivBounds(a: nat, b: nat)
    requires b > 0
    ensures a <= CeilDiv(a, b) * b < a + b
    ensures CeilDiv(a, b) > 0 ==> (CeilDiv(a, b) - 1) * b == CeilDiv(a, b) * b - b
  {
    var q := a / b;
    assert a == b * q + a % b;
    assert (q + 1) * b == b * q + b;
    assert (CeilDiv(a, b) - 1) * b == CeilDiv(a, b) * b - b;
  }

  lemma MulMonotone(a: nat, b: nat, c: nat)
    requires a <= b
    ensures a * c <= b * c
  {
  }

  /** A count fills the cores exactly when it is a multiple of `cores / gcd(cores, nonces)`. */
  lemma FillsIffMultiple(cores: nat, nonces: nat, count: nat)
    requires cores > 0
    ensures Gcd(cores, nonces) > 0 && cores / Gcd(cores, nonces) > 0
    ensures Fills(cores, nonces, count) <==> Divides(cores / Gcd(cores, nonces), count)
  {
    var g := Gcd(cores, nonces);
    ReducedPair(cores, nonces);
    var m, k := cores / g, nonces / g;
    Regroup(count, g, k);
    CommonFactor(g, m, count * k);
    CoprimeProduct(m, k, count);
  }

  lemma Regroup(count: nat, g: nat, k: nat)
    ensures count * (g * k) == g * (count * k)
  {
  }

  lemma CoprimeProduct(m: nat, k: nat, count: nat)
    requires m > 0 && Coprime(k, m)
    ensures Divides(m, count * k) <==> Divides(m, count)
  {
    if Divides(m, count) {
      DividesCombination(m, count, 0, k, 0);
    }
    if Divides(m, k * count) {
      CoprimeCancels(k, m, count);
    }
  }

  lemma ReducedPair(cores: nat, nonces: nat)
    requires cores > 0
    ensures Gcd(cores, nonces) > 0
    ensures var g := Gcd(cores, nonces);
            cores == g * (cores / g) && nonces == g * (nonces / g) && cores / g > 0 && Coprime(nonces / g, cores / g)
  {
    var g := Gcd(cores, nonces);
    GcdDivides(cores, nonces);
    DivideExact(g, cores);
    DivideExact(g, nonces);
    var p, q := cores / g, nonces / g;
    var x, y := Bezout(cores, nonces);
    FactorOut(g, p, q, x, y);
    CancelFactor(g, p * x + q * y);
    CoprimeOfCombination(q, p, y, x);
  }

  // g*m divides g*n exactly when m divides n.
  lemma CommonFactor(g: nat, m: nat, n: nat)
    requires g > 0 && m > 0
    ensures g * m > 0 && (g * n % (g * m) == 0 <==> n % m == 0)
  {
    MulAtLeast(g, m);
    assert n == m * (n / m) + n % m;
    assert g * n == g * m * (n / m) + g * (n % m) by {
      assert g * (m * (n / m) + n % m) == g * (m * (n / m)) + g * (n % m);
      assert g * (m * (n / m)) == g * m * (n / m);
    }
    assert g * (n % m) < g * m by { MulAtLeast(g, m - n % m); assert g * (m - n % m) == g * m - g * (n % m); }
    DivModUnique(g * m, n / m, g * (n % m));
  }

  /** Rounding the minimum up to the multiple gives the smallest count that fills the cores. */
  lemma RoundedUpIsSmallest(minimum: nat, cores: nat, nonces: nat)
    requires cores > 0
    ensures Gcd(cores, nonces) > 0 && cores / Gcd(cores, nonces) > 0
    ensures var m := cores / Gcd(cores, nonces);
            IsSmallestFilling(minimum, cores, nonces, CeilDiv(minimum, m) * m)
  {
    FillsIffMultiple(cores, nonces, 0);
    var m := cores / Gcd(cores, nonces);
    var count: nat := RoundUp(minimum, m);
    FillsIffMultiple(cores, nonces, count);
    forall other: nat | minimum <= other < count ensures !Fills(cores, nonces, other) {
      FillsIffMultiple(cores, nonces, other);
      NoMultipleBetween(minimum, m, other);
    }
  }

  lemma RoundUp(minimum: nat, m: nat) returns (count: nat)
    requires m > 0
    ensures count == CeilDiv(minimum, m) * m && count >= minimum && Divides(m, count)
  {
    CeilDivIsLeast(minimum, m, 0);
    MultipleDivides(m, CeilDiv(minimum, m));
    count := CeilDiv(minimum, m) * m;
  }

  lemma NoMultipleBetween(minimum: nat, m: nat, other: nat)
    requires m > 0 && minimum <= other < CeilDiv(minimum, m) * m
    ensures !Divides(m, other)
  {
    if Divides(m, other) {
      DivideExact(m, other);
      CeilDivIsLeast(minimum, m, other / m);
    }
  }

  // -- the pass over the tracks -------------------------------------------------

  /** What a track's count must be; an aligned track with no cores has none. */
  ghost predicate IsSizeOf(offer: OfferedCompute, minimum: nat, track: TrackSizing, count: nat) {
    if IsAligned(offer, track)
    then offer.cores > 0 && IsSmallestFilling(minimum, offer.cores, track.noncesPerBundle, count)
    else count == minimum
  }

  /** Every track sized so far has its right count, and the count fits. */
  ghost predicate AllSized(offer: OfferedCompute, minimum: nat, tracks: map<string, TrackSizing>,
                           counts: map<string, nat>) {
    forall t :: t in counts ==>
      t in tracks && counts[t] <= U64_MAX && IsSizeOf(offer, minimum, tracks[t], counts[t])
  }

  /** No count that fits is right for a track. */
  ghost predicate CannotFit(offer: OfferedCompute, minimum: nat, track: TrackSizing) {
    forall count: nat :: IsSizeOf(offer, minimum, track, count) ==> count > U64_MAX
  }

  /** The recorded divisor of cores and nonces, and the multiple of bundles that fills the cores. */
  ghost predicate IsDerivation(offer: OfferedCompute, track: TrackSizing, d: Derivation) {
    && offer.Cpu?
    && offer.cores > 0
    && d.gcdCoresNonces == Gcd(offer.cores, track.noncesPerBundle)
    && d.gcdCoresNonces * d.bundleMultiple == offer.cores
  }

  // One track of `size_bundles`; `None` for an overflow.
  method SizeTrack(offer: OfferedCompute, minimum: nat, track: TrackSizing)
    returns (size: Option<nat>, derivation: Derivation)
    requires IsAligned(offer, track) && offer.cores > 0
    ensures size.Some? ==> size.value <= U64_MAX && IsSizeOf(offer, minimum, track, size.value)
    ensures size.None? ==> CannotFit(offer, minimum, track)
    ensures IsDerivation(offer, track, derivation)
  {
    var cores, nonces := offer.cores, track.noncesPerBundle;
    var divisor := GcdLoop(cores, nonces);
    RoundedUpIsSmallest(minimum, cores, nonces);
    ReducedPair(cores, nonces);
    var multiple := cores / divisor;
    size := CheckedMul(CeilDiv(minimum, multiple), multiple, U64_MAX);
    derivation := Derivation(divisor, multiple);
    forall count: nat | IsSizeOf(offer, minimum, track, count)
      ensures count == CeilDiv(minimum, multiple) * multiple
    {
      SmallestIsUnique(minimum, cores, nonces, count, CeilDiv(minimum, multiple) * multiple);
    }
  }

  lemma SizedOneMore(offer: OfferedCompute, minimum: nat, tracks: map<string, TrackSizing>, counts: map<string, nat>,
                     t: string, count: nat)
    requires AllSized(offer, minimum, tracks, counts)
    requires t in tracks && count <= U64_MAX && IsSizeOf(offer, minimum, tracks[t], count)
    ensures AllSized(offer, minimum, tracks, counts[t := count])
  {
  }

  // The count of one track, or why there is none.
  method CountFor(offer: OfferedCompute, minimum: nat, t: string, track: TrackSizing)
    returns (count: Result<nat, BundleSizingError>, derivation: Option<Derivation>)
    requires minimum <= U64_MAX
    ensures count.Ok? ==> count.value <= U64_MAX && IsSizeOf(offer, minimum, track, count.value)
    ensures count.Ok? ==> (derivation.Some? <==> IsAligned(offer, track))
    ensures count.Ok? && derivation.Some? ==> IsDerivation(offer, track, derivation.value)
    ensures count == Err(ZeroCores) <==> IsAligned(offer, track) && offer.cores == 0
    ensures count.Err? && count.error.Overflow? ==>
      count.error.trackId == t && IsAligned(offer, track) && CannotFit(offer, minimum, track)
  {
    if offer.Gpu? || !track.bestOnTrack { return Ok(minimum), None; }
    if offer.cores == 0 { return Err(ZeroCores), None; }
    var size, how := SizeTrack(offer, minimum, track);
    if size.None? { return Err(Overflow(t)), None; }
    return Ok(size.value), Some(how);
  }

  /** `size_bundles`. */
  method SizeBundles(offer: OfferedCompute, minimum: nat, tracks: map<string, TrackSizing>)
    returns (r: Result<BundleSizing, BundleSizingError>)
    requires minimum <= U64_MAX
    ensures r.Ok? ==> r.value.numBundles.Keys == tracks.Keys && AllSized(offer, minimum, tracks, r.value.numBundles)
    ensures r.Ok? ==> forall t :: t in r.value.derivation <==> t in tracks && IsAligned(offer, tracks[t])
    ensures r.Ok? ==> forall t :: t in r.value.derivation ==> IsDerivation(offer, tracks[t], r.value.derivation[t])
    ensures r == Err(ZeroCores) <==> offer == Cpu(0) && exists t :: t in tracks && IsAligned(offer, tracks[t])
    ensures r.Err? && r.error.Overflow? ==>
      r.error.trackId in tracks && IsAligned(offer, tracks[r.error.trackId])
        && CannotFit(offer, minimum, tracks[r.error.trackId])
  {
    var numBundles: map<string, nat> := map[];
    var derivation: map<string, Derivation> := map[];
    var order := InOrder(tracks.Keys);
    for i := 0 to |order|
      invariant forall j :: 0 <= j < i ==> order[j] in numBundles
      invariant numBundles.Keys <= tracks.Keys && AllSized(offer, minimum, tracks, numBundles)
      invariant forall t :: t in derivation <==> t in numBundles && IsAligned(offer, tracks[t])
      invariant forall t :: t in derivation ==> IsDerivation(offer, tracks[t], derivation[t])
      invariant derivation != map[] ==> offer != Cpu(0)
    {
      var t := order[i];
      assert t in tracks;
      var count, how := CountFor(offer, minimum, t, tracks[t]);
      if count.Err? { return Err(count.error); }
      SizedOneMore(offer, minimum, tracks, numBundles, t, count.value);
      numBundles := numBundles[t := count.value];
      if how.Some? { derivation := derivation[t := how.value]; }
    }
    assert numBundles.Keys == tracks.Keys;
    r := Ok(BundleSizing(numBundles, derivation));
  }

  lemma SmallestIsUnique(minimum: nat, cores: nat, nonces: nat, a: nat, b: nat)
    requires cores > 0
    requires IsSmallestFilling(minimum, cores, nonces, a) && IsSmallestFilling(minimum, cores, nonces, b)
    ensures a == b
  {
  }
}
