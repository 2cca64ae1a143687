/** `select_algorithm`: the challenge-wide algorithm, and which algorithm is best on each track. */
module Algorithm {
  import opened Wrappers
  import opened Numbers
  import opened Ratio
  import opened Ids
  import opened Challenge

  datatype Algorithm = Algorithm(id: string, banned: bool, hasSuccessfulBinary: bool, adoption: U128)

  datatype AlgorithmSelection = AlgorithmSelection(selected: Option<string>, bestOnTrack: map<string, Option<string>>)

  /** Step one: neither banned nor without a binary. These compete for a track. */
  ghost predicate Survives(a: Algorithm) {
    !a.banned && a.hasSuccessfulBinary
  }

  /** Step two: of those, the ones some benchmarker uses. These may be selected. */
  ghost predicate IsSelectable(a: Algorithm) {
    Survives(a) && a.adoption > 0
  }

  /** Highest adoption, then smallest id. */
  ghost predicate IsSelected(algorithms: seq<Algorithm>, a: Algorithm) {
    && a in algorithms && IsSelectable(a)
    && forall b :: b in algorithms && IsSelectable(b) ==>
         b.adoption < a.adoption || (b.adoption == a.adoption && (b.id == a.id || Before(a.id, b.id)))
  }

  // The selection part of `select_algorithm`: filter, highest adoption, first in id order.
  method SelectMostAdopted(algorithms: seq<Algorithm>) returns (best: Option<Algorithm>)
    ensures best.None? <==> forall a :: a in algorithms ==> !IsSelectable(a)
    ensures best.Some? ==> IsSelected(algorithms, best.value)
  {
    best := None;
    for i := 0 to |algorithms|
      invariant best.None? ==> forall j :: 0 <= j < i ==> !IsSelectable(algorithms[j])
      invariant best.Some? ==> best.value in algorithms && IsSelectable(best.value)
      invariant best.Some? ==> forall j :: 0 <= j < i && IsSelectable(algorithms[j]) ==>
        || algorithms[j].adoption < best.value.adoption
        || (algorithms[j].adoption == best.value.adoption
             && (algorithms[j].id == best.value.id || Before(best.value.id, algorithms[j].id)))
    {
      var a := algorithms[i];
      if !a.banned && a.hasSuccessfulBinary && a.adoption > 0 {
        if best.None? || a.adoption > best.value.adoption {
          best := Some(a);
        } else if a.adoption == best.value.adoption {
          Trichotomy(a.id, best.value.id);
          if Before(a.id, best.value.id) {
            forall j | 0 <= j < i && IsSelectable(algorithms[j]) && algorithms[j].adoption == a.adoption
              && algorithms[j].id != best.value.id
              ensures Before(a.id, algorithms[j].id)
            {
              Transitive(a.id, best.value.id, algorithms[j].id);
            }
            best := Some(a);
          }
        }
      }
    }
  }

  // -- tracks -------------------------------------------------------------------

  /** Whether an algorithm has a usable rate on a track: it needs active bundles there. */
  ghost predicate HasRate(stats: Stats, id: string, track: string) {
    id in stats && track in stats[id] && stats[id][track].activeBundles > 0
  }

  ghost function RateValue(stats: Stats, id: string, track: string): real
    requires HasRate(stats, id, track)
  {
    stats[id][track].qualifiers as real / stats[id][track].activeBundles as real
  }

  /** Greatest usable rate among the step-one survivors, then smallest id. */
  ghost predicate IsBestOnTrack(ids: set<string>, stats: Stats, track: string, best: Option<string>) {
    match best
    case None => forall id :: id in ids ==> !HasRate(stats, id, track)
    case Some(b) =>
      && b in ids && HasRate(stats, b, track)
      && forall id :: id in ids && HasRate(stats, id, track) && id != b ==>
           || RateValue(stats, id, track) < RateValue(stats, b, track)
           || (RateValue(stats, id, track) == RateValue(stats, b, track) && Before(b, id))
  }

  /** Two usable rates whose cross products do not fit. */
  ghost predicate Incomparable(stats: Stats, a: string, b: string, track: string) {
    && HasRate(stats, a, track)
    && HasRate(stats, b, track)
    && CheckedCompare(RateOf(stats[a][track]).value, RateOf(stats[b][track]).value).Err?
  }

  /** The best algorithm on one track, walking the candidates in id order. */
  method BestOnTrack(ids: set<string>, stats: Stats, track: string) returns (r: Result<Option<string>, RatioError>)
    ensures r.Ok? ==> IsBestOnTrack(ids, stats, track, r.value)
    ensures r.Err? ==> exists a, b :: a in ids && b in ids && Incomparable(stats, a, b, track)
  {
    var order := InOrder(ids);
    var best: Option<(string, Ratio)> := None;
    ghost var at := 0;
    for i := 0 to |order|
      invariant best.None? ==> forall j :: 0 <= j < i ==> !HasRate(stats, order[j], track)
      invariant best.Some? ==>
        && 0 <= at < i && best.value.0 == order[at] && HasRate(stats, best.value.0, track)
        && best.value.1 == RateOf(stats[best.value.0][track]).value
        && Value(best.value.1) == RateValue(stats, best.value.0, track)
      invariant best.Some? ==> forall j :: 0 <= j < i && HasRate(stats, order[j], track) && order[j] != best.value.0 ==>
        || RateValue(stats, order[j], track) < Value(best.value.1)
        || (RateValue(stats, order[j], track) == Value(best.value.1) && Before(best.value.0, order[j]))
    {
      var id := order[i];
      var s := StatsOf(stats, id, track);
      if s.Some? && s.value.activeBundles > 0 {
        var rate := RateOf(s.value).value;
        if best.None? {
          best, at := Some((id, rate)), i;
        } else {
          var c := CheckedCompare(rate, best.value.1);
          if c.Err? {
            assert id in order && order[at] in order && Incomparable(stats, id, order[at], track);
            return Err(c.error);
          }
          if c.value.Greater? { best, at := Some((id, rate)), i; }
        }
      }
    }
    if best.Some? {
      assert best.value.0 in order;
      // The second walk, which lists the ties, compares every rate with the best one again.
      for i := 0 to |order| {
        var s := StatsOf(stats, order[i], track);
        if s.Some? && s.value.activeBundles > 0 {
          var c := CheckedCompare(RateOf(s.value).value, best.value.1);
          if c.Err? {
            assert order[i] in order && Incomparable(stats, order[i], best.value.0, track);
            return Err(c.error);
          }
        }
      }
    }
    forall id | id in ids ensures exists j :: 0 <= j < |order| && order[j] == id {
      assert id in order;
    }
    r := Ok(if best.None? then None else Some(best.value.0));
  }

  // -- both -------------------------------------------------------------------

  ghost function SurvivorIds(algorithms: seq<Algorithm>): set<string> {
    set a | a in algorithms && Survives(a) :: a.id
  }

  lemma PrefixGrows(order: seq<string>, i: nat)
    requires i < |order|
    ensures forall id :: id in order[..i + 1] <==> id in order[..i] || id == order[i]
  {
    assert order[..i + 1] == order[..i] + [order[i]];
  }

  /** `select_algorithm`, for a challenge with active tracks. */
  method SelectAlgorithm(algorithms: seq<Algorithm>, stats: Stats, activeTracks: seq<string>)
    returns (r: Result<AlgorithmSelection, RatioError>)
    ensures r.Ok? ==>
      && (r.value.selected.None? <==> forall a :: a in algorithms ==> !IsSelectable(a))
      && (r.value.selected.Some? ==> exists a :: IsSelected(algorithms, a) && a.id == r.value.selected.value)
      && (forall t :: t in r.value.bestOnTrack <==> t in activeTracks)
      && forall t :: t in activeTracks ==>
           IsBestOnTrack(SurvivorIds(algorithms), stats, t, r.value.bestOnTrack[t])
    ensures r.Err? ==> exists t, a, b ::
      t in activeTracks && a in SurvivorIds(algorithms) && b in SurvivorIds(algorithms) && Incomparable(stats, a, b, t)
  {
    var best := SelectMostAdopted(algorithms);
    var ids := set a | a in algorithms && !a.banned && a.hasSuccessfulBinary :: a.id;
    assert ids == SurvivorIds(algorithms);
    var bestOn: map<string, Option<string>> := map[];
    for i := 0 to |activeTracks|
      invariant forall t :: t in bestOn <==> t in activeTracks[..i]
      invariant forall t :: t in bestOn ==> IsBestOnTrack(ids, stats, t, bestOn[t])
    {
      var one := BestOnTrack(ids, stats, activeTracks[i]);
      if one.Err? { return Err(one.error); }
      PrefixGrows(activeTracks, i);
      bestOn := bestOn[activeTracks[i] := one.value];
    }
    assert activeTracks[..|activeTracks|] == activeTracks;
    r := Ok(AlgorithmSelection(if best.None? then None else Some(best.value.id), bestOn));
  }

  /** The selected algorithm is the best one on the track. */
  predicate IsBest(selection: AlgorithmSelection, track: string) {
    track in selection.bestOnTrack && selection.selected.Some? && selection.bestOnTrack[track] == selection.selected
  }
}
