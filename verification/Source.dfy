/** `select_source`: the active benchmark whose settings a track's precommit copies. */
module Source {
  import opened Wrappers
  import opened Numbers
  import opened Ids

  datatype SourceBenchmark = SourceBenchmark(
    benchmarkId: string, algorithmId: string, trackId: string, verified: bool, fraudulent: bool,
    blockConfirmed: U64, qualityByBundle: seq<int>, hyperparameters: string, fuelBudget: U64)

  /** The filters that run before any quality is compared. */
  ghost predicate IsCandidate(b: SourceBenchmark, algorithmId: string, trackId: string) {
    b.algorithmId == algorithmId && b.trackId == trackId && !b.fraudulent && b.verified && b.qualityByBundle != []
  }

  ghost predicate IsMaximum(values: seq<int>, m: int) {
    m in values && forall v :: v in values ==> v <= m
  }

  /** The highest single bundle, not the average. */
  method HighestBundle(values: seq<int>) returns (m: int)
    requires values != []
    ensures IsMaximum(values, m)
  {
    m := values[0];
    for i := 1 to |values|
      invariant m in values
      invariant forall j :: 0 <= j < i ==> values[j] <= m
    {
      if values[i] > m { m := values[i]; }
    }
  }

  /** `a` is the better source: higher best bundle, then later confirmation, then smaller id. */
  ghost predicate Beats(a: SourceBenchmark, b: SourceBenchmark)
    requires a.qualityByBundle != [] && b.qualityByBundle != []
  {
    exists x, y :: IsMaximum(a.qualityByBundle, x) && IsMaximum(b.qualityByBundle, y)
      && (x > y || (x == y && MoreRecent(a, b)))
  }

  ghost predicate MoreRecent(a: SourceBenchmark, b: SourceBenchmark) {
    a.blockConfirmed > b.blockConfirmed || (a.blockConfirmed == b.blockConfirmed
        && Before(a.benchmarkId, b.benchmarkId))
  }

  ghost predicate IsBestSource(benchmarks: seq<SourceBenchmark>, algorithmId: string, trackId: string,
                               winner: SourceBenchmark) {
    && winner in benchmarks && IsCandidate(winner, algorithmId, trackId)
    && forall b :: b in benchmarks && IsCandidate(b, algorithmId, trackId) && b.benchmarkId != winner.benchmarkId ==>
      Beats(winner, b)
  }

  // The candidates seen so far, each with its highest bundle.
  ghost predicate CandidatesUpTo(benchmarks: seq<SourceBenchmark>, n: nat, algorithmId: string, trackId: string,
                                 found: seq<(SourceBenchmark, int)>)
    requires n <= |benchmarks|
  {
    && (forall p :: p in found ==>
          p.0 in benchmarks && IsCandidate(p.0, algorithmId, trackId) && IsMaximum(p.0.qualityByBundle, p.1))
    && forall i :: 0 <= i < n && IsCandidate(benchmarks[i], algorithmId, trackId) ==>
         exists q :: (benchmarks[i], q) in found
  }

  method Candidates(benchmarks: seq<SourceBenchmark>, algorithmId: string, trackId: string)
    returns (found: seq<(SourceBenchmark, int)>)
    ensures CandidatesUpTo(benchmarks, |benchmarks|, algorithmId, trackId, found)
  {
    found := [];
    for i := 0 to |benchmarks|
      invariant CandidatesUpTo(benchmarks, i, algorithmId, trackId, found)
    {
      var b := benchmarks[i];
      if b.algorithmId == algorithmId && b.trackId == trackId && !b.fraudulent && b.verified
         && b.qualityByBundle != [] {
        var highest := HighestBundle(b.qualityByBundle);
        ghost var before := found;
        found := found + [(b, highest)];
        assert (b, highest) in found && forall p :: p in before ==> p in found;
      }
    }
  }

  // Winner of the tied candidates: the most recently confirmed, then the smallest id.
  method MostRecent(tied: seq<SourceBenchmark>) returns (winner: SourceBenchmark)
    requires tied != []
    ensures winner in tied
    ensures forall b :: b in tied && b.benchmarkId != winner.benchmarkId ==> MoreRecent(winner, b)
  {
    winner := tied[0];
    for i := 1 to |tied|
      invariant winner in tied
      invariant forall j :: 0 <= j < i && tied[j].benchmarkId != winner.benchmarkId ==> MoreRecent(winner, tied[j])
      invariant forall j :: 0 <= j < i && tied[j].benchmarkId == winner.benchmarkId ==>
        tied[j].blockConfirmed <= winner.blockConfirmed
    {
      if tied[i].blockConfirmed > winner.blockConfirmed
         || (tied[i].blockConfirmed == winner.blockConfirmed && Before(tied[i].benchmarkId, winner.benchmarkId)) {
        forall j | 0 <= j < i && tied[j].benchmarkId != tied[i].benchmarkId ensures MoreRecent(tied[i], tied[j]) {
          if tied[j].benchmarkId != winner.benchmarkId
            && tied[i].blockConfirmed == winner.blockConfirmed == tied[j].blockConfirmed {
            Transitive(tied[i].benchmarkId, winner.benchmarkId, tied[j].benchmarkId);
          }
        }
        winner := tied[i];
      } else {
        Trichotomy(tied[i].benchmarkId, winner.benchmarkId);
      }
    }
  }

  /** `select_source`. */
  method SelectSource(benchmarks: seq<SourceBenchmark>, algorithmId: string, trackId: string)
    returns (winner: Option<SourceBenchmark>)
    ensures winner.None? <==> forall b :: b in benchmarks ==> !IsCandidate(b, algorithmId, trackId)
    ensures winner.Some? ==> IsBestSource(benchmarks, algorithmId, trackId, winner.value)
  {
    var found := Candidates(benchmarks, algorithmId, trackId);
    if found == [] { return None; }
    var highest := found[0].1;
    for i := 1 to |found|
      invariant exists p :: p in found && p.1 == highest
      invariant forall j :: 0 <= j < i ==> found[j].1 <= highest
    {
      if found[i].1 > highest { highest := found[i].1; }
    }
    var tied: seq<SourceBenchmark> := [];
    for i := 0 to |found|
      invariant forall j :: 0 <= j < i && found[j].1 == highest ==> found[j].0 in tied
      invariant forall b :: b in tied ==> (b, highest) in found
    {
      if found[i].1 == highest {
        assert (found[i].0, highest) == found[i];
        tied := tied + [found[i].0];
      }
    }
    var w := MostRecent(tied);
    forall b | b in benchmarks && IsCandidate(b, algorithmId, trackId)
      && b.benchmarkId != w.benchmarkId ensures Beats(w, b) {
      BeatsOthers(benchmarks, algorithmId, trackId, found, highest, tied, w, b);
    }
    winner := Some(w);
  }

  lemma BeatsOthers(benchmarks: seq<SourceBenchmark>, algorithmId: string, trackId: string,
                    found: seq<(SourceBenchmark, int)>, highest: int, tied: seq<SourceBenchmark>,
                    w: SourceBenchmark, b: SourceBenchmark)
    requires CandidatesUpTo(benchmarks, |benchmarks|, algorithmId, trackId, found)
    requires forall j :: 0 <= j < |found| ==> found[j].1 <= highest
    requires forall j :: 0 <= j < |found| && found[j].1 == highest ==> found[j].0 in tied
    requires w in tied && (w, highest) in found
    requires forall b :: b in tied && b.benchmarkId != w.benchmarkId ==> MoreRecent(w, b)
    requires b in benchmarks && IsCandidate(b, algorithmId, trackId) && b.benchmarkId != w.benchmarkId
    ensures w.qualityByBundle != [] && b.qualityByBundle != [] && Beats(w, b)
  {
    var i :| 0 <= i < |benchmarks| && benchmarks[i] == b;
    var q :| (benchmarks[i], q) in found;
    var j :| 0 <= j < |found| && found[j] == (b, q);
    assert IsMaximum(w.qualityByBundle, highest) && IsMaximum(b.qualityByBundle, q);
  }
}
