/**
 * The fake's choice of nonces to prove: evenly spaced from an offset, each
 * moved on past nonces already picked.
 */
module Sampling {
  import Numbers

  function Least(a: nat, b: nat): nat {
    if a < b then a else b
  }

  // --------------------------------------------------------------- the spacing

  /** The i-th of `count` evenly spaced places among `n`. */
  function Place(n: nat, count: nat, i: nat): nat
    requires count > 0
  {
    i * n / count
  }

  lemma NotBelow(c: nat, d: int)
    requires c * d > -(c as int)
    ensures d >= 0
  {
    if d <= -1 { Numbers.MulAtLeast(c, -d); }
  }

  lemma QuotientGrows(x: nat, y: nat, c: nat)
    requires 0 < c && x + c <= y
    ensures x / c < y / c
  {
    var d := y / c - x / c - 1;
    assert x == c * (x / c) + x % c && y == c * (y / c) + y % c;
    assert c * d == c * (y / c) - c * (x / c) - c;
    NotBelow(c, d);
  }

  lemma ProductGrows(n: nat, i: nat, j: nat)
    requires i < j
    ensures i * n + n <= j * n
  {
    Numbers.MulAtLeast(n, j - i);
    assert j * n == i * n + n * (j - i);
  }

  lemma PlacesAreApart(n: nat, count: nat, i: nat, j: nat)
    requires 0 < count <= n && i < j
    ensures Place(n, count, i) < Place(n, count, j)
  {
    ProductGrows(n, i, j);
    QuotientGrows(i * n, j * n, count);
  }

  lemma PlaceIsInRange(n: nat, count: nat, i: nat)
    requires 0 < count <= n && i < count
    ensures Place(n, count, i) < n
  {
    PlacesAreApart(n, count, i, count);
    Numbers.MultipleDivides(count, n);
  }

  /** `steps` places on from `start`, turning at `n`. */
  function Turned(start: nat, n: nat, steps: nat): nat
    requires start < n && steps <= n
  {
    if start + steps < n then start + steps else start + steps - n
  }

  lemma TurnedIsRemainder(start: nat, n: nat, steps: nat)
    requires start < n && steps <= n
    ensures (start + steps) % n == Turned(start, n, steps)
  {
    if start + steps < n {
      Numbers.DivModUnique(n, 0, start + steps);
    } else {
      Numbers.DivModUnique(n, 1, start + steps - n);
    }
  }

  /** Where the i-th nonce starts: its place, turned by the offset. */
  function Start(offset: nat, n: nat, count: nat, i: nat): nat
    requires offset < n && 0 < count <= n && i < count
  {
    PlaceIsInRange(n, count, i);
    Turned(offset, n, Place(n, count, i))
  }

  /** The evenly spaced offsets are distinct already, so no nonce collides with an earlier one. */
  lemma StartsAreDistinct(offset: nat, n: nat, count: nat, i: nat, j: nat)
    requires 0 < count <= n && offset < n && i < j < count
    ensures Start(offset, n, count, i) != Start(offset, n, count, j)
  {
    PlacesAreApart(n, count, i, j);
    PlaceIsInRange(n, count, j);
  }

  // ---------------------------------------------------------------- the probing

  function Probed(start: nat, n: nat, steps: nat): set<nat>
    requires start < n && steps <= n
  {
    set j | 0 <= j < steps :: Turned(start, n, j)
  }

  lemma {:induction false} ProbedSize(start: nat, n: nat, steps: nat)
    requires start < n && steps <= n
    ensures |Probed(start, n, steps)| == steps
  {
    if steps == 0 {
      assert Probed(start, n, 0) == {};
    } else {
      ProbedSize(start, n, steps - 1);
      assert Probed(start, n, steps) == Probed(start, n, steps - 1) + {Turned(start, n, steps - 1)};
    }
  }

  lemma {:induction false} SetIsNoLarger(s: set<nat>, picked: seq<nat>)
    requires forall x :: x in s ==> x in picked
    ensures |s| <= |picked|
  {
    if picked == [] {
      assert s == {};
    } else {
      var last := picked[|picked| - 1];
      var rest := s - {last};
      SetIsNoLarger(rest, picked[..|picked| - 1]);
      assert s <= rest + {last};
      if last in s { assert s == rest + {last}; } else { assert s == rest; }
    }
  }

  lemma ProbesAreFew(picked: seq<nat>, n: nat, start: nat, steps: nat)
    requires start < n && steps <= n && forall j :: 0 <= j < steps ==> Turned(start, n, j) in picked
    ensures steps <= |picked|
  {
    ProbedSize(start, n, steps);
    SetIsNoLarger(Probed(start, n, steps), picked);
  }

  /** The first nonce from `start` on, turning at `n`, that is not picked: there is one while fewer than `n` are. */
  method Probe(picked: seq<nat>, n: nat, start: nat) returns (candidate: nat, steps: nat)
    requires start < n && |picked| < n
    ensures candidate !in picked && steps <= |picked| && candidate == Turned(start, n, steps)
    ensures forall j :: 0 <= j < steps ==> Turned(start, n, j) in picked
    ensures start !in picked <==> steps == 0
  {
    candidate, steps := start, 0;
    while candidate in picked
      invariant steps <= |picked| && candidate == Turned(start, n, steps)
      invariant forall j :: 0 <= j < steps ==> Turned(start, n, j) in picked
      decreases n - steps
    {
      ProbesAreFew(picked, n, start, steps + 1);
      TurnedIsRemainder(candidate, n, 1);
      candidate, steps := (candidate + 1) % n, steps + 1;
    }
    assert steps > 0 ==> Turned(start, n, 0) in picked;
  }

  // ----------------------------------------------------------------- the sample

  predicate Ascending(s: seq<nat>) {
    forall i, j :: 0 <= i < j < |s| ==> s[i] < s[j]
  }

  function Insert(x: nat, s: seq<nat>): (t: seq<nat>)
    ensures multiset(t) == multiset(s) + multiset{x}
  {
    if s == [] then [x]
    else if x <= s[0] then [x] + s
    else assert s == [s[0]] + s[1..]; [s[0]] + Insert(x, s[1..])
  }

  /** The picked nonces in order, as the library's sort leaves them. */
  function Sort(s: seq<nat>): (t: seq<nat>)
    ensures multiset(t) == multiset(s)
  {
    if s == [] then [] else assert s == [s[0]] + s[1..]; Insert(s[0], Sort(s[1..]))
  }

  lemma {:induction false} InsertAscends(x: nat, s: seq<nat>)
    requires Ascending(s) && x !in s
    ensures Ascending(Insert(x, s))
  {
    if s != [] && x > s[0] {
      var rest := Insert(x, s[1..]);
      InsertAscends(x, s[1..]);
      forall k | 0 <= k < |rest| ensures s[0] < rest[k] {
        assert rest[k] in multiset(rest);
        assert rest[k] in multiset(s[1..]) + multiset{x};
        assert rest[k] in s[1..] || rest[k] == x;
      }
    }
  }

  predicate Distinct(s: seq<nat>) {
    forall i, j :: 0 <= i < j < |s| ==> s[i] != s[j]
  }

  lemma {:induction false} SortAscends(s: seq<nat>)
    requires Distinct(s)
    ensures Ascending(Sort(s))
  {
    if s != [] {
      SortAscends(s[1..]);
      var rest := Sort(s[1..]);
      SameSize(rest, s[1..]);
      InsertAscends(s[0], rest);
    }
  }

  lemma SameSize(s: seq<nat>, t: seq<nat>)
    requires multiset(s) == multiset(t)
    ensures |s| == |t| && forall x :: x in s <==> x in t
  {
    assert |multiset(s)| == |s| && |multiset(t)| == |t|;
    forall x ensures x in s <==> x in t {
      assert x in multiset(s) <==> x in multiset(t);
    }
  }

  /** What a sample of `count` of the nonces below `n` is. */
  predicate IsSample(s: seq<nat>, n: nat, count: nat) {
    |s| == Least(count, n) && Ascending(s) && forall k :: 0 <= k < |s| ==> s[k] < n
  }

  function Starts(offset: nat, n: nat, count: nat): seq<nat>
    requires offset < n && count <= n
  {
    seq(count, i requires 0 <= i < count => Start(offset, n, count, i))
  }

  /** The sample as a formula: the evenly spaced starts, sorted. */
  function Sample(weight: nat, n: nat, count: nat): seq<nat> {
    if n == 0 then [] else Sort(Starts(weight % n, n, Least(count, n)))
  }

  lemma StartsDiffer(offset: nat, n: nat, count: nat, i: nat, j: nat)
    requires offset < n && count <= n && i < j < count
    ensures Starts(offset, n, count)[i] != Starts(offset, n, count)[j]
  {
    StartsAreDistinct(offset, n, count, i, j);
  }

  lemma StartIsInRange(offset: nat, n: nat, count: nat, i: nat)
    requires offset < n && count <= n && i < count
    ensures Starts(offset, n, count)[i] < n
  {
    PlaceIsInRange(n, count, i);
  }

  lemma StartsAreFine(starts: seq<nat>, offset: nat, n: nat, count: nat)
    requires offset < n && count <= n && starts == Starts(offset, n, count)
    ensures Distinct(starts) && forall i :: 0 <= i < |starts| ==> starts[i] < n
  {
    forall i, j | 0 <= i < j < |starts| ensures starts[i] != starts[j] { StartsDiffer(offset, n, count, i, j); }
    forall i | 0 <= i < |starts| ensures starts[i] < n { StartIsInRange(offset, n, count, i); }
  }

  lemma SortedIsSample(starts: seq<nat>, n: nat, count: nat)
    requires Distinct(starts) && |starts| == Least(count, n) && forall i :: 0 <= i < |starts| ==> starts[i] < n
    ensures IsSample(Sort(starts), n, count)
  {
    SortAscends(starts);
    SameSize(Sort(starts), starts);
    forall k | 0 <= k < |Sort(starts)| ensures Sort(starts)[k] < n {
      assert Sort(starts)[k] in starts;
    }
  }

  /** Exactly min(count, n) distinct nonces below n, in ascending order. */
  lemma SampleIsSample(weight: nat, n: nat, count: nat)
    ensures IsSample(Sample(weight, n, count), n, count)
  {
    if n > 0 {
      var starts := Starts(weight % n, n, Least(count, n));
      StartsAreFine(starts, weight % n, n, Least(count, n));
      SortedIsSample(starts, n, count);
    }
  }

  /** The sampled nonces are the evenly spaced ones from the offset on. */
  lemma SampleIsSpaced(weight: nat, n: nat, count: nat, x: nat)
    requires n > 0
    ensures x in Sample(weight, n, count) <==>
      exists i: nat :: i < Least(count, n) && x == (weight % n + i * n / Least(count, n)) % n
  {
    var c := Least(count, n);
    var starts := Starts(weight % n, n, c);
    SameSize(Sort(starts), starts);
    forall i: nat | i < c ensures starts[i] == (weight % n + i * n / c) % n {
      PlaceIsInRange(n, c, i);
      TurnedIsRemainder(weight % n, n, Place(n, c, i));
    }
    if x in starts {
      var i :| 0 <= i < |starts| && starts[i] == x;
      assert x == (weight % n + i * n / c) % n;
    }
    if i: nat :| i < c && x == (weight % n + i * n / c) % n { assert starts[i] == x; }
  }

  /** `weight` is the sum of the benchmark id's bytes. `moved` counts the steps the collision loop took. */
  method SampleNonces(weight: nat, n: nat, count: nat) returns (sample: seq<nat>, moved: nat)
    ensures sample == Sample(weight, n, count) && IsSample(sample, n, count)
    ensures moved == 0
  {
    SampleIsSample(weight, n, count);
    var c := Least(count, n);
    var offset := weight % (if n > 0 then n else 1);
    var picked: seq<nat>, i := [], 0;
    moved := 0;
    while |picked| < c
      invariant i == |picked| <= c && moved == 0
      invariant n > 0 ==> offset < n
      invariant forall k :: 0 <= k < i ==> picked[k] == Start(offset, n, c, k)
      decreases c - |picked|
    {
      PlaceIsInRange(n, c, i);
      TurnedIsRemainder(offset, n, Place(n, c, i));
      var start := (offset + i * n / (if c > 0 then c else 1)) % n;
      forall k | 0 <= k < i ensures picked[k] != start {
        StartsAreDistinct(offset, n, c, k, i);
      }
      var candidate, steps := Probe(picked, n, start);
      moved := moved + steps;
      picked := picked + [candidate];
      i := i + 1;
    }
    if n > 0 { assert picked == Starts(offset, n, c); }
    sample := Sort(picked);
  }
}
