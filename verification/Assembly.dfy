/**
 * Assembling one block-consistent snapshot from separate reads, while the
 * chain advances between them and a per-block cache answers some of them.
 *
 * A block is named by its height. The server may ignore the block a read
 * names: what it answers is what it holds for the block that is latest when
 * it answers.
 */
module Assembly {
  import opened Wrappers

  datatype AnchoredRead = Challenges | Algorithms | Opow | PlayerData | Benchmarks

  const ALL_READS := [Challenges, Algorithms, Opow, PlayerData, Benchmarks]

  /** The complete request: the endpoint and every parameter but the block. */
  datatype Request = Anchored(read: AnchoredRead) | Tracks(challenge: string)

  /** A body, with the challenge ids it lists if it can be read as a list of them. */
  datatype Body = Body(text: string, listed: Option<seq<string>>)

  datatype Fault = Unavailable | RefreshConflict | Shape
  datatype Error = Failed(fault: Fault) | BlockAdvanced(opening: int, closing: int) | Outpaced(attempts: nat)

  /** What one request meets: how far the chain advances first, and how the request fares. */
  datatype Turn = Turn(advance: nat, fault: Option<Fault>)

  datatype Snapshot = Snapshot(
    block: int, anchored: map<AnchoredRead, Body>, tracks: map<string, Body>, readsComplete: bool)

  /** The chain outran the pass. */
  ghost predicate Retryable(e: Error) {
    e == Failed(RefreshConflict) || e.BlockAdvanced?
  }

  /** What the server holds for each request at each block. */
  type World = (Request, int) -> Body

  /** The snapshot a client would take if the chain stood still at `block`. */
  function Frozen(world: World, block: int, listed: seq<string>): Snapshot {
    Snapshot(
      block,
      map read | read in ALL_READS :: world(Anchored(read), block),
      map c | c in listed :: world(Tracks(c), block),
      true)
  }

  // ------------------------------------------------------------ the read loops

  /** What a loop over reads keeps of their answers, and whether it calls itself complete. */
  datatype Gathered<!K, V> = Gathered(kept: map<K, V>, complete: bool)

  function Gather<K, V>(keys: seq<K>, answers: seq<Option<V>>): (g: Gathered<K, V>)
    requires |keys| == |answers|
    decreases |keys|
  {
    if keys == [] then Gathered(map[], true) else
      var n := |keys| - 1;
      var earlier := Gather(keys[..n], answers[..n]);
      match answers[n]
      case Some(v) => Gathered(earlier.kept[keys[n] := v], earlier.complete)
      case None => Gathered(earlier.kept, false)
  }

  lemma GatherStep<K, V>(keys: seq<K>, answers: seq<Option<V>>, k: K, a: Option<V>)
    requires |keys| == |answers|
    ensures var g := Gather(keys, answers);
      Gather(keys + [k], answers + [a]) ==
      if a.Some? then Gathered(g.kept[k := a.value], g.complete) else Gathered(g.kept, false)
  {
    assert (keys + [k])[..|keys|] == keys && (answers + [a])[..|keys|] == answers;
  }

  ghost predicate Answered<K, V>(keys: seq<K>, answers: seq<Option<V>>, k: K)
    requires |keys| == |answers|
  {
    exists i :: 0 <= i < |keys| && keys[i] == k && answers[i].Some?
  }

  lemma {:induction false} GatherMeaning<K, V>(keys: seq<K>, answers: seq<Option<V>>)
    requires |keys| == |answers|
    ensures var g := Gather(keys, answers);
      && (g.complete <==> forall i :: 0 <= i < |keys| ==> answers[i].Some?)
      && (forall k :: k in g.kept <==> Answered(keys, answers, k))
    decreases |keys|
  {
    if keys != [] {
      var n := |keys| - 1;
      var ks, vs := keys[..n], answers[..n];
      GatherMeaning(ks, vs);
      var g := Gather(keys, answers);
      forall k ensures k in g.kept <==> Answered(keys, answers, k) {
        if Answered(ks, vs, k) {
          var i :| 0 <= i < |ks| && ks[i] == k && vs[i].Some?;
          assert keys[i] == k && answers[i].Some?;
        }
        if Answered(keys, answers, k) {
          var i :| 0 <= i < |keys| && keys[i] == k && answers[i].Some?;
          if i < n { assert ks[i] == k && vs[i].Some?; }
        }
      }
      assert forall i :: 0 <= i < n ==> vs[i] == answers[i];
    }
  }

  predicate Distinct<K(==)>(keys: seq<K>) {
    forall i, j :: 0 <= i < j < |keys| ==> keys[i] != keys[j]
  }

  /** The key of some answered read is kept with that read's answer. */
  lemma {:induction false} KeptIsAnswered<K, V>(keys: seq<K>, answers: seq<Option<V>>, k: K)
    requires |keys| == |answers| && k in Gather(keys, answers).kept
    ensures exists i :: 0 <= i < |keys| && keys[i] == k && answers[i] == Some(Gather(keys, answers).kept[k])
    decreases |keys|
  {
    var n := |keys| - 1;
    if answers[n].Some? && keys[n] == k {
      assert answers[n] == Some(Gather(keys, answers).kept[k]);
    } else {
      var ks, vs := keys[..n], answers[..n];
      KeptIsAnswered(ks, vs, k);
      var i :| 0 <= i < |ks| && ks[i] == k && vs[i] == Some(Gather(ks, vs).kept[k]);
      assert keys[i] == k && answers[i] == vs[i];
    }
  }

  ghost predicate AllKept<K(!new), V>(keys: seq<K>, answers: seq<Option<V>>)
    requires |keys| == |answers|
  {
    Gather(keys, answers).kept.Keys == set k | k in keys
  }

  /** Complete means that everything was kept. */
  lemma CompleteKeepsAll<K(!new), V>(keys: seq<K>, answers: seq<Option<V>>)
    requires |keys| == |answers|
    ensures Gather(keys, answers).complete ==> AllKept(keys, answers)
    ensures AllKept(keys, answers) <==> forall i :: 0 <= i < |keys| ==> Answered(keys, answers, keys[i])
  {
    GatherMeaning(keys, answers);
    var g := Gather(keys, answers);
    var all := set k | k in keys;
    forall k | k in g.kept.Keys ensures k in all {
      assert k in g.kept;
      assert Answered(keys, answers, k);
    }
    if AllKept(keys, answers) {
      forall i | 0 <= i < |keys| ensures Answered(keys, answers, keys[i]) {
        assert keys[i] in all;
      }
    }
    if g.complete {
      forall i | 0 <= i < |keys| ensures Answered(keys, answers, keys[i]) {
        assert answers[i].Some?;
      }
    }
    if forall i :: 0 <= i < |keys| ==> Answered(keys, answers, keys[i]) {
      assert all <= g.kept.Keys;
    }
  }

  lemma DistinctNeedsEach<K(!new), V>(keys: seq<K>, answers: seq<Option<V>>)
    requires |keys| == |answers| && Distinct(keys) && AllKept(keys, answers)
    ensures Gather(keys, answers).complete
  {
    GatherMeaning(keys, answers);
    CompleteKeepsAll(keys, answers);
    forall i | 0 <= i < |keys| ensures answers[i].Some? {
      assert Answered(keys, answers, keys[i]);
      var j :| 0 <= j < |keys| && keys[j] == keys[i] && answers[j].Some?;
      assert i == j;
    }
  }

  /** A read that failed at `i` and succeeded at `j`, for one key, with every other read answered. */
  lemma RepeatHidesAFailure<K(!new), V>(keys: seq<K>, answers: seq<Option<V>>, i: nat, j: nat)
    requires |keys| == |answers| && i < |keys| && j < |keys| && i != j && keys[i] == keys[j]
    requires answers[i].None? && forall k :: 0 <= k < |keys| && k != i ==> answers[k].Some?
    ensures AllKept(keys, answers) && !Gather(keys, answers).complete
  {
    GatherMeaning(keys, answers);
    CompleteKeepsAll(keys, answers);
    forall k | 0 <= k < |keys| ensures Answered(keys, answers, keys[k]) {
      assert k != i ==> answers[k].Some?;
      assert answers[j].Some?;
    }
  }

  /**
   * Whatever the reads answer, the flag says that every key was kept: exactly
   * when no key is read twice.
   */
  lemma FlagIsExactIffDistinct<K(!new), V(!new)>(keys: seq<K>, v: V)
    ensures Distinct(keys) <==>
      forall answers: seq<Option<V>> :: |answers| == |keys| ==>
        (Gather(keys, answers).complete <==> AllKept(keys, answers))
  {
    if Distinct(keys) {
      forall answers: seq<Option<V>> | |answers| == |keys|
        ensures Gather(keys, answers).complete <==> AllKept(keys, answers)
      {
        CompleteKeepsAll(keys, answers);
        if AllKept(keys, answers) { DistinctNeedsEach(keys, answers); }
      }
    } else {
      var i, j :| 0 <= i < j < |keys| && keys[i] == keys[j];
      var answers: seq<Option<V>> := seq(|keys|, k => if k == i then None else Some(v));
      RepeatHidesAFailure(keys, answers, i, j);
    }
  }

  // ------------------------------------------------------------------ one pass

  datatype Entry = Entry(block: int, responses: map<Request, Body>)

  type Script = nat -> Turn

  /** The client's cache and the chain it reads from; `clock` counts the requests made. */
  datatype Client = Client(clock: nat, head: int, cache: Option<Entry>)

  function Turned(script: Script, c: Client): Client {
    c.(clock := c.clock + 1, head := c.head + script(c.clock).advance)
  }

  /** The latest block, never cached: it is what the closing read is there to compare. */
  function Latest(script: Script, c: Client): (Client, Result<int, Fault>) {
    var d := Turned(script, c);
    match script(c.clock).fault
    case Some(f) => (d, Err(f))
    case None => (d, Ok(d.head))
  }

  function Cached(c: Client, block: int, q: Request): Option<Body> {
    if c.cache.Some? && c.cache.value.block == block && q in c.cache.value.responses
    then Some(c.cache.value.responses[q]) else None
  }

  /** The whole entry is replaced when it is another block's. */
  function Stored(c: Client, block: int, q: Request, body: Body): Client {
    var responses := if c.cache.Some? && c.cache.value.block == block then c.cache.value.responses else map[];
    c.(cache := Some(Entry(block, responses[q := body])))
  }

  function Read(world: World, script: Script, c: Client, block: int, q: Request): (Client, Result<Body, Fault>) {
    if Cached(c, block, q).Some? then (c, Ok(Cached(c, block, q).value)) else
    var d := Turned(script, c);
    match script(c.clock).fault
    case Some(f) => (d, Err(f))
    case None => (Stored(d, block, q, world(q, d.head)), Ok(world(q, d.head)))
  }

  /** Each request in turn: a transport failure is left out, any other failure ends the pass. */
  function ReadAll(world: World, script: Script, c: Client, block: int, qs: seq<Request>)
    : (r: (Client, Result<seq<Option<Body>>, Fault>))
    ensures r.1.Ok? ==> |r.1.value| == |qs|
    decreases |qs|
  {
    if qs == [] then (c, Ok([])) else
    var n := |qs| - 1;
    var (d, earlier) := ReadAll(world, script, c, block, qs[..n]);
    if earlier.Err? then (d, earlier) else
    var (e, r) := Read(world, script, d, block, qs[n]);
    match r
    case Ok(body) => (e, Ok(earlier.value + [Some(body)]))
    case Err(f) => if f == Unavailable then (e, Ok(earlier.value + [None])) else (e, Err(f))
  }

  function AnchoredRequests(): (qs: seq<Request>)
    ensures |qs| == |ALL_READS| && forall i :: 0 <= i < |qs| ==> qs[i] == Anchored(ALL_READS[i])
  {
    RequestsOf(ALL_READS)
  }

  function RequestsOf(kinds: seq<AnchoredRead>): (qs: seq<Request>)
    ensures |qs| == |kinds| && forall i :: 0 <= i < |qs| ==> qs[i] == Anchored(kinds[i])
  {
    seq(|kinds|, i requires 0 <= i < |kinds| => Anchored(kinds[i]))
  }

  function TrackRequests(listed: seq<string>): (qs: seq<Request>)
    ensures |qs| == |listed| && forall i :: 0 <= i < |qs| ==> qs[i] == Tracks(listed[i])
  {
    seq(|listed|, i requires 0 <= i < |listed| => Tracks(listed[i]))
  }

  /** The challenges to read tracks for; none without a challenges response, and no answer for an unreadable one. */
  function ListedIn(anchored: map<AnchoredRead, Body>): Option<seq<string>> {
    if Challenges in anchored then anchored[Challenges].listed else Some([])
  }

  /** Open, read everything for the opening block, and accept only if it is still latest. */
  function Pass(world: World, script: Script, c: Client): (Client, Result<Snapshot, Error>) {
    var (c1, opening) := Latest(script, c);
    if opening.Err? then (c1, Err(Failed(opening.error))) else
    var (c2, first) := ReadAll(world, script, c1, opening.value, AnchoredRequests());
    if first.Err? then (c2, Err(Failed(first.error))) else
    var anchored := Gather(ALL_READS, first.value);
    var listed := ListedIn(anchored.kept);
    if listed.None? then (c2, Err(Failed(Shape))) else
    var (c3, second) := ReadAll(world, script, c2, opening.value, TrackRequests(listed.value));
    if second.Err? then (c3, Err(Failed(second.error))) else
    Close(script, c3, opening.value, anchored, Gather(listed.value, second.value))
  }

  function Close(script: Script, c: Client, block: int, anchored: Gathered<AnchoredRead, Body>,
                 tracks: Gathered<string, Body>)
    : (Client, Result<Snapshot, Error>)
  {
    var (d, closing) := Latest(script, c);
    if closing.Err? then (d, Err(Failed(closing.error)))
    else if closing.value != block then (d, Err(BlockAdvanced(block, closing.value)))
    else (d, Ok(Snapshot(block, anchored.kept, tracks.kept, anchored.complete && tracks.complete)))
  }

  // ------------------------------------------------------- every answer's block

  /** Held for the block it was asked for: answered at that block or a later one, up to the head. */
  ghost predicate AnsweredSince(world: World, q: Request, body: Body, block: int, head: int) {
    exists at :: block <= at <= head && body == world(q, at)
  }

  ghost predicate Sound(world: World, c: Client) {
    c.cache.Some? ==>
      && c.cache.value.block <= c.head
      && (forall q :: q in c.cache.value.responses ==>
            AnsweredSince(world, q, c.cache.value.responses[q], c.cache.value.block, c.head))
  }

  lemma TurnedIsSound(world: World, script: Script, c: Client)
    requires Sound(world, c)
    ensures Sound(world, Turned(script, c)) && Turned(script, c).head >= c.head
  {
  }

  lemma ReadIsSound(world: World, script: Script, c: Client, block: int, q: Request)
    requires Sound(world, c) && block <= c.head
    ensures var (d, r) := Read(world, script, c, block, q);
      Sound(world, d) && d.head >= c.head && (r.Ok? ==> AnsweredSince(world, q, r.value, block, d.head))
  {
    TurnedIsSound(world, script, c);
    var d := Turned(script, c);
    assert AnsweredSince(world, q, world(q, d.head), block, d.head);
  }

  ghost predicate AllAnsweredSince(world: World, qs: seq<Request>, answers: seq<Option<Body>>, block: int, head: int)
    requires |qs| == |answers|
  {
    forall i :: 0 <= i < |qs| && answers[i].Some? ==> AnsweredSince(world, qs[i], answers[i].value, block, head)
  }

  lemma {:induction false} ReadAllIsSound(world: World, script: Script, c: Client, block: int, qs: seq<Request>)
    requires Sound(world, c) && block <= c.head
    ensures var (d, r) := ReadAll(world, script, c, block, qs);
      Sound(world, d) && d.head >= c.head && (r.Ok? ==> AllAnsweredSince(world, qs, r.value, block, d.head))
    decreases |qs|
  {
    if qs != [] {
      var n := |qs| - 1;
      ReadAllIsSound(world, script, c, block, qs[..n]);
      var (d, earlier) := ReadAll(world, script, c, block, qs[..n]);
      if earlier.Ok? { ReadIsSound(world, script, d, block, qs[n]); }
    }
  }

  /** Answered at the block or later, and the block is still latest at the end: answered at the block. */
  lemma AnsweredAt(world: World, qs: seq<Request>, answers: seq<Option<Body>>, block: int, head: int, i: nat)
    requires |qs| == |answers| && AllAnsweredSince(world, qs, answers, block, head) && head <= block
    requires i < |qs| && answers[i].Some?
    ensures answers[i].value == world(qs[i], block)
  {
  }

  ghost predicate AllPresent(world: World, s: Snapshot) {
    && s.anchored.Keys == (set read | read in ALL_READS)
    && world(Anchored(Challenges), s.block).listed.Some?
    && s.tracks.Keys == set c | c in world(Anchored(Challenges), s.block).listed.value
  }

  /** Everything in it is what the server held while its block was latest, and a complete one is all there is. */
  ghost predicate IsConsistent(world: World, s: Snapshot) {
    && (forall read :: read in s.anchored ==> s.anchored[read] == world(Anchored(read), s.block))
    && (forall c :: c in s.tracks ==> s.tracks[c] == world(Tracks(c), s.block))
    && (Challenges in s.anchored ==> world(Anchored(Challenges), s.block).listed.Some?)
    && (s.readsComplete ==>
          AllPresent(world, s) && s == Frozen(world, s.block, world(Anchored(Challenges), s.block).listed.value))
  }

  /** The answers a snapshot was put together from, all of its block. */
  ghost predicate IsGathered(world: World, s: Snapshot, answers: seq<Option<Body>>, listed: seq<string>,
                             trackAnswers: seq<Option<Body>>) {
    && |answers| == |ALL_READS| && |trackAnswers| == |listed|
    && s.anchored == Gather(ALL_READS, answers).kept && s.tracks == Gather(listed, trackAnswers).kept
    && s.readsComplete == (Gather(ALL_READS, answers).complete && Gather(listed, trackAnswers).complete)
    && ListedIn(s.anchored) == Some(listed)
    && (forall i :: 0 <= i < |answers| && answers[i].Some? ==>
         answers[i].value == world(Anchored(ALL_READS[i]), s.block))
    && (forall i :: 0 <= i < |listed| && trackAnswers[i].Some? ==>
         trackAnswers[i].value == world(Tracks(listed[i]), s.block))
  }

  lemma GatheredIsConsistent(world: World, s: Snapshot, answers: seq<Option<Body>>, listed: seq<string>,
                             trackAnswers: seq<Option<Body>>)
    requires IsGathered(world, s, answers, listed, trackAnswers)
    ensures IsConsistent(world, s)
  {
    forall read | read in s.anchored ensures s.anchored[read] == world(Anchored(read), s.block) {
      KeptIsAnswered(ALL_READS, answers, read);
    }
    forall c | c in s.tracks ensures s.tracks[c] == world(Tracks(c), s.block) {
      KeptIsAnswered(listed, trackAnswers, c);
    }
    CompleteKeepsAll(ALL_READS, answers);
    CompleteKeepsAll(listed, trackAnswers);
    if s.readsComplete {
      assert ALL_READS[0] in s.anchored.Keys;
      var f := Frozen(world, s.block, listed);
      assert f.anchored.Keys == s.anchored.Keys && f.tracks.Keys == s.tracks.Keys;
      assert f.anchored == s.anchored && f.tracks == s.tracks;
    }
  }

  /** With no challenge listed twice, everything present means complete. */
  lemma PresentIsComplete(world: World, s: Snapshot, answers: seq<Option<Body>>, listed: seq<string>,
                          trackAnswers: seq<Option<Body>>)
    requires IsGathered(world, s, answers, listed, trackAnswers) && Distinct(listed) && AllPresent(world, s)
    ensures s.readsComplete
  {
    GatheredIsConsistent(world, s, answers, listed, trackAnswers);
    assert ALL_READS[0] in s.anchored.Keys;
    assert Distinct(ALL_READS);
    DistinctNeedsEach(ALL_READS, answers);
    DistinctNeedsEach(listed, trackAnswers);
  }

  /** What an accepted pass was put together from. */
  lemma PassGathers(world: World, script: Script, c: Client)
    returns (answers: seq<Option<Body>>, listed: seq<string>, trackAnswers: seq<Option<Body>>)
    requires Sound(world, c) && Pass(world, script, c).1.Ok?
    ensures IsGathered(world, Pass(world, script, c).1.value, answers, listed, trackAnswers)
    ensures Pass(world, script, c).1.value.block == Pass(world, script, c).0.head
  {
    var s := Pass(world, script, c).1.value;
    var (c1, opening) := Latest(script, c);
    TurnedIsSound(world, script, c);
    var (c2, first) := ReadAll(world, script, c1, s.block, AnchoredRequests());
    ReadAllIsSound(world, script, c1, s.block, AnchoredRequests());
    answers := first.value;
    listed := ListedIn(Gather(ALL_READS, answers).kept).value;
    var (c3, second) := ReadAll(world, script, c2, s.block, TrackRequests(listed));
    ReadAllIsSound(world, script, c2, s.block, TrackRequests(listed));
    trackAnswers := second.value;
    ReadsAreOfTheBlock(world, answers, s.block, c2.head);
    TracksAreOfTheBlock(world, listed, trackAnswers, s.block, c3.head);
  }

  lemma ReadsAreOfTheBlock(world: World, answers: seq<Option<Body>>, block: int, head: int)
    requires |answers| == |ALL_READS| && AllAnsweredSince(world, AnchoredRequests(), answers, block, head)
      && head <= block
    ensures forall i :: 0 <= i < |answers| && answers[i].Some? ==>
      answers[i].value == world(Anchored(ALL_READS[i]), block)
  {
    forall i | 0 <= i < |answers| && answers[i].Some? ensures answers[i].value == world(Anchored(ALL_READS[i]), block) {
      AnsweredAt(world, AnchoredRequests(), answers, block, head, i);
    }
  }

  lemma TracksAreOfTheBlock(world: World, listed: seq<string>, answers: seq<Option<Body>>, block: int, head: int)
    requires |answers| == |listed| && AllAnsweredSince(world, TrackRequests(listed), answers, block, head)
      && head <= block
    ensures forall i :: 0 <= i < |answers| && answers[i].Some? ==> answers[i].value == world(Tracks(listed[i]), block)
  {
    forall i | 0 <= i < |answers| && answers[i].Some? ensures answers[i].value == world(Tracks(listed[i]), block) {
      AnsweredAt(world, TrackRequests(listed), answers, block, head, i);
    }
  }

  /** For every schedule of advances, failures and cache hits, an accepted snapshot is consistent. */
  lemma PassIsConsistent(world: World, script: Script, c: Client)
    requires Sound(world, c) && Pass(world, script, c).1.Ok?
    ensures IsConsistent(world, Pass(world, script, c).1.value)
    ensures Pass(world, script, c).1.value.block == Pass(world, script, c).0.head
  {
    var answers, listed, trackAnswers := PassGathers(world, script, c);
    GatheredIsConsistent(world, Pass(world, script, c).1.value, answers, listed, trackAnswers);
  }

  // ------------------------------------------------------------ what failures do

  /** How many of the requests from `from` up to `to` failed. */
  ghost function Faults(script: Script, from: nat, to: nat): nat
    decreases to
  {
    if to <= from then 0 else Faults(script, from, to - 1) + if script(to - 1).fault.Some? then 1 else 0
  }

  /** Every one of them was answered, or the transport failed. */
  ghost predicate OnlyUnavailable(script: Script, from: nat, to: nat) {
    forall t: nat :: from <= t < to ==> script(t).fault == None || script(t).fault == Some(Unavailable)
  }

  ghost function Absent<V>(answers: seq<Option<V>>): nat {
    if answers == [] then 0
    else Absent(answers[..|answers| - 1]) + if answers[|answers| - 1].None? then 1 else 0
  }

  lemma {:induction false} FaultsSplit(script: Script, a: nat, b: nat, c: nat)
    requires a <= b <= c
    ensures Faults(script, a, c) == Faults(script, a, b) + Faults(script, b, c)
    decreases c
  {
    if b < c { FaultsSplit(script, a, b, c - 1); }
  }

  lemma {:induction false} GatherCounts<K(!new), V>(keys: seq<K>, answers: seq<Option<V>>)
    requires |keys| == |answers|
    ensures Gather(keys, answers).complete <==> Absent(answers) == 0
    ensures Distinct(keys) ==> |Gather(keys, answers).kept| + Absent(answers) == |keys|
    decreases |keys|
  {
    if keys != [] {
      var n := |keys| - 1;
      GatherCounts(keys[..n], answers[..n]);
      GatherMeaning(keys[..n], answers[..n]);
      var earlier := Gather(keys[..n], answers[..n]).kept;
      if Distinct(keys) {
        assert keys[n] !in earlier;
        if answers[n].Some? { NewKeyCounts(earlier, keys[n], answers[n].value); }
      }
    }
  }

  lemma NewKeyCounts<K, V>(m: map<K, V>, k: K, v: V)
    requires k !in m
    ensures |m[k := v]| == |m| + 1
  {
    assert m[k := v].Keys == m.Keys + {k};
  }

  /** A loop of reads loses one answer per transport failure, and stops at the first other failure. */
  lemma {:induction false} ReadAllMeets(world: World, script: Script, c: Client, block: int, qs: seq<Request>)
    ensures var (d, r) := ReadAll(world, script, c, block, qs);
      && d.clock >= c.clock
      && (r.Ok? ==> OnlyUnavailable(script, c.clock, d.clock) && Absent(r.value) == Faults(script, c.clock, d.clock))
      && (r.Err? ==>
            && d.clock > c.clock && OnlyUnavailable(script, c.clock, d.clock - 1)
            && r.error != Unavailable && script(d.clock - 1).fault == Some(r.error))
    decreases |qs|
  {
    if qs != [] {
      var n := |qs| - 1;
      ReadAllMeets(world, script, c, block, qs[..n]);
      var (d, earlier) := ReadAll(world, script, c, block, qs[..n]);
      if earlier.Ok? {
        var (e, r) := Read(world, script, d, block, qs[n]);
        var last: Option<Body> := if r.Ok? then Some(r.value) else None;
        assert (earlier.value + [last])[..n] == earlier.value;
      }
    }
  }

  lemma AnchoredMeets(world: World, script: Script, c: Client, block: int)
    ensures var (d, r) := ReadAll(world, script, c, block, AnchoredRequests());
      && d.clock >= c.clock
      && (r.Ok? ==>
            && OnlyUnavailable(script, c.clock, d.clock)
            && |Gather(ALL_READS, r.value).kept| + Faults(script, c.clock, d.clock) == 5
            && (Gather(ALL_READS, r.value).complete <==> Faults(script, c.clock, d.clock) == 0))
      && (r.Err? ==>
            && d.clock > c.clock && OnlyUnavailable(script, c.clock, d.clock - 1)
            && r.error != Unavailable && script(d.clock - 1).fault == Some(r.error))
  {
    ReadAllMeets(world, script, c, block, AnchoredRequests());
    var r := ReadAll(world, script, c, block, AnchoredRequests()).1;
    assert Distinct(ALL_READS);
    if r.Ok? { GatherCounts(ALL_READS, r.value); }
  }

  lemma TrackReadsMeet(world: World, script: Script, c: Client, block: int, listed: seq<string>)
    ensures var (d, r) := ReadAll(world, script, c, block, TrackRequests(listed));
      && d.clock >= c.clock
      && (r.Ok? ==>
            && OnlyUnavailable(script, c.clock, d.clock)
            && (Distinct(listed) ==> |Gather(listed, r.value).kept| + Faults(script, c.clock, d.clock) == |listed|)
            && (Gather(listed, r.value).complete <==> Faults(script, c.clock, d.clock) == 0))
      && (r.Err? ==>
            && d.clock > c.clock && OnlyUnavailable(script, c.clock, d.clock - 1)
            && r.error != Unavailable && script(d.clock - 1).fault == Some(r.error))
  {
    ReadAllMeets(world, script, c, block, TrackRequests(listed));
    var r := ReadAll(world, script, c, block, TrackRequests(listed)).1;
    if r.Ok? { GatherCounts(listed, r.value); }
  }

  /** The pass went through: the opening and the closing read answered, and between them only the transport failed. */
  ghost predicate WentThrough(script: Script, c: Client, d: Client) {
    && d.clock >= c.clock + 2
    && script(c.clock).fault == None
    && script(d.clock - 1).fault == None
    && OnlyUnavailable(script, c.clock, d.clock)
  }

  /** The challenge list of some block from the opening one on cannot be read. */
  ghost predicate ListIsUnreadable(world: World, from: int, to: int) {
    exists at :: from <= at <= to && world(Anchored(Challenges), at).listed.None?
  }

  /** Why a pass failed: its last request did, the list was unreadable, or the chain moved. */
  ghost predicate IsPassError(world: World, script: Script, c: Client, d: Client, e: Error) {
    match e
    case Failed(f) =>
      || (d.clock > c.clock && script(d.clock - 1).fault == Some(f) && OnlyUnavailable(script, c.clock, d.clock - 1))
      || (f == Shape && ListIsUnreadable(world, c.head + script(c.clock).advance, d.head))
    case BlockAdvanced(opening, closing) =>
      WentThrough(script, c, d) && opening == c.head + script(c.clock).advance && closing == d.head != opening
    case Outpaced(_) => false
  }

  /**
   * A pass is accepted exactly when its requests went through and the head is
   * where the opening found it; it is complete exactly when none failed.
   */
  lemma PassMeets(world: World, script: Script, c: Client)
    requires Sound(world, c)
    ensures Tells(world, script, c, Pass(world, script, c).0, Pass(world, script, c).1)
  {
    var (c1, opening) := Latest(script, c);
    TurnedIsSound(world, script, c);
    if opening.Ok? {
      var block := opening.value;
      var (c2, first) := ReadAll(world, script, c1, block, AnchoredRequests());
      ReadAllMeets(world, script, c1, block, AnchoredRequests());
      ReadAllIsSound(world, script, c1, block, AnchoredRequests());
      if first.Ok? {
        var anchored := Gather(ALL_READS, first.value);
        if ListedIn(anchored.kept).None? {
          UnreadableList(world, first.value, block, c2.head);
        } else {
          GatherCounts(ALL_READS, first.value);
          AfterAnchored(world, script, c, c1, block, c2, first.value, ListedIn(anchored.kept).value);
        }
      }
    }
  }

  // From the second loop on.
  lemma AfterAnchored(world: World, script: Script, c: Client, c1: Client, block: int, c2: Client,
                      answers: seq<Option<Body>>, listed: seq<string>)
    requires Latest(script, c) == (c1, Ok(block)) && |answers| == |ALL_READS|
    requires ReadAll(world, script, c1, block, AnchoredRequests()) == (c2, Ok(answers))
    requires ListedIn(Gather(ALL_READS, answers).kept) == Some(listed) && c2.clock >= c1.clock
    requires OnlyUnavailable(script, c1.clock, c2.clock)
    requires Gather(ALL_READS, answers).complete <==> Faults(script, c1.clock, c2.clock) == 0
    ensures Tells(world, script, c, Pass(world, script, c).0, Pass(world, script, c).1)
  {
    var c3, second := TracksMeet(world, script, c1, block, c2, listed);
    match second
    case Err(f) =>
      PassStopsIn(world, script, c, c1, block, c2, answers, listed, c3, f);
      StopMeets(world, script, c, c1, block, c2, c3, f);
    case Ok(trackAnswers) =>
      PassEndsIn(world, script, c, c1, block, c2, answers, listed, c3, trackAnswers);
      CloseMeets(world, script, c, c1, block, c2, c3, Gather(ALL_READS, answers), Gather(listed, trackAnswers));
  }

  lemma UnreadableList(world: World, answers: seq<Option<Body>>, block: int, head: int)
    requires |answers| == |ALL_READS| && AllAnsweredSince(world, AnchoredRequests(), answers, block, head)
    requires ListedIn(Gather(ALL_READS, answers).kept).None?
    ensures ListIsUnreadable(world, block, head)
  {
    KeptIsAnswered(ALL_READS, answers, Challenges);
    var i :| 0 <= i < |ALL_READS| && ALL_READS[i] == Challenges
      && answers[i] == Some(Gather(ALL_READS, answers).kept[Challenges]);
    assert AnsweredSince(world, AnchoredRequests()[i], answers[i].value, block, head);
  }

  /** What the answer of a pass says of the requests it made. */
  ghost predicate Tells(world: World, script: Script, c: Client, d: Client, r: Result<Snapshot, Error>) {
    match r
    case Ok(s) =>
      && WentThrough(script, c, d)
      && s.block == d.head == c.head + script(c.clock).advance
      && (s.readsComplete <==> Faults(script, c.clock, d.clock) == 0)
    case Err(e) => IsPassError(world, script, c, d, e)
  }

  // What the second loop meets, given what the first did.
  lemma TracksMeet(world: World, script: Script, c1: Client, block: int, c2: Client, listed: seq<string>)
    returns (c3: Client, second: Result<seq<Option<Body>>, Fault>)
    requires c1.clock <= c2.clock && OnlyUnavailable(script, c1.clock, c2.clock)
    ensures ReadAll(world, script, c2, block, TrackRequests(listed)) == (c3, second)
    ensures c2.clock <= c3.clock
    ensures second.Ok? ==>
      && |second.value| == |listed| && OnlyUnavailable(script, c2.clock, c3.clock)
      && (Gather(listed, second.value).complete <==> Faults(script, c2.clock, c3.clock) == 0)
    ensures second.Err? ==>
      && c2.clock < c3.clock && OnlyUnavailable(script, c2.clock, c3.clock - 1)
      && script(c3.clock - 1).fault == Some(second.error)
  {
    TrackReadsMeet(world, script, c2, block, listed);
    var (d, r) := ReadAll(world, script, c2, block, TrackRequests(listed));
    c3, second := d, r;
  }

  // The reads stop the pass.
  lemma StopMeets(world: World, script: Script, c: Client, c1: Client, block: int, c2: Client, c3: Client, f: Fault)
    requires Latest(script, c) == (c1, Ok(block)) && c1.clock <= c2.clock < c3.clock
    requires OnlyUnavailable(script, c1.clock, c2.clock)
    requires OnlyUnavailable(script, c2.clock, c3.clock - 1) && script(c3.clock - 1).fault == Some(f)
    ensures Tells(world, script, c, c3, Err(Failed(f)))
  {
    FaultIsPassError(world, script, c, c1, c2, c3, f);
  }

  lemma FaultIsPassError(world: World, script: Script, c: Client, c1: Client, c2: Client, d: Client, f: Fault)
    requires c1.clock == c.clock + 1 <= c2.clock && script(c.clock).fault == None
    requires OnlyUnavailable(script, c1.clock, c2.clock) && c2.clock < d.clock
    requires OnlyUnavailable(script, c2.clock, d.clock - 1) && script(d.clock - 1).fault == Some(f)
    ensures IsPassError(world, script, c, d, Failed(f))
  {
    forall t: nat | c.clock <= t < d.clock - 1
      ensures script(t).fault == None || script(t).fault == Some(Unavailable)
    {
      if t < c2.clock {
        if t > c.clock { assert c1.clock <= t < c2.clock; }
      } else {
        assert c2.clock <= t < d.clock - 1;
      }
    }
    assert OnlyUnavailable(script, c.clock, d.clock - 1);
  }

  lemma PassStopsIn(world: World, script: Script, c: Client, c1: Client, block: int, c2: Client,
                    answers: seq<Option<Body>>, listed: seq<string>, c3: Client, f: Fault)
    requires Latest(script, c) == (c1, Ok(block))
    requires ReadAll(world, script, c1, block, AnchoredRequests()) == (c2, Ok(answers)) && |answers| == |ALL_READS|
    requires ListedIn(Gather(ALL_READS, answers).kept) == Some(listed)
    requires ReadAll(world, script, c2, block, TrackRequests(listed)) == (c3, Err(f))
    ensures Pass(world, script, c) == (c3, Err(Failed(f)))
  {
  }

  lemma CloseMeets(world: World, script: Script, c: Client, c1: Client, block: int, c2: Client, c3: Client,
                   anchored: Gathered<AnchoredRead, Body>, tracks: Gathered<string, Body>)
    requires Latest(script, c) == (c1, Ok(block)) && c1.clock <= c2.clock <= c3.clock
    requires OnlyUnavailable(script, c1.clock, c2.clock) && OnlyUnavailable(script, c2.clock, c3.clock)
    requires anchored.complete <==> Faults(script, c1.clock, c2.clock) == 0
    requires tracks.complete <==> Faults(script, c2.clock, c3.clock) == 0
    ensures Tells(world, script, c, Close(script, c3, block, anchored, tracks).0,
                  Close(script, c3, block, anchored, tracks).1)
  {
    FaultsSplit(script, c.clock, c1.clock, c3.clock);
    FaultsSplit(script, c1.clock, c2.clock, c3.clock);
    assert Faults(script, c.clock, c1.clock) == 0;
    assert OnlyUnavailable(script, c.clock, c3.clock);
  }

  // ------------------------------------------------- when the flag is not exact

  /** Nothing fails from request `from` on, and the chain stands still. */
  ghost predicate Quiet(script: Script, from: nat) {
    forall t: nat {:trigger script(t)} :: (t >= from ==> script(t).fault.None?) && script(t).advance == 0
  }

  lemma QuietRead(world: World, script: Script, c: Client, block: int, q: Request)
    requires script(c.clock) == Turn(0, None)
    ensures var (d, r) := Read(world, script, c, block, q);
      r.Ok? && d.head == c.head && c.clock <= d.clock <= c.clock + 1
  {
  }

  /** With nothing failing, every read from place `i` on is answered. */
  lemma {:induction false} RestIsAnswered(world: World, script: Script, c: Client, block: int, qs: seq<Request>, i: nat,
                                          n: nat)
    requires i <= n <= |qs| && ReadAll(world, script, c, block, qs[..i]).1.Ok?
    requires Quiet(script, ReadAll(world, script, c, block, qs[..i]).0.clock)
    ensures var (d, r) := ReadAll(world, script, c, block, qs[..n]);
      var (b, early) := ReadAll(world, script, c, block, qs[..i]);
      && r.Ok? && d.head == b.head && d.clock >= b.clock
      && r.value[..i] == early.value && (forall k :: i <= k < n ==> r.value[k].Some?)
    decreases n - i
  {
    if n > i {
      RestIsAnswered(world, script, c, block, qs, i, n - 1);
      assert qs[..n][..n - 1] == qs[..n - 1];
      var d := ReadAll(world, script, c, block, qs[..n - 1]).0;
      assert script(d.clock) == Turn(0, None);
      QuietRead(world, script, d, block, qs[n - 1]);
    }
  }

  /** Distinct requests, none of them cached, each cost a request and are cached by it. */
  ghost predicate Uncached(c: Client, block: int, qs: seq<Request>) {
    forall i :: 0 <= i < |qs| ==> Cached(c, block, qs[i]).None?
  }

  lemma {:induction false} EachCostsARequest(world: World, script: Script, c: Client, block: int, qs: seq<Request>,
                                             n: nat)
    requires n <= |qs| && Distinct(qs) && Uncached(c, block, qs)
    requires forall t: nat :: c.clock <= t < c.clock + n ==> script(t) == Turn(0, None)
    ensures var (d, r) := ReadAll(world, script, c, block, qs[..n]);
      && r.Ok? && d.head == c.head && d.clock == c.clock + n
      && (forall k :: 0 <= k < n ==> r.value[k].Some?)
      && (forall k :: n <= k < |qs| ==> Cached(d, block, qs[k]).None?)
      && (forall q :: Cached(d, block, q).Some? ==> Cached(c, block, q).Some? || q in qs)
  {
    if n > 0 {
      EachCostsARequest(world, script, c, block, qs, n - 1);
      assert qs[..n][..n - 1] == qs[..n - 1];
      var d := ReadAll(world, script, c, block, qs[..n - 1]).0;
      assert script(d.clock) == Turn(0, None);
    } else {
      assert qs[..0] == [];
    }
  }

  /** The first place whose key comes again later. */
  lemma {:induction false} FirstRepeat<K>(keys: seq<K>, i: nat, j: nat) returns (a: nat, b: nat)
    requires i < j < |keys| && keys[i] == keys[j]
    ensures a < b < |keys| && keys[a] == keys[b] && Distinct(keys[..a + 1])
  {
    a, b := i, j;
    if !Distinct(keys[..i + 1]) {
      var x, y :| 0 <= x < y < i + 1 && keys[..i + 1][x] == keys[..i + 1][y];
      a, b := FirstRepeat(keys, x, y);
    }
  }

  function FailOnce(at: nat): Script {
    (t: nat) => Turn(0, if t == at then Some(Unavailable) else None)
  }

  /**
   * One track read of a repeated challenge fails, and nothing else does: every
   * track is kept, one answer is missing.
   */
  lemma OneTrackFails(world: World, c: Client, block: int, listed: seq<string>, a: nat, b: nat)
    requires a < b < |listed| && listed[a] == listed[b] && Distinct(listed[..a + 1])
    requires forall x: string :: Cached(c, block, Tracks(x)).None?
    ensures var (d, r) := ReadAll(world, FailOnce(c.clock + a), c, block, TrackRequests(listed));
      && r.Ok? && d.head == c.head && d.clock > c.clock + a
      && AllKept(listed, r.value) && !Gather(listed, r.value).complete
  {
    var script, qs := FailOnce(c.clock + a), TrackRequests(listed);
    var front := qs[..a + 1];
    DistinctRequests(listed, a + 1);
    EachCostsARequest(world, script, c, block, front, a);
    assert front[..a] == qs[..a];
    var (d, early) := ReadAll(world, script, c, block, qs[..a]);
    assert qs[..a + 1][..a] == qs[..a];
    assert Cached(d, block, qs[a]).None? by { assert front[a] == qs[a]; }
    var (e, some) := ReadAll(world, script, c, block, qs[..a + 1]);
    assert some == Ok(early.value + [None]) && e == Turned(script, d);
    RestIsAnswered(world, script, c, block, qs, a + 1, |qs|);
    assert qs[..|qs|] == qs;
    var answers := ReadAll(world, script, c, block, qs).1.value;
    assert answers[a] == answers[..a + 1][a];
    forall k | 0 <= k < |listed| && k != a ensures answers[k].Some? {
      if k < a { assert answers[k] == answers[..a + 1][k] == early.value[k]; }
    }
    RepeatHidesAFailure(listed, answers, a, b);
  }

  lemma DistinctRequests(listed: seq<string>, n: nat)
    requires n <= |listed| && Distinct(listed[..n])
    ensures Distinct(TrackRequests(listed)[..n])
  {
    var qs := TrackRequests(listed)[..n];
    forall i, j | 0 <= i < j < |qs| ensures qs[i] != qs[j] {
      assert listed[..n][i] != listed[..n][j];
    }
  }

  /** The five reads of a pass that nothing disturbs. */
  lemma QuietReads(world: World, script: Script, block: int)
    requires forall t: nat :: t < 6 ==> script(t) == Turn(0, None)
    ensures var c1 := Client(1, block, None);
      var (d, r) := ReadAll(world, script, c1, block, AnchoredRequests());
      && r.Ok? && d.head == block && d.clock == 6 && (forall k :: 0 <= k < 5 ==> r.value[k].Some?)
      && (forall x: string :: Cached(d, block, Tracks(x)).None?)
  {
    var qs := AnchoredRequests();
    assert Distinct(ALL_READS);
    assert Distinct(qs) by {
      forall i, j | 0 <= i < j < |qs| ensures qs[i] != qs[j] { assert ALL_READS[i] != ALL_READS[j]; }
    }
    EachCostsARequest(world, script, Client(1, block, None), block, qs, 5);
    assert qs[..5] == qs;
  }

  /**
   * With a challenge listed twice, there is an accepted snapshot that holds
   * every read and still counts as incomplete.
   */
  lemma RepeatedChallengeLooksIncomplete(world: World, block: int, listed: seq<string>) returns (script: Script)
    requires world(Anchored(Challenges), block).listed == Some(listed) && !Distinct(listed)
    ensures var r := Pass(world, script, Client(0, block, None)).1;
      r.Ok? && r.value.block == block && AllPresent(world, r.value) && !r.value.readsComplete
  {
    var i, j :| 0 <= i < j < |listed| && listed[i] == listed[j];
    var a, b := FirstRepeat(listed, i, j);
    script := FailOnce(6 + a);
    var c2, answers := OpeningReads(world, script, block, listed);
    var c3, trackAnswers := FailingTracks(world, c2, block, listed, a, b);
    var c := Client(0, block, None);
    PassEndsIn(world, script, c, Client(1, block, None), block, c2, answers, listed, c3, trackAnswers);
    ClosesAccepted(script, c3, block, Gather(ALL_READS, answers), Gather(listed, trackAnswers));
  }

  lemma OpeningReads(world: World, script: Script, block: int, listed: seq<string>)
    returns (c2: Client, answers: seq<Option<Body>>)
    requires world(Anchored(Challenges), block).listed == Some(listed)
    requires forall t: nat :: t < 6 ==> script(t) == Turn(0, None)
    ensures Latest(script, Client(0, block, None)) == (Client(1, block, None), Ok(block))
    ensures ReadAll(world, script, Client(1, block, None), block, AnchoredRequests()) == (c2, Ok(answers))
    ensures c2.head == block && c2.clock == 6 && forall x: string :: Cached(c2, block, Tracks(x)).None?
    ensures |answers| == |ALL_READS| && AllKept(ALL_READS, answers)
    ensures ListedIn(Gather(ALL_READS, answers).kept) == Some(listed)
  {
    QuietReads(world, script, block);
    var (d, first) := ReadAll(world, script, Client(1, block, None), block, AnchoredRequests());
    c2, answers := d, first.value;
    ReadsGiveTheList(world, script, block, listed, answers);
  }

  lemma FailingTracks(world: World, c2: Client, block: int, listed: seq<string>, a: nat, b: nat)
    returns (c3: Client, answers: seq<Option<Body>>)
    requires a < b < |listed| && listed[a] == listed[b] && Distinct(listed[..a + 1]) && c2.clock == 6
    requires forall x: string :: Cached(c2, block, Tracks(x)).None?
    ensures ReadAll(world, FailOnce(6 + a), c2, block, TrackRequests(listed)) == (c3, Ok(answers))
    ensures c3.head == c2.head && FailOnce(6 + a)(c3.clock) == Turn(0, None)
    ensures |answers| == |listed| && AllKept(listed, answers) && !Gather(listed, answers).complete
  {
    OneTrackFails(world, c2, block, listed, a, b);
    var (d, second) := ReadAll(world, FailOnce(6 + a), c2, block, TrackRequests(listed));
    c3, answers := d, second.value;
  }

  lemma PassEndsIn(world: World, script: Script, c: Client, c1: Client, block: int, c2: Client,
                   answers: seq<Option<Body>>,
                   listed: seq<string>, c3: Client, trackAnswers: seq<Option<Body>>)
    requires Latest(script, c) == (c1, Ok(block))
    requires ReadAll(world, script, c1, block, AnchoredRequests()) == (c2, Ok(answers)) && |answers| == |ALL_READS|
    requires ListedIn(Gather(ALL_READS, answers).kept) == Some(listed)
    requires ReadAll(world, script, c2, block, TrackRequests(listed)) == (c3, Ok(trackAnswers))
      && |trackAnswers| == |listed|
    ensures Pass(world, script, c) == Close(script, c3, block, Gather(ALL_READS, answers), Gather(listed, trackAnswers))
  {
  }

  lemma ClosesAccepted(script: Script, c: Client, block: int,
                       anchored: Gathered<AnchoredRead, Body>, tracks: Gathered<string, Body>)
    requires c.head == block && script(c.clock) == Turn(0, None)
    ensures Close(script, c, block, anchored, tracks).1 ==
      Ok(Snapshot(block, anchored.kept, tracks.kept, anchored.complete && tracks.complete))
  {
  }

  lemma ReadsGiveTheList(world: World, script: Script, block: int, listed: seq<string>, answers: seq<Option<Body>>)
    requires world(Anchored(Challenges), block).listed == Some(listed)
    requires var (d, r) := ReadAll(world, script, Client(1, block, None), block, AnchoredRequests());
      r == Ok(answers) && d.head == block && forall k :: 0 <= k < 5 ==> answers[k].Some?
    ensures |answers| == 5 && Gather(ALL_READS, answers).complete && AllKept(ALL_READS, answers)
    ensures ListedIn(Gather(ALL_READS, answers).kept) == Some(listed)
  {
    var d := ReadAll(world, script, Client(1, block, None), block, AnchoredRequests()).0;
    ReadAllIsSound(world, script, Client(1, block, None), block, AnchoredRequests());
    ReadsAreOfTheBlock(world, answers, block, d.head);
    GatherMeaning(ALL_READS, answers);
    CompleteKeepsAll(ALL_READS, answers);
    assert ALL_READS[0] in Gather(ALL_READS, answers).kept.Keys;
    KeptIsAnswered(ALL_READS, answers, Challenges);
  }

  /** In every run the flag of an accepted snapshot of `block` says whether everything is there. */
  ghost predicate FlagIsExactAt(world: World, block: int) {
    forall script: Script, c: Client ::
      Sound(world, c) && Pass(world, script, c).1.Ok? && Pass(world, script, c).1.value.block == block ==>
        (Pass(world, script, c).1.value.readsComplete <==> AllPresent(world, Pass(world, script, c).1.value))
  }

  /**
   * `reads_complete` means that all five reads and one track read per listed
   * challenge are present, in every run, exactly when the block's challenge
   * list names no challenge twice.
   */
  lemma CompleteIffAllPresent(world: World, block: int, listed: seq<string>)
    requires world(Anchored(Challenges), block).listed == Some(listed)
    ensures FlagIsExactAt(world, block) <==> Distinct(listed)
  {
    if Distinct(listed) {
      forall script: Script, c: Client
        | Sound(world, c) && Pass(world, script, c).1.Ok? && Pass(world, script, c).1.value.block == block
        ensures Pass(world, script, c).1.value.readsComplete <==> AllPresent(world, Pass(world, script, c).1.value)
      {
        FlagOfAPass(world, script, c, listed);
      }
    } else {
      var script := RepeatedChallengeLooksIncomplete(world, block, listed);
      assert Sound(world, Client(0, block, None));
    }
  }

  lemma FlagOfAPass(world: World, script: Script, c: Client, listed: seq<string>)
    requires Sound(world, c) && Pass(world, script, c).1.Ok? && Distinct(listed)
    requires world(Anchored(Challenges), Pass(world, script, c).1.value.block).listed == Some(listed)
    ensures Pass(world, script, c).1.value.readsComplete <==> AllPresent(world, Pass(world, script, c).1.value)
  {
    var s := Pass(world, script, c).1.value;
    var answers, list, trackAnswers := PassGathers(world, script, c);
    GatheredIsConsistent(world, s, answers, list, trackAnswers);
    if AllPresent(world, s) {
      assert ALL_READS[0] in s.anchored.Keys;
      PresentIsComplete(world, s, answers, list, trackAnswers);
    }
  }

  // ---------------------------------------------------------------- the source

  /** The read client with its per-block cache, in front of a server and a chain that moves. */
  class Source {
    const world: World
    const script: Script
    var clock: nat
    var head: int
    var cache: Option<Entry>

    constructor (world: World, script: Script, head: int)
      ensures this.world == world && this.script == script && Now() == Client(0, head, None)
    {
      this.world, this.script, this.head := world, script, head;
      clock, cache := 0, None;
    }

    function Now(): Client
      reads this
    {
      Client(clock, head, cache)
    }

    method GetBlock() returns (r: Result<int, Fault>)
      modifies this`clock, this`head
      ensures (Now(), r) == Latest(script, old(Now()))
      ensures clock == old(clock) + 1 && head == old(head) + script(old(clock)).advance
      ensures r == if script(old(clock)).fault.Some? then Err(script(old(clock)).fault.value) else Ok(head)
    {
      var turn := script(clock);
      clock, head := clock + 1, head + turn.advance;
      if turn.fault.Some? { return Err(turn.fault.value); }
      return Ok(head);
    }

    /** Replaces the whole entry when it is another block's. */
    method Put(block: int, q: Request, body: Body)
      modifies this`cache
      ensures Now() == Stored(old(Now()), block, q, body)
      ensures Cached(Now(), block, q) == Some(body)
      ensures old(cache).Some? && old(cache).value.block != block ==> cache == Some(Entry(block, map[q := body]))
    {
      if cache.Some? && cache.value.block == block {
        cache := Some(Entry(block, cache.value.responses[q := body]));
      } else {
        cache := Some(Entry(block, map[q := body]));
      }
    }

    /** A read named for `block`, from the cache when it holds one. */
    method Get(q: Request, block: int) returns (r: Result<Body, Fault>)
      modifies this
      ensures (Now(), r) == Read(world, script, old(Now()), block, q)
      ensures Sound(world, old(Now())) && block <= old(head) ==>
        Sound(world, Now()) && (r.Ok? ==> AnsweredSince(world, q, r.value, block, head))
      ensures if old(cache).Some? && old(cache).value.block == block && q in old(cache).value.responses then
                r == Ok(old(cache).value.responses[q]) && Now() == old(Now())
              else
                && clock == old(clock) + 1
                && head == old(head) + script(old(clock)).advance
                && (if script(old(clock)).fault.Some? then
                      r == Err(script(old(clock)).fault.value) && cache == old(cache)
                    else
                      r == Ok(world(q, head)) && cache == Some(Entry(block, (
                        if old(cache).Some? && old(cache).value.block == block then old(cache).value.responses
                        else map[])[q := world(q, head)])))
    {
      if Sound(world, Now()) && block <= head { ReadIsSound(world, script, Now(), block, q); }
      if cache.Some? && cache.value.block == block && q in cache.value.responses {
        return Ok(cache.value.responses[q]);
      }
      var turn := script(clock);
      clock, head := clock + 1, head + turn.advance;
      if turn.fault.Some? { return Err(turn.fault.value); }
      var body := world(q, head);
      Put(block, q, body);
      return Ok(body);
    }

    /** The five anchored reads, each kept or, if the transport failed, left out. */
    method ReadAnchored(block: int) returns (r: Result<Gathered<AnchoredRead, Body>, Fault>)
      modifies this
      ensures var (d, answers) := ReadAll(world, script, old(Now()), block, AnchoredRequests());
        Now() == d && r == (if answers.Ok? then Ok(Gather(ALL_READS, answers.value)) else Err(answers.error))
      ensures r.Ok? ==>
        && OnlyUnavailable(script, old(clock), clock)
        && |r.value.kept| + Faults(script, old(clock), clock) == 5
        && (r.value.complete <==> Faults(script, old(clock), clock) == 0)
      ensures r.Err? ==>
        && clock > old(clock) && OnlyUnavailable(script, old(clock), clock - 1)
        && r.error != Unavailable && script(clock - 1).fault == Some(r.error)
    {
      ghost var before := Now();
      r := ReadEachAnchored(ALL_READS, block);
      AnchoredMeets(world, script, before, block);
    }

    method ReadEachAnchored(kinds: seq<AnchoredRead>, block: int)
      returns (r: Result<Gathered<AnchoredRead, Body>, Fault>)
      modifies this
      ensures var (d, answers) := ReadAll(world, script, old(Now()), block, RequestsOf(kinds));
        Now() == d && r == (if answers.Ok? then Ok(Gather(kinds, answers.value)) else Err(answers.error))
    {
      ghost var qs, before := RequestsOf(kinds), Now();
      var kept, complete := map[], true;
      ghost var answers: seq<Option<Body>> := [];
      for i := 0 to |kinds|
        invariant ReadAll(world, script, before, block, qs[..i]) == (Now(), Ok(answers))
        invariant Gathered(kept, complete) == Gather(kinds[..i], answers)
      {
        var read := kinds[i];
        assert qs[..i + 1][..i] == qs[..i] && kinds[..i + 1] == kinds[..i] + [read];
        var got := Get(Anchored(read), block);
        match got {
          case Ok(body) =>
            GatherStep(kinds[..i], answers, read, Some(body));
            answers := answers + [Some(body)];
            kept := kept[read := body];
          case Err(e) =>
            if e != Unavailable {
              StopsThere(world, script, before, block, qs, i);
              return Err(e);
            }
            GatherStep(kinds[..i], answers, read, None);
            answers := answers + [None];
            complete := false;
        }
      }
      assert kinds[..|kinds|] == kinds && qs[..|qs|] == qs;
      r := Ok(Gathered(kept, complete));
    }

    /** One track read per listed challenge. */
    method ReadTracks(challenges: seq<string>, block: int) returns (r: Result<Gathered<string, Body>, Fault>)
      modifies this
      ensures var (d, answers) := ReadAll(world, script, old(Now()), block, TrackRequests(challenges));
        Now() == d && r == (if answers.Ok? then Ok(Gather(challenges, answers.value)) else Err(answers.error))
      ensures r.Ok? ==>
        && OnlyUnavailable(script, old(clock), clock)
        && (Distinct(challenges) ==> |r.value.kept| + Faults(script, old(clock), clock) == |challenges|)
        && (r.value.complete <==> Faults(script, old(clock), clock) == 0)
      ensures r.Err? ==>
        && clock > old(clock) && OnlyUnavailable(script, old(clock), clock - 1)
        && r.error != Unavailable && script(clock - 1).fault == Some(r.error)
    {
      ghost var before := Now();
      r := ReadEachTrack(challenges, block);
      TrackReadsMeet(world, script, before, block, challenges);
    }

    method ReadEachTrack(challenges: seq<string>, block: int) returns (r: Result<Gathered<string, Body>, Fault>)
      modifies this
      ensures var (d, answers) := ReadAll(world, script, old(Now()), block, TrackRequests(challenges));
        Now() == d && r == (if answers.Ok? then Ok(Gather(challenges, answers.value)) else Err(answers.error))
    {
      ghost var qs, before := TrackRequests(challenges), Now();
      var kept, complete := map[], true;
      ghost var answers: seq<Option<Body>> := [];
      for i := 0 to |challenges|
        invariant ReadAll(world, script, before, block, qs[..i]) == (Now(), Ok(answers))
        invariant Gathered(kept, complete) == Gather(challenges[..i], answers)
      {
        var c := challenges[i];
        assert qs[..i + 1][..i] == qs[..i] && challenges[..i + 1] == challenges[..i] + [c];
        var got := Get(Tracks(c), block);
        match got {
          case Ok(body) =>
            GatherStep(challenges[..i], answers, c, Some(body));
            answers := answers + [Some(body)];
            kept := kept[c := body];
          case Err(e) =>
            if e != Unavailable {
              StopsThere(world, script, before, block, qs, i);
              return Err(e);
            }
            GatherStep(challenges[..i], answers, c, None);
            answers := answers + [None];
            complete := false;
        }
      }
      assert challenges[..|challenges|] == challenges && qs[..|qs|] == qs;
      r := Ok(Gathered(kept, complete));
    }

    /** One pass: open, read everything for the opening block, and accept only if it is still latest. */
    method AssembleOnce() returns (r: Result<Snapshot, Error>)
      modifies this
      ensures (Now(), r) == Pass(world, script, old(Now()))
      ensures Sound(world, old(Now())) && r.Ok? ==> IsConsistent(world, r.value) && r.value.block == head
      ensures Sound(world, old(Now())) ==> Sound(world, Now())
      ensures Sound(world, old(Now())) ==> Tells(world, script, old(Now()), Now(), r)
      ensures r.Err? ==> !r.error.Outpaced?
    {
      ghost var before := Now();
      if Sound(world, before) { PassMeets(world, script, before); }
      if Sound(world, before) { PassKeepsSound(world, script, before); }
      if Sound(world, before) && Pass(world, script, before).1.Ok? { PassIsConsistent(world, script, before); }
      var opening := GetBlock();
      if opening.Err? { return Err(Failed(opening.error)); }
      var block := opening.value;
      var anchored := ReadAnchored(block);
      if anchored.Err? { return Err(Failed(anchored.error)); }
      var listed: seq<string> := [];
      if Challenges in anchored.value.kept {
        if anchored.value.kept[Challenges].listed.None? { return Err(Failed(Shape)); }
        listed := anchored.value.kept[Challenges].listed.value;
      }
      var tracks := ReadTracks(listed, block);
      if tracks.Err? { return Err(Failed(tracks.error)); }
      var closing := GetBlock();
      if closing.Err? { return Err(Failed(closing.error)); }
      if closing.value != block { return Err(BlockAdvanced(block, closing.value)); }
      return Ok(Snapshot(block, anchored.value.kept, tracks.value.kept, anchored.value.complete
          && tracks.value.complete));
    }

    /** Retry a pass the chain outran, at most `attempts` times; any other failure is final. */
    method Assemble(attempts: nat) returns (r: Result<Snapshot, Error>, ghost passes: seq<Result<Snapshot, Error>>)
      requires Sound(world, Now())
      modifies this
      ensures Sound(world, Now())
      ensures r.Ok? ==> IsConsistent(world, r.value) && r.value.block == head
      ensures |passes| <= attempts
      ensures forall i :: 0 <= i < |passes| - 1 ==> passes[i].Err? && Retryable(passes[i].error)
      ensures r == Err(Outpaced(attempts)) <==>
        |passes| == attempts && (forall i :: 0 <= i < attempts ==> passes[i].Err? && Retryable(passes[i].error))
      ensures r != Err(Outpaced(attempts)) ==> passes != [] && r == passes[|passes| - 1]
    {
      passes := [];
      for attempt := 0 to attempts
        invariant Sound(world, Now()) && |passes| == attempt
        invariant forall i :: 0 <= i < attempt ==> passes[i].Err? && Retryable(passes[i].error)
      {
        r := AssembleOnce();
        passes := passes + [r];
        assert passes[attempt] == r;
        if r.Ok? || (r.error != Failed(RefreshConflict) && !r.error.BlockAdvanced?) { return; }
      }
      r := Err(Outpaced(attempts));
    }
  }

  /** A failure that is not the transport's ends the reads where it happened. */
  lemma {:induction false} StopsThere(world: World, script: Script, c: Client, block: int, qs: seq<Request>, i: nat)
    requires i < |qs| && ReadAll(world, script, c, block, qs[..i + 1]).1.Err?
    ensures ReadAll(world, script, c, block, qs) == ReadAll(world, script, c, block, qs[..i + 1])
    decreases |qs|
  {
    if i + 1 == |qs| {
      assert qs[..i + 1] == qs;
    } else {
      var front := qs[..|qs| - 1];
      assert front[..i + 1] == qs[..i + 1];
      StopsThere(world, script, c, block, front, i);
    }
  }

  lemma PassKeepsSound(world: World, script: Script, c: Client)
    requires Sound(world, c)
    ensures Sound(world, Pass(world, script, c).0)
  {
    var (c1, opening) := Latest(script, c);
    TurnedIsSound(world, script, c);
    if opening.Ok? {
      ReadAllIsSound(world, script, c1, opening.value, AnchoredRequests());
      var (c2, first) := ReadAll(world, script, c1, opening.value, AnchoredRequests());
      if first.Ok? && ListedIn(Gather(ALL_READS, first.value).kept).Some? {
        var listed := ListedIn(Gather(ALL_READS, first.value).kept).value;
        ReadAllIsSound(world, script, c2, opening.value, TrackRequests(listed));
        TurnedIsSound(world, script, ReadAll(world, script, c2, opening.value, TrackRequests(listed)).0);
      }
    }
  }
}
