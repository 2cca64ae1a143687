/**
 * Remembering signed requests: the freshness check, the insert and the read
 * after a conflict are separate steps, so requests, clock and pruning
 * interleave freely between them.
 */
module Replay {
  const SKEW := 300
  const MEMORY := 86400

  datatype Key = Key(credential: string, request: string)

  /** The signed bytes: they commit to the key, the timestamp and everything else. */
  datatype Signed = Signed(key: Key, timestamp: int, rest: string)

  datatype Row = Row(bytes: Signed, seenAt: int)

  /** A request between two of its steps: found fresh, or refused by the unique key. */
  datatype Handler = Fresh(bytes: Signed, checkedAt: int) | Conflicted(bytes: Signed)

  /** An accepted request, and when the row it rests on was written. */
  datatype Accept = Accept(bytes: Signed, rowAt: int)

  datatype State = State(now: int, rows: map<Key, Row>, handlers: map<nat, Handler>, log: seq<Accept>)

  datatype Step =
    | Wait(seconds: nat)
    | Check(handler: nat, bytes: Signed)
    | Insert(handler: nat)
    | Read(handler: nat)
    | Prune(key: Key)

  function Distance(a: int, b: int): nat {
    if a < b then b - a else a - b
  }

  function Next(s: State, step: Step): State {
    match step
    case Wait(seconds) => s.(now := s.now + seconds)
    case Check(h, bytes) =>
      if Distance(s.now, bytes.timestamp) > SKEW then s else s.(handlers := s.handlers[h := Fresh(bytes, s.now)])
    case Insert(h) =>
      if h !in s.handlers || !s.handlers[h].Fresh? then s
      else
        var bytes := s.handlers[h].bytes;
        if bytes.key in s.rows then s.(handlers := s.handlers[h := Conflicted(bytes)])
        else
          s.(rows := s.rows[bytes.key := Row(bytes, s.now)], handlers := s.handlers - {h},
              log := s.log + [Accept(bytes, s.now)])
    case Read(h) =>
      if h !in s.handlers || !s.handlers[h].Conflicted? then s
      else
        var bytes := s.handlers[h].bytes;
        if bytes.key in s.rows && s.rows[bytes.key].bytes == bytes then
          s.(handlers := s.handlers - {h}, log := s.log + [Accept(bytes, s.rows[bytes.key].seenAt)])
        else
          s.(handlers := s.handlers - {h})
    case Prune(key) =>
      if key in s.rows && s.now >= s.rows[key].seenAt + MEMORY then s.(rows := s.rows - {key}) else s
  }

  function After(s: State, steps: seq<Step>): State {
    if steps == [] then s else Next(After(s, steps[..|steps| - 1]), steps[|steps| - 1])
  }

  function Begin(now: int): State {
    State(now, map[], map[], [])
  }

  // ------------------------------------------------------- one meaning per id

  /** The same row, or rows a full memory apart. */
  predicate OneRowOrApart(a: Accept, b: Accept) {
    (a == b) || a.rowAt + MEMORY <= b.rowAt || b.rowAt + MEMORY <= a.rowAt
  }

  /** Where an accepted request stands against what is remembered of its key now. */
  predicate Settled(s: State, a: Accept) {
    if a.bytes.key in s.rows then
      var row := s.rows[a.bytes.key];
      a == Accept(row.bytes, row.seenAt) || a.rowAt + MEMORY <= row.seenAt
    else
      a.rowAt + MEMORY <= s.now
  }

  predicate RowsInv(s: State) {
    && (forall k :: k in s.rows ==> s.rows[k].bytes.key == k && s.rows[k].seenAt <= s.now)
    && (forall i :: 0 <= i < |s.log| ==> Settled(s, s.log[i]))
  }

  predicate LogInv(s: State) {
    forall i, j :: 0 <= i < j < |s.log| && s.log[i].bytes.key == s.log[j].bytes.key ==>
      OneRowOrApart(s.log[i], s.log[j])
  }

  lemma StepKeepsInv(s: State, step: Step)
    requires RowsInv(s) && LogInv(s)
    ensures RowsInv(Next(s, step)) && LogInv(Next(s, step))
  {
    var t := Next(s, step);
    forall i | 0 <= i < |t.log| ensures Settled(t, t.log[i]) {
      if i < |s.log| {
        assert t.log[i] == s.log[i];
        assert Settled(s, s.log[i]);
      }
    }
    forall i, j | 0 <= i < j < |t.log| && t.log[i].bytes.key == t.log[j].bytes.key ensures OneRowOrApart(t.log[i],
        t.log[j]) {
      assert t.log[i] == s.log[i];
      if j < |s.log| {
        assert t.log[j] == s.log[j];
      } else {
        assert Settled(s, s.log[i]);
      }
    }
  }

  lemma {:induction false} RunKeepsInv(now: int, steps: seq<Step>)
    ensures RowsInv(After(Begin(now), steps)) && LogInv(After(Begin(now), steps))
  {
    if steps != [] {
      RunKeepsInv(now, steps[..|steps| - 1]);
      StepKeepsInv(After(Begin(now), steps[..|steps| - 1]), steps[|steps| - 1]);
    }
  }

  /** Two accepted requests that share an id are the same signed bytes, or rest on rows a day apart. */
  lemma IdMeansOneRequest(now: int, steps: seq<Step>, i: nat, j: nat)
    requires i < |After(Begin(now), steps).log| && j < |After(Begin(now), steps).log|
    requires After(Begin(now), steps).log[i].bytes.key == After(Begin(now), steps).log[j].bytes.key
    ensures var a, b := After(Begin(now), steps).log[i], After(Begin(now), steps).log[j];
      a.bytes == b.bytes || Distance(a.rowAt, b.rowAt) >= MEMORY
  {
    RunKeepsInv(now, steps);
    var log := After(Begin(now), steps).log;
    if i < j {
      assert OneRowOrApart(log[i], log[j]);
    } else if j < i {
      assert OneRowOrApart(log[j], log[i]);
    }
  }

  // ---------------------------------------------------- recorded at most once

  /** No insert comes more than `delay` seconds after its freshness check. */
  predicate Prompt(s: State, step: Step, delay: nat) {
    step.Insert? && step.handler in s.handlers && s.handlers[step.handler].Fresh? ==>
      s.now <= s.handlers[step.handler].checkedAt + delay
  }

  predicate AllPrompt(s: State, steps: seq<Step>, delay: nat) {
    steps == [] ||
    (AllPrompt(s, steps[..|steps| - 1], delay) && Prompt(After(s, steps[..|steps| - 1]), steps[|steps| - 1], delay))
  }

  predicate InWindow(bytes: Signed, at: int, delay: nat) {
    bytes.timestamp - SKEW <= at <= bytes.timestamp + SKEW + delay
  }

  predicate WindowsInv(s: State, delay: nat) {
    && (forall h :: h in s.handlers && s.handlers[h].Fresh? ==>
          InWindow(s.handlers[h].bytes, s.handlers[h].checkedAt, 0) && s.handlers[h].checkedAt <= s.now)
    && (forall k :: k in s.rows ==> InWindow(s.rows[k].bytes, s.rows[k].seenAt, delay))
    && (forall i :: 0 <= i < |s.log| ==> InWindow(s.log[i].bytes, s.log[i].rowAt, delay))
  }

  lemma {:induction false} RunKeepsWindows(now: int, steps: seq<Step>, delay: nat)
    requires AllPrompt(Begin(now), steps, delay)
    ensures WindowsInv(After(Begin(now), steps), delay)
  {
    if steps != [] {
      RunKeepsWindows(now, steps[..|steps| - 1], delay);
    }
  }

  /** A run that records the same signed bytes in two rows. */
  ghost predicate RecordsTwice(now: int, steps: seq<Step>) {
    exists i, j :: 0 <= i < j < |After(Begin(now), steps).log|
      && After(Begin(now), steps).log[i].bytes == After(Begin(now), steps).log[j].bytes
      && After(Begin(now), steps).log[i].rowAt != After(Begin(now), steps).log[j].rowAt
  }

  lemma RecordedOnce(now: int, steps: seq<Step>, delay: nat)
    requires AllPrompt(Begin(now), steps, delay) && delay + 2 * SKEW < MEMORY
    ensures !RecordsTwice(now, steps)
  {
    RunKeepsInv(now, steps);
    RunKeepsWindows(now, steps, delay);
    var log := After(Begin(now), steps).log;
    forall i, j | 0 <= i < j < |log| && log[i].bytes == log[j].bytes ensures log[i].rowAt == log[j].rowAt {
      assert OneRowOrApart(log[i], log[j]);
      assert InWindow(log[i].bytes, log[i].rowAt, delay) && InWindow(log[j].bytes, log[j].rowAt, delay);
    }
  }

  lemma AfterStep(s: State, steps: seq<Step>, step: Step, delay: nat)
    requires AllPrompt(s, steps, delay) && Prompt(After(s, steps), step, delay)
    ensures After(s, steps + [step]) == Next(After(s, steps), step) && AllPrompt(s, steps + [step], delay)
  {
    assert (steps + [step])[..|steps + [step]| - 1] == steps;
  }

  /** Checked and recorded at the start of its window, with the clock then at the end of it. */
  lemma RecordedEarly(delay: nat, bytes: Signed) returns (steps: seq<Step>)
    requires bytes.timestamp == SKEW
    ensures AllPrompt(Begin(0), steps, delay)
    ensures After(Begin(0), steps) == State(2 * SKEW, map[bytes.key := Row(bytes, 0)], map[], [Accept(bytes, 0)])
  {
    var none: seq<Step> := [];
    AfterStep(Begin(0), none, Check(0, bytes), delay);
    var one := none + [Check(0, bytes)];
    AfterStep(Begin(0), one, Insert(0), delay);
    var two := one + [Insert(0)];
    assert After(Begin(0), two).handlers == map[];
    AfterStep(Begin(0), two, Wait(2 * SKEW), delay);
    steps := two + [Wait(2 * SKEW)];
  }

  /** With that much delay one request is checked at both ends of its window and outlives its own row. */
  lemma SlowRequestIsRecordedTwice(delay: nat) returns (steps: seq<Step>)
    requires delay + 2 * SKEW >= MEMORY
    ensures AllPrompt(Begin(0), steps, delay) && RecordsTwice(0, steps)
  {
    var bytes := Signed(Key("c", "r"), SKEW, "");
    var three := RecordedEarly(delay, bytes);
    AfterStep(Begin(0), three, Check(1, bytes), delay);
    var four := three + [Check(1, bytes)];
    AfterStep(Begin(0), four, Wait(MEMORY - 2 * SKEW), delay);
    var five := four + [Wait(MEMORY - 2 * SKEW)];
    AfterStep(Begin(0), five, Prune(bytes.key), delay);
    var six := five + [Prune(bytes.key)];
    var s := After(Begin(0), six);
    assert bytes.key !in s.rows && s.handlers[1] == Fresh(bytes, 2 * SKEW) && s.now == MEMORY;
    AfterStep(Begin(0), six, Insert(1), delay);
    steps := six + [Insert(1)];
    var log := After(Begin(0), steps).log;
    assert log == [Accept(bytes, 0)] + [Accept(bytes, MEMORY)];
    assert log[0].bytes == log[1].bytes && log[0].rowAt != log[1].rowAt;
  }

  /**
   * A signed request is recorded in one row only, in every interleaving,
   * exactly when a request cannot wait the memory less the freshness window
   * between its check and its insert.
   */
  lemma RecordedOnceIffPrompt(delay: nat)
    ensures (forall now, steps :: AllPrompt(Begin(now), steps, delay) ==> !RecordsTwice(now, steps)) <==>
      delay + 2 * SKEW < MEMORY
  {
    if delay + 2 * SKEW < MEMORY {
      forall now, steps | AllPrompt(Begin(now), steps, delay) ensures !RecordsTwice(now, steps) {
        RecordedOnce(now, steps, delay);
      }
    } else {
      var steps := SlowRequestIsRecordedTwice(delay);
    }
  }

  // ------------------------------------------------------------- the two calls

  class Table {
    var rows: map<Key, Row>

    constructor ()
      ensures rows == map[]
    {
      rows := map[];
    }

    /** The insert and, if it conflicts, the read, with nothing between them. */
    method RecordAttempt(bytes: Signed, now: int, ghost s: State, ghost handler: nat) returns (accepted: bool)
      requires s.rows == rows && s.now == now && handler in s.handlers
      requires s.handlers[handler].Fresh? && s.handlers[handler].bytes == bytes
      modifies this
      ensures var t := Next(Next(s, Insert(handler)), Read(handler));
        rows == t.rows && accepted == (t.log != s.log)
      ensures accepted <==> bytes.key !in old(rows) || old(rows)[bytes.key].bytes == bytes
      ensures rows == if bytes.key in old(rows) then old(rows) else old(rows)[bytes.key := Row(bytes, now)]
    {
      assert forall a: Accept :: s.log + [a] != s.log by {
        forall a: Accept ensures s.log + [a] != s.log { assert |s.log + [a]| == |s.log| + 1; }
      }
      if bytes.key !in rows {
        rows := rows[bytes.key := Row(bytes, now)];
        return true;
      }
      return rows[bytes.key].bytes == bytes;
    }
  }
}
