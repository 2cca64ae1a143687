/**
 * Taking blocks in: the poll, ingestion with its gap record, reconciliation,
 * the cache warm-up and the deciding pass, as the ordered effects of one
 * poll. An error stops a poll after some of its effects; a crash does too,
 * and also forgets what the process held in memory.
 *
 * A block is named by its height: the chain's head only rises, and one
 * height has one block id.
 */
module Intake {
  import opened Wrappers

  /** One persisted assembly; usable when its reads are complete and the cache is ready. */
  datatype Row = Row(block: int, complete: bool, usable: bool)

  /** What the process remembers of the last block it reconciled. */
  datatype Seen = Seen(block: int, usable: bool, blocksClaiming: bool)

  datatype Entry =
    | Reconciliation(run: nat, block: int, blocksClaiming: bool)
    | Proposal(run: nat, block: int)

  /** `head`, `run` and `log` are what an observer sees; `last` is the process's memory. */
  datatype State = State(rows: set<Row>, gaps: set<int>, last: Option<Seen>, head: int, run: nat, log: seq<Entry>)

  const START := State({}, {}, None, 0, 0, [])

  /**
   * What one poll meets: the head at the poll and at the assembly, whether
   * the assembly succeeds and is complete, whether the cache then covers the
   * active set, whether reconciliation blocks claiming, and whether an offer
   * is configured and the pass's inputs could be gathered.
   */
  datatype Weather = Weather(
    poll: int, block: int, assembled: bool, complete: bool, covers: bool,
    blocksClaiming: bool, offered: bool, gathered: bool)

  datatype Effect =
    | RecordGaps(after: int, observed: int)
    | Persist(row: Row)
    | Reconcile(block: int, blocksClaiming: bool)
    | Remember(seen: Seen)
    | Propose(block: int)

  predicate Inside(h: int, after: int, observed: int) {
    after < h < observed
  }

  function Missing(after: int, observed: int): set<int> {
    set h | after < h < observed && Inside(h, after, observed)
  }

  function Apply(s: State, e: Effect): State {
    match e
    case RecordGaps(after, observed) => s.(gaps := s.gaps + Missing(after, observed))
    case Persist(row) => s.(rows := s.rows + {row})
    case Reconcile(block, blocks) => s.(log := s.log + [Reconciliation(s.run, block, blocks)])
    case Remember(seen) => s.(last := Some(seen))
    case Propose(block) => s.(log := s.log + [Proposal(s.run, block)])
  }

  function ApplyAll(s: State, es: seq<Effect>): State
    decreases |es|
  {
    if es == [] then s else ApplyAll(Apply(s, es[0]), es[1..])
  }

  predicate CompleteAt(rows: set<Row>, h: int) {
    exists r :: r in rows && r.complete && r.block == h
  }

  predicate UsableAt(rows: set<Row>, h: int) {
    exists r :: r in rows && r.usable && r.block == h
  }

  /** The greatest height with complete reads. */
  ghost predicate IsLastLocal(rows: set<Row>, last: Option<int>) {
    match last
    case None => forall r :: r in rows ==> !r.complete
    case Some(m) => CompleteAt(rows, m) && forall r :: r in rows && r.complete ==> r.block <= m
  }

  /** The reconciliation's answer to "may this pass claim work?" */
  datatype Reconciled = Ran(blocksClaiming: bool) | DidNotRun

  predicate ClaimingRefused(r: Reconciled) {
    r.DidNotRun? || r.blocksClaiming
  }

  function Deciding(block: int, usable: bool, r: Reconciled, w: Weather): seq<Effect> {
    if w.offered && !ClaimingRefused(r) && usable && w.gathered then [Propose(block)] else []
  }

  function GapEffects(last: Option<int>, observed: int): seq<Effect> {
    if last.Some? && observed > last.value + 1 then [RecordGaps(last.value, observed)] else []
  }

  /** Persisting the block, and, its reads complete, reconciling and deciding from it. */
  function TakingIn(w: Weather): seq<Effect> {
    var usable := w.complete && w.covers;
    [Persist(Row(w.block, w.complete, usable))]
    + (if w.complete then
         [Reconcile(w.block, w.blocksClaiming), Remember(Seen(w.block, usable, w.blocksClaiming))]
         + Deciding(w.block, usable, Ran(w.blocksClaiming), w)
       else [])
  }

  /** Ingestion and what follows it, with `last` the last local height read first. */
  function Ingesting(last: Option<int>, w: Weather): seq<Effect> {
    GapEffects(last, w.block) + TakingIn(w)
  }

  function WarmingUp(seen: Seen, w: Weather): seq<Effect> {
    if w.covers then
      [Persist(Row(seen.block, true, true)), Remember(seen.(usable := true))]
      + Deciding(seen.block, true, Ran(seen.blocksClaiming), w)
    else
      []
  }

  function Tick(s: State, w: Weather, last: Option<int>): seq<Effect> {
    if s.last.Some? && s.last.value.block == w.poll then
      if s.last.value.usable then [] else WarmingUp(s.last.value, w)
    else if UsableAt(s.rows, w.poll) || !w.assembled then
      []
    else
      Ingesting(last, w)
  }

  // -------------------------------------------------------------------- runs

  /** One poll, stopped after `kept` effects, by the process dying if `crashed`. */
  datatype Event = Event(weather: Weather, last: Option<int>, kept: nat, crashed: bool)

  ghost predicate Possible(s: State, e: Event) {
    && s.head <= e.weather.poll <= e.weather.block
    && IsLastLocal(s.rows, e.last)
  }

  function Kept(es: seq<Effect>, kept: nat): seq<Effect> {
    if kept < |es| then es[..kept] else es
  }

  function Step(s: State, e: Event): State {
    var after := ApplyAll(s.(head := e.weather.block), Kept(Tick(s, e.weather, e.last), e.kept));
    if e.crashed then after.(last := None, run := after.run + 1) else after
  }

  /** `states` is a run: it starts with nothing and every step is a possible poll. */
  ghost predicate IsRun(states: seq<State>, events: seq<Event>) {
    && |states| == |events| + 1
    && states[0] == START
    && (forall i :: 0 <= i < |events| ==> Possible(states[i], events[i]) && states[i + 1] == Step(states[i], events[i]))
  }
}

module IntakeSafety {
  import opened Wrappers
  import opened Intake

  // -------------------------------------------------------------- invariants

  ghost predicate ProposedIn(log: seq<Entry>, block: int) {
    exists i :: 0 <= i < |log| && log[i].Proposal? && log[i].block == block
  }

  ghost predicate ReconciledIn(log: seq<Entry>, run: nat, block: int, blocksClaiming: bool) {
    exists i :: 0 <= i < |log| && log[i] == Reconciliation(run, block, blocksClaiming)
  }

  /** A proposal is the block's first, after a reconciliation of it, in the same run, that blocked nothing. */
  ghost predicate ProposalIsSound(log: seq<Entry>, i: nat)
    requires i < |log| && log[i].Proposal?
  {
    && !ProposedIn(log[..i], log[i].block)
    && ReconciledIn(log[..i], log[i].run, log[i].block, false)
  }

  ghost predicate LogInv(s: State) {
    forall i :: 0 <= i < |s.log| && s.log[i].Proposal? ==>
      ProposalIsSound(s.log, i) && UsableAt(s.rows, s.log[i].block) && s.log[i].block <= s.head
  }

  ghost predicate MemoryInv(s: State) {
    s.last.Some? ==>
      && s.last.value.block <= s.head
      && CompleteAt(s.rows, s.last.value.block)
      && ReconciledIn(s.log, s.run, s.last.value.block, s.last.value.blocksClaiming)
      && (!s.last.value.usable ==> !ProposedIn(s.log, s.last.value.block))
  }

  ghost predicate HeightsInv(s: State) {
    && (forall r :: r in s.rows ==> r.block <= s.head && (r.usable ==> r.complete))
    && (forall h :: h in s.gaps ==> h < s.head && !CompleteAt(s.rows, h))
    && (forall a, h, b :: CompleteAt(s.rows, a) && a < h < b && CompleteAt(s.rows, b) && !CompleteAt(s.rows, h) ==>
          h in s.gaps)
  }

  ghost predicate Inv(s: State) {
    LogInv(s) && MemoryInv(s) && HeightsInv(s)
  }

  // ----------------------------------------------------------- fitting effects

  /** Every height a complete `block` would newly enclose is already a gap. */
  ghost predicate GapsReach(s: State, block: int) {
    forall a, h :: CompleteAt(s.rows, a) && a < h < block && !CompleteAt(s.rows, h) ==> h in s.gaps
  }

  ghost predicate Fits(s: State, e: Effect) {
    match e
    case RecordGaps(after, observed) =>
      && observed <= s.head
      && (forall r :: r in s.rows && r.complete ==> r.block <= after)
    case Persist(row) =>
      && row.block <= s.head
      && (row.usable ==> row.complete)
      && (row.complete ==> CompleteAt(s.rows, row.block) || (row.block == s.head && GapsReach(s, row.block)))
    case Reconcile(block, blocks) =>
      true
    case Remember(seen) =>
      && seen.block <= s.head
      && CompleteAt(s.rows, seen.block)
      && ReconciledIn(s.log, s.run, seen.block, seen.blocksClaiming)
      && !ProposedIn(s.log, seen.block)
    case Propose(block) =>
      && block <= s.head
      && UsableAt(s.rows, block)
      && ReconciledIn(s.log, s.run, block, false)
      && !ProposedIn(s.log, block)
      && s.last.Some?
      && s.last.value.block == block
      && s.last.value.usable
  }

  ghost predicate AllFit(s: State, es: seq<Effect>)
    decreases |es|
  {
    es == [] || (Fits(s, es[0]) && AllFit(Apply(s, es[0]), es[1..]))
  }

  lemma GapsKeepInv(s: State, after: int, observed: int)
    requires Inv(s) && Fits(s, RecordGaps(after, observed))
    ensures Inv(Apply(s, RecordGaps(after, observed)))
  {
  }

  lemma PersistKeepsInv(s: State, row: Row)
    requires Inv(s) && Fits(s, Persist(row))
    ensures Inv(Apply(s, Persist(row)))
  {
    var t := Apply(s, Persist(row));
    forall h ensures CompleteAt(t.rows, h) <==> CompleteAt(s.rows, h) || (row.complete && h == row.block) {
      if CompleteAt(s.rows, h) {
        var r :| r in s.rows && r.complete && r.block == h;
        assert r in t.rows;
      }
      if row.complete && h == row.block { assert row in t.rows; }
    }
    forall h | UsableAt(s.rows, h) ensures UsableAt(t.rows, h) {
      var r :| r in s.rows && r.usable && r.block == h;
      assert r in t.rows;
    }
    PersistKeepsHeights(s, row, t);
  }

  lemma PersistKeepsHeights(s: State, row: Row, t: State)
    requires HeightsInv(s) && Fits(s, Persist(row)) && t == Apply(s, Persist(row))
    requires forall h :: CompleteAt(t.rows, h) <==> CompleteAt(s.rows, h) || (row.complete && h == row.block)
    ensures HeightsInv(t)
  {
    forall a, h, b | CompleteAt(t.rows, a) && a < h < b && CompleteAt(t.rows, b) && !CompleteAt(t.rows, h)
      ensures h in t.gaps
    {
      assert CompleteAt(s.rows, a) || a == row.block;
      assert CompleteAt(s.rows, b) || b == row.block;
      assert !CompleteAt(s.rows, h);
    }
    forall h | h in t.gaps ensures h < t.head && !CompleteAt(t.rows, h) {
      assert h in s.gaps;
    }
  }

  lemma LogGrows(log: seq<Entry>, entry: Entry)
    ensures forall run, block, blocks :: ReconciledIn(log, run, block, blocks) ==>
      ReconciledIn(log + [entry], run, block, blocks)
    ensures forall block :: ProposedIn(log + [entry], block) <==>
      ProposedIn(log, block) || (entry.Proposal? && entry.block == block)
    ensures entry.Reconciliation? ==> ReconciledIn(log + [entry], entry.run, entry.block, entry.blocksClaiming)
  {
    var after := log + [entry];
    assert after[|log|] == entry;
    forall run, block, blocks | ReconciledIn(log, run, block, blocks) ensures ReconciledIn(after, run, block, blocks) {
      var i :| 0 <= i < |log| && log[i] == Reconciliation(run, block, blocks);
      assert after[i] == log[i];
    }
    forall block | ProposedIn(log, block) ensures ProposedIn(after, block) {
      var i :| 0 <= i < |log| && log[i].Proposal? && log[i].block == block;
      assert after[i] == log[i];
    }
  }

  lemma EarlierProposalsStaySound(s: State, entry: Entry, i: nat)
    requires LogInv(s) && i < |s.log| && s.log[i].Proposal?
    ensures (s.log + [entry])[i] == s.log[i] && ProposalIsSound(s.log + [entry], i)
  {
    assert (s.log + [entry])[..i] == s.log[..i];
  }

  lemma LoggingKeepsInv(s: State, e: Effect)
    requires Inv(s) && Fits(s, e) && (e.Reconcile? || e.Propose?)
    ensures Inv(Apply(s, e))
  {
    var t := Apply(s, e);
    var entry := t.log[|s.log|];
    LogGrows(s.log, entry);
    forall i | 0 <= i < |t.log| && t.log[i].Proposal?
      ensures ProposalIsSound(t.log, i) && UsableAt(t.rows, t.log[i].block) && t.log[i].block <= t.head
    {
      if i < |s.log| {
        EarlierProposalsStaySound(s, entry, i);
      } else {
        assert t.log[..i] == s.log;
      }
    }
  }

  lemma FittingKeepsInv(s: State, e: Effect)
    requires Inv(s) && Fits(s, e)
    ensures Inv(Apply(s, e))
  {
    match e
    case RecordGaps(after, observed) => GapsKeepInv(s, after, observed);
    case Persist(row) => PersistKeepsInv(s, row);
    case Reconcile(block, blocks) => LoggingKeepsInv(s, e);
    case Remember(seen) =>
    case Propose(block) => LoggingKeepsInv(s, e);
  }

  lemma {:induction false} AllFittingKeepInv(s: State, es: seq<Effect>, kept: nat)
    requires Inv(s) && AllFit(s, es)
    ensures Inv(ApplyAll(s, Kept(es, kept)))
    decreases |es|
  {
    if es != [] && kept > 0 {
      FittingKeepsInv(s, es[0]);
      AllFittingKeepInv(Apply(s, es[0]), es[1..], kept - 1);
      assert Kept(es, kept)[1..] == Kept(es[1..], kept - 1);
    }
  }

  // --------------------------------------------------------- the poll's effects

  /** A block the poll is about to ingest was never proposed, nor did a gap or row pass it. */
  lemma FreshBlock(s: State, w: Weather)
    requires Inv(s) && s.head <= w.poll <= w.block && !UsableAt(s.rows, w.poll)
    ensures !ProposedIn(s.log, w.block)
  {
  }

  lemma HeadRises(s: State, head: int)
    requires Inv(s) && s.head <= head
    ensures Inv(s.(head := head))
  {
  }

  lemma WarmingUpFits(s: State, seen: Seen, w: Weather)
    requires Inv(s) && s.last == Some(seen) && !seen.usable
    ensures AllFit(s, WarmingUp(seen, w))
  {
    if w.covers {
      var row := Row(seen.block, true, true);
      var s1 := Apply(s, Persist(row));
      assert row in s1.rows;
      var s2 := Apply(s1, Remember(seen.(usable := true)));
      var es := WarmingUp(seen, w);
      var tail := Deciding(seen.block, true, Ran(seen.blocksClaiming), w);
      assert es[1..][1..] == tail;
      assert tail == [] || tail == [Propose(seen.block)];
      assert AllFit(s2, tail);
      assert es[1..][0] == Remember(seen.(usable := true));
      assert AllFit(s1, es[1..]);
      assert es[0] == Persist(row);
    }
  }

  lemma DecidingFits(s: State, w: Weather, usable: bool)
    requires s.last == Some(Seen(w.block, usable, w.blocksClaiming)) && w.block <= s.head
    requires usable ==> UsableAt(s.rows, w.block)
    requires ReconciledIn(s.log, s.run, w.block, w.blocksClaiming) && !ProposedIn(s.log, w.block)
    ensures AllFit(s, Deciding(w.block, usable, Ran(w.blocksClaiming), w))
  {
    var es := Deciding(w.block, usable, Ran(w.blocksClaiming), w);
    assert es == [] || (es == [Propose(w.block)] && es[1..] == []);
  }

  /** From the persist on: gaps reach the block, and nothing proposed it. */
  lemma TakingInFits(s: State, w: Weather)
    requires Inv(s) && s.head == w.block && !ProposedIn(s.log, w.block) && GapsReach(s, w.block)
    ensures AllFit(s, TakingIn(w))
  {
    var es := TakingIn(w);
    var usable := w.complete && w.covers;
    var s1 := Apply(s, es[0]);
    if w.complete {
      assert Row(w.block, true, usable) in s1.rows;
      var s2 := Apply(s1, Reconcile(w.block, w.blocksClaiming));
      LogGrows(s.log, Reconciliation(s.run, w.block, w.blocksClaiming));
      var s3 := Apply(s2, Remember(Seen(w.block, usable, w.blocksClaiming)));
      DecidingFits(s3, w, usable);
      assert es[1..][0] == Reconcile(w.block, w.blocksClaiming);
      assert es[1..][1..][0] == Remember(Seen(w.block, usable, w.blocksClaiming));
      assert es[1..][1..][1..] == Deciding(w.block, usable, Ran(w.blocksClaiming), w);
      assert AllFit(s2, es[1..][1..]);
      assert AllFit(s1, es[1..]);
    } else {
      assert es[1..] == [];
    }
  }

  /** With the gaps up to it recorded, the new block encloses nothing unrecorded. */
  lemma GapsReachTheBlock(s: State, last: Option<int>, block: int)
    requires Inv(s) && IsLastLocal(s.rows, last) && block == s.head
    ensures GapsReach(ApplyAll(s, GapEffects(last, block)), block)
    ensures last.Some? ==> last.value <= block
  {
    var t := ApplyAll(s, GapEffects(last, block));
    if last.Some? {
      var r :| r in s.rows && r.complete && r.block == last.value;
      OneOrNone(s, GapEffects(last, block));
      forall a, h | CompleteAt(t.rows, a) && a < h < block && !CompleteAt(t.rows, h) ensures h in t.gaps {
        if h < last.value { assert CompleteAt(s.rows, last.value); }
      }
    }
  }

  lemma OneOrNone(s: State, es: seq<Effect>)
    requires |es| <= 1
    ensures ApplyAll(s, es) == if es == [] then s else Apply(s, es[0])
  {
    if es != [] { assert es[1..] == []; }
  }

  lemma IngestingFits(s: State, last: Option<int>, w: Weather)
    requires Inv(s) && s.head == w.block && IsLastLocal(s.rows, last) && !ProposedIn(s.log, w.block)
    ensures AllFit(s, Ingesting(last, w))
  {
    var gaps := GapEffects(last, w.block);
    var es := Ingesting(last, w);
    GapsReachTheBlock(s, last, w.block);
    OneOrNone(s, gaps);
    if gaps == [] {
      TakingInFits(s, w);
      assert es == TakingIn(w);
    } else {
      GapsKeepInv(s, last.value, w.block);
      TakingInFits(Apply(s, gaps[0]), w);
      assert es[1..] == TakingIn(w) && es[0] == gaps[0];
    }
  }

  lemma StepKeepsInv(s: State, e: Event)
    requires Inv(s) && Possible(s, e)
    ensures Inv(Step(s, e))
  {
    var w := e.weather;
    var t := s.(head := w.block);
    HeadRises(s, w.block);
    var es := Tick(s, w, e.last);
    if s.last.Some? && s.last.value.block == w.poll {
      if !s.last.value.usable { WarmingUpFits(t, s.last.value, w); }
    } else if !UsableAt(s.rows, w.poll) && w.assembled {
      FreshBlock(s, w);
      IngestingFits(t, e.last, w);
    }
    AllFittingKeepInv(t, es, e.kept);
  }

  lemma {:induction false} RunKeepsInv(states: seq<State>, events: seq<Event>, i: nat)
    requires IsRun(states, events) && i < |states|
    ensures Inv(states[i])
  {
    if i > 0 {
      RunKeepsInv(states, events, i - 1);
      StepKeepsInv(states[i - 1], events[i - 1]);
    }
  }

  // ---------------------------------------------------------------- theorems

  /** Across any crashes and restarts, no block is proposed twice. */
  lemma EachBlockProposedOnce(states: seq<State>, events: seq<Event>, n: nat, i: nat, j: nat)
    requires IsRun(states, events) && n < |states| && i < j < |states[n].log|
    requires states[n].log[i].Proposal? && states[n].log[j].Proposal?
    ensures states[n].log[i].block != states[n].log[j].block
  {
    RunKeepsInv(states, events, n);
    var log := states[n].log;
    assert ProposalIsSound(log, j);
    assert log[..j][i] == log[i];
  }

  /** A proposal follows, in its own process run, a reconciliation of its block that did not block claiming. */
  lemma ProposalFollowsReconciliation(states: seq<State>, events: seq<Event>, n: nat, i: nat) returns (j: nat)
    requires IsRun(states, events) && n < |states| && i < |states[n].log| && states[n].log[i].Proposal?
    ensures j < i && states[n].log[j] == Reconciliation(states[n].log[i].run, states[n].log[i].block, false)
  {
    RunKeepsInv(states, events, n);
    var log := states[n].log;
    assert ProposalIsSound(log, i);
    j :| 0 <= j < |log[..i]| && log[..i][j] == Reconciliation(log[i].run, log[i].block, false);
  }

  /** Between two completely observed heights, each is completely observed or a recorded gap, and no gap is observed. */
  lemma EveryHeightIsAccountedFor(states: seq<State>, events: seq<Event>, n: nat, a: int, h: int, b: int)
    requires IsRun(states, events) && n < |states|
    requires a < h < b && CompleteAt(states[n].rows, a) && CompleteAt(states[n].rows, b)
    ensures CompleteAt(states[n].rows, h) != (h in states[n].gaps)
  {
    RunKeepsInv(states, events, n);
  }

  // ----------------------------------------------------------------- warm-up

  /** What an uninterrupted poll leaves of a remembered block its cache now covers. */
  ghost predicate WarmedUp(s: State, s': State, seen: Seen, proposed: bool) {
    && s'.rows == s.rows + {Row(seen.block, true, true)}
    && s'.gaps == s.gaps
    && s'.last == Some(Seen(seen.block, true, seen.blocksClaiming))
    && s'.run == s.run
    && s'.log == s.log + (if proposed then [Proposal(s.run, seen.block)] else [])
  }

  /** What an uninterrupted poll leaves of a block it takes in. */
  ghost predicate TakenIn(s: State, s': State, last: Option<int>, w: Weather, proposed: bool) {
    && s'.rows == s.rows + {Row(w.block, w.complete, w.complete && w.covers)}
    && (forall h :: h in s'.gaps <==> h in s.gaps || (last.Some? && last.value < h < w.block))
    && s'.last == (if w.complete then Some(Seen(w.block, w.covers, w.blocksClaiming)) else s.last)
    && s'.run == s.run
    && s'.log == s.log + (if w.complete then [Reconciliation(s.run, w.block, w.blocksClaiming)] else [])
                 + (if proposed then [Proposal(s.run, w.block)] else [])
  }

  lemma ApplyTwo(s: State, a: Effect, b: Effect, rest: seq<Effect>)
    ensures ApplyAll(s, [a, b] + rest) == ApplyAll(Apply(Apply(s, a), b), rest)
  {
    var es := [a, b] + rest;
    assert es[1..] == [b] + rest && es[1..][1..] == rest;
  }

  lemma WarmingUpDoes(s: State, seen: Seen, w: Weather)
    requires w.covers
    ensures WarmedUp(s, ApplyAll(s, WarmingUp(seen, w)), seen, w.offered && w.gathered && !seen.blocksClaiming)
    ensures |WarmingUp(seen, w)| <= 3
  {
    var tail := Deciding(seen.block, true, Ran(seen.blocksClaiming), w);
    ApplyTwo(s, Persist(Row(seen.block, true, true)), Remember(seen.(usable := true)), tail);
    OneOrNone(Apply(Apply(s, Persist(Row(seen.block, true, true))), Remember(seen.(usable := true))), tail);
  }

  lemma TakingInDoes(s: State, w: Weather)
    ensures TakenIn(s, ApplyAll(s, TakingIn(w)), None, w,
                    w.complete && w.covers && w.offered && w.gathered && !w.blocksClaiming)
    ensures |TakingIn(w)| <= 4
  {
    var es := TakingIn(w);
    var s1 := Apply(s, es[0]);
    if w.complete {
      var tail := Deciding(w.block, w.covers, Ran(w.blocksClaiming), w);
      assert es[1..] == [es[1], es[2]] + tail;
      ApplyTwo(s1, es[1], es[2], tail);
      OneOrNone(Apply(Apply(s1, es[1]), es[2]), tail);
    } else {
      assert es[1..] == [];
    }
  }

  lemma IngestingDoes(s: State, last: Option<int>, w: Weather)
    ensures TakenIn(s, ApplyAll(s, Ingesting(last, w)), last, w,
                    w.complete && w.covers && w.offered && w.gathered && !w.blocksClaiming)
    ensures |Ingesting(last, w)| <= 5
  {
    var es := Ingesting(last, w);
    if GapEffects(last, w.block) == [] {
      assert es == TakingIn(w);
      TakingInDoes(s, w);
    } else {
      assert es[1..] == TakingIn(w);
      TakingInDoes(Apply(s, es[0]), w);
    }
  }

  /** The poll found the head where it was, and its cache did not cover the block, or it did nothing. */
  predicate Waits(e: Event, block: int) {
    e.weather.poll == block && !e.crashed && (!e.weather.covers || e.kept == 0)
  }

  lemma {:induction false} WaitingRemembers(states: seq<State>, events: seq<Event>, m: nat, n: nat, seen: Seen)
    requires IsRun(states, events) && m <= n < |states|
    requires states[m].last == Some(seen) && !seen.usable
    requires forall i :: m <= i < n ==> Waits(events[i], seen.block)
    ensures states[n].last == Some(seen) && states[n].log == states[m].log && states[n].run == states[m].run
    decreases n
  {
    if m < n {
      WaitingRemembers(states, events, m, n - 1, seen);
      var s, e := states[n - 1], events[n - 1];
      assert states[n] == Step(s, e) && Waits(e, seen.block);
      assert Kept(Tick(s, e.weather, e.last), e.kept) == [];
    }
  }

  /**
   * A reconciled block is not lost to a cold cache: however many polls find it
   * uncovered, the uninterrupted one that covers it at the same head makes it
   * usable and, with an offer, its inputs and nothing blocking, proposes it.
   */
  lemma WarmUpIsDecided(states: seq<State>, events: seq<Event>, m: nat, n: nat, seen: Seen)
    requires IsRun(states, events) && m <= n < |events|
    requires states[m].last == Some(seen) && !seen.usable
    requires forall i :: m <= i < n ==> Waits(events[i], seen.block)
    requires events[n].weather.poll == seen.block && events[n].weather.covers
    requires !events[n].crashed && events[n].kept >= 3
    ensures ReconciledIn(states[n].log, states[n].run, seen.block, seen.blocksClaiming)
    ensures UsableAt(states[n + 1].rows, seen.block)
    ensures states[n + 1].last == Some(Seen(seen.block, true, seen.blocksClaiming))
    ensures states[n + 1].log == states[n].log
      + if events[n].weather.offered && events[n].weather.gathered && !seen.blocksClaiming
        then [Proposal(states[n].run, seen.block)] else []
  {
    WaitingRemembers(states, events, m, n, seen);
    RunKeepsInv(states, events, n);
    var s, w := states[n], events[n].weather;
    assert states[n + 1] == Step(s, events[n]);
    var t := s.(head := w.block);
    WarmingUpDoes(t, seen, w);
    assert Kept(Tick(s, w, events[n].last), events[n].kept) == WarmingUp(seen, w);
    assert Row(seen.block, true, true) in states[n + 1].rows;
  }

  /** A poll takes the block in: another block than the remembered one, and no usable row of it. */
  ghost predicate TakesIn(s: State, w: Weather) {
    && w.assembled
    && (s.last.None? || s.last.value.block != w.poll)
    && (forall r :: r in s.rows ==> !(r.usable && r.block == w.poll))
  }

  /** An uninterrupted poll that takes a complete block in is remembered with its reconciliation. */
  lemma TakenInIsRemembered(states: seq<State>, events: seq<Event>, n: nat)
    requires IsRun(states, events) && n < |events| && TakesIn(states[n], events[n].weather)
    requires !events[n].crashed && events[n].kept >= 5
    ensures var w := events[n].weather;
      TakenIn(states[n], states[n + 1], events[n].last, w,
              w.complete && w.covers && w.offered && w.gathered && !w.blocksClaiming)
  {
    var s, w := states[n], events[n].weather;
    IngestingDoes(s.(head := w.block), events[n].last, w);
    assert states[n + 1] == Step(s, events[n]);
    assert Kept(Tick(s, w, events[n].last), events[n].kept) == Ingesting(events[n].last, w);
  }
}
