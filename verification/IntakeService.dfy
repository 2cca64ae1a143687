/**
 * The controller's poll as it runs: each effect is one method, the journal
 * lists them in the order they were made, and a poll makes exactly the
 * effects `Intake.Tick` lists, in that order.
 */
module IntakeService {
  import opened Wrappers
  import opened Intake
  import opened IntakeSafety

  datatype Answer =
    | Unchanged
    | AlreadyIngested
    | NotAssembled
    | CacheAdvanced(nowUsable: bool, proposed: bool)
    | Ingested(reconciled: bool, proposed: bool)

  lemma ApplyOneMore(s: State, es: seq<Effect>, e: Effect)
    ensures ApplyAll(s, es + [e]) == Apply(ApplyAll(s, es), e)
    decreases |es|
  {
    if es == [] {
      assert [] + [e] == [e] && [e][1..] == [];
    } else {
      assert (es + [e])[1..] == es[1..] + [e];
      ApplyOneMore(Apply(s, es[0]), es[1..], e);
    }
  }

  class Service {
    var rows: set<Row>
    var gaps: set<int>
    var last: Option<Seen>
    ghost var head: int
    ghost var run: nat
    ghost var log: seq<Entry>
    ghost var journal: seq<Effect>

    constructor ()
      ensures Now() == START && journal == []
    {
      rows, gaps, last, head, run, log, journal := {}, {}, None, 0, 0, [], [];
    }

    ghost function Now(): State
      reads this
    {
      State(rows, gaps, last, head, run, log)
    }

    /** From `before`, with `done` in the journal, exactly the effects `es` were made. */
    ghost predicate Made(before: State, done: seq<Effect>, es: seq<Effect>)
      reads this
    {
      Now() == ApplyAll(before, es) && journal == done + es
    }

    method RecordBlockGap(after: int, observed: int)
      modifies this
      ensures Now() == Apply(old(Now()), RecordGaps(after, observed))
      ensures journal == old(journal) + [RecordGaps(after, observed)]
      ensures forall h :: h in gaps <==> h in old(gaps) || after < h < observed
    {
      gaps := gaps + Missing(after, observed);
      journal := journal + [RecordGaps(after, observed)];
    }

    method PersistRow(row: Row)
      modifies this
      ensures Now() == Apply(old(Now()), Persist(row))
      ensures journal == old(journal) + [Persist(row)]
    {
      rows := rows + {row};
      journal := journal + [Persist(row)];
    }

    method ReconcileBlock(block: int, blocksClaiming: bool)
      modifies this
      ensures Now() == Apply(old(Now()), Reconcile(block, blocksClaiming))
      ensures journal == old(journal) + [Reconcile(block, blocksClaiming)]
    {
      log := log + [Reconciliation(run, block, blocksClaiming)];
      journal := journal + [Reconcile(block, blocksClaiming)];
    }

    method RememberBlock(seen: Seen)
      modifies this
      ensures Now() == Apply(old(Now()), Remember(seen))
      ensures journal == old(journal) + [Remember(seen)]
    {
      last := Some(seen);
      journal := journal + [Remember(seen)];
    }

    method Decide(block: int, usable: bool, reconciled: Reconciled, w: Weather) returns (proposed: bool)
      modifies this
      ensures Made(old(Now()), old(journal), Deciding(block, usable, reconciled, w))
      ensures proposed <==> w.offered && reconciled == Ran(false) && usable && w.gathered
      ensures Now() == old(Now()).(log := old(log) + if proposed then [Proposal(run, block)] else [])
      ensures journal == old(journal) + if proposed then [Propose(block)] else []
    {
      proposed := false;
      if !w.offered { return; }
      if ClaimingRefused(reconciled) { return; }
      if !usable { return; }
      if !w.gathered { return; }
      log := log + [Proposal(run, block)];
      journal := journal + [Propose(block)];
      proposed := true;
      ApplyOneMore(old(Now()), [], Propose(block));
    }

    method Ingest(w: Weather, lastLocal: Option<int>)
      requires w.assembled && IsLastLocal(rows, lastLocal)
      modifies this
      ensures Made(old(Now()), old(journal),
        GapEffects(lastLocal, w.block) + [Persist(Row(w.block, w.complete, w.complete && w.covers))])
      ensures rows == old(rows) + {Row(w.block, w.complete, w.complete && w.covers)}
      ensures forall h :: h in gaps <==> h in old(gaps) || (lastLocal.Some? && lastLocal.value < h < w.block)
      ensures Now() == old(Now()).(rows := rows, gaps := gaps)
      ensures journal == old(journal)
        + (if lastLocal.Some? && lastLocal.value + 1 < w.block then [RecordGaps(lastLocal.value, w.block)] else [])
        + [Persist(Row(w.block, w.complete, w.complete && w.covers))]
    {
      if lastLocal.Some? && w.block > lastLocal.value + 1 {
        RecordBlockGap(lastLocal.value, w.block);
        ApplyOneMore(old(Now()), [], RecordGaps(lastLocal.value, w.block));
      }
      PersistRow(Row(w.block, w.complete, w.complete && w.covers));
      ApplyOneMore(old(Now()), GapEffects(lastLocal, w.block),
          Persist(Row(w.block, w.complete, w.complete && w.covers)));
    }

    method ContinueWarmUp(w: Weather) returns (answer: Answer)
      requires last.Some?
      modifies this
      ensures Made(old(Now()), old(journal), WarmingUp(old(last).value, w))
      ensures answer == CacheAdvanced(w.covers, w.covers && w.offered && w.gathered && !old(last).value.blocksClaiming)
      ensures if w.covers then WarmedUp(old(Now()), Now(), old(last).value, answer.proposed) else Now() == old(Now())
      ensures head == old(head)
    {
      if w.covers { WarmingUpDoes(Now(), last.value, w); }
      var seen := last.value;
      if !w.covers { return CacheAdvanced(false, false); }
      PersistRow(Row(seen.block, true, true));
      ApplyOneMore(old(Now()), [], Persist(Row(seen.block, true, true)));
      RememberBlock(seen.(usable := true));
      ApplyOneMore(old(Now()), [Persist(Row(seen.block, true, true))], Remember(seen.(usable := true)));
      var proposed := Decide(seen.block, true, Ran(seen.blocksClaiming), w);
      ApplyThen(old(Now()), [Persist(Row(seen.block, true, true)), Remember(seen.(usable := true))],
                Deciding(seen.block, true, Ran(seen.blocksClaiming), w));
      return CacheAdvanced(true, proposed);
    }

    method TakeIn(w: Weather, lastLocal: Option<int>) returns (answer: Answer)
      requires w.assembled && IsLastLocal(rows, lastLocal)
      modifies this
      ensures Made(old(Now()), old(journal), Ingesting(lastLocal, w))
      ensures answer == Ingested(w.complete, w.complete && w.covers && w.offered && w.gathered && !w.blocksClaiming)
      ensures TakenIn(old(Now()), Now(), lastLocal, w, answer.proposed)
      ensures head == old(head)
    {
      IngestingDoes(Now(), lastLocal, w);
      ghost var before := Now();
      ghost var taken := GapEffects(lastLocal, w.block) + [Persist(Row(w.block, w.complete, w.complete && w.covers))];
      Ingest(w, lastLocal);
      if !w.complete {
        assert Ingesting(lastLocal, w) == taken;
        return Ingested(false, false);
      }
      ReconcileBlock(w.block, w.blocksClaiming);
      ApplyOneMore(before, taken, Reconcile(w.block, w.blocksClaiming));
      RememberBlock(Seen(w.block, w.covers, w.blocksClaiming));
      ghost var so := taken + [Reconcile(w.block, w.blocksClaiming)];
      ApplyOneMore(before, so, Remember(Seen(w.block, w.covers, w.blocksClaiming)));
      so := so + [Remember(Seen(w.block, w.covers, w.blocksClaiming))];
      var proposed := Decide(w.block, w.covers, Ran(w.blocksClaiming), w);
      ghost var tail := Deciding(w.block, w.covers, Ran(w.blocksClaiming), w);
      ApplyThen(before, so, tail);
      assert Ingesting(lastLocal, w) == so + tail;
      return Ingested(true, proposed);
    }

    /**
     * One poll that neither fails nor crashes: it leaves a finished block
     * alone, warms a remembered one up, or takes a new one in.
     */
    method Poll(w: Weather, lastLocal: Option<int>) returns (answer: Answer)
      requires head <= w.poll <= w.block && IsLastLocal(rows, lastLocal)
      modifies this
      ensures Made(old(Now()).(head := w.block), old(journal), Tick(old(Now()), w, lastLocal))
      ensures head == w.block
      ensures if old(last).Some? && old(last).value.block == w.poll then
                if old(last).value.usable then
                  answer == Unchanged && Now() == old(Now()).(head := w.block)
                else
                  var proposed := w.covers && w.offered && w.gathered && !old(last).value.blocksClaiming;
                  && answer == CacheAdvanced(w.covers, proposed)
                  && (if w.covers then WarmedUp(old(Now()), Now(), old(last).value, proposed)
                      else Now() == old(Now()).(head := w.block))
              else if exists r :: r in old(rows) && r.usable && r.block == w.poll then
                answer == AlreadyIngested && Now() == old(Now()).(head := w.block)
              else if !w.assembled then
                answer == NotAssembled && Now() == old(Now()).(head := w.block)
              else
                var proposed := w.complete && w.covers && w.offered && w.gathered && !w.blocksClaiming;
                && answer == Ingested(w.complete, proposed)
                && TakenIn(old(Now()), Now(), lastLocal, w, proposed)
    {
      head := w.block;
      if last.Some? && last.value.block == w.poll {
        if last.value.usable { return Unchanged; }
        answer := ContinueWarmUp(w);
        return;
      }
      if UsableAt(rows, w.poll) { return AlreadyIngested; }
      if !w.assembled { return NotAssembled; }
      answer := TakeIn(w, lastLocal);
    }
  }

  lemma ApplyThen(s: State, es: seq<Effect>, fs: seq<Effect>)
    ensures ApplyAll(s, es + fs) == ApplyAll(ApplyAll(s, es), fs)
    decreases |es|
  {
    if es == [] {
      assert es + fs == fs;
    } else {
      assert (es + fs)[1..] == es[1..] + fs;
      ApplyThen(Apply(s, es[0]), es[1..], fs);
    }
  }
}
