/**
 * Warming the active-benchmark cache: each pass spends a budget of reads on
 * the active ids not yet retained, in id order.
 */
module ActiveCache {
  import opened Wrappers
  import Ids

  datatype Report = Report(fetched: seq<string>, missing: seq<string>, failed: seq<string>)

  predicate CoversActiveSet(r: Report) {
    r.missing == []
  }

  function FirstOf(s: seq<string>, n: nat): set<string> {
    set i | 0 <= i < |s| && i < n :: s[i]
  }

  function Earlier(wanted: set<string>, id: string): set<string> {
    set other | other in wanted && Ids.Before(other, id)
  }

  /** The ids one pass asks for: those wanted with fewer than `budget` wanted ids before them. */
  function Tried(active: set<string>, retained: set<string>, budget: nat): set<string> {
    set id | id in active - retained && |Earlier(active - retained, id)| < budget
  }

  function Fetched(active: set<string>, retained: set<string>, failing: set<string>, budget: nat): set<string> {
    Tried(active, retained, budget) - failing
  }

  // ------------------------------------------------------------------ one pass

  /** The report once the first `n` wanted ids are dealt with. */
  function Dealt(wanted: seq<string>, n: nat, failing: set<string>, budget: nat): Report
    requires n <= |wanted|
  {
    if n == 0 then Report([], [], []) else
      var r := Dealt(wanted, n - 1, failing, budget);
      var id := wanted[n - 1];
      if n - 1 >= budget then r.(missing := r.missing + [id])
      else if id in failing then r.(failed := r.failed + [id], missing := r.missing + [id])
      else r.(fetched := r.fetched + [id])
  }

  lemma AppendKeepsAscending(s: seq<string>, wanted: seq<string>, n: nat)
    requires Ids.Ascending(s) && Ids.Ascending(wanted) && n < |wanted|
    requires forall id :: id in s ==> id in FirstOf(wanted, n)
    ensures Ids.Ascending(s + [wanted[n]])
  {
    var t := s + [wanted[n]];
    forall i, j | 0 <= i < j < |t| ensures Ids.Before(t[i], t[j]) {
      if j == |s| {
        assert s[i] in FirstOf(wanted, n);
      }
    }
  }

  lemma FirstOfOneMore(s: seq<string>, n: nat)
    requires n < |s|
    ensures FirstOf(s, n + 1) == FirstOf(s, n) + {s[n]}
  {
  }

  lemma FirstOfAll(s: seq<string>, n: nat)
    requires n >= |s|
    ensures FirstOf(s, n) == set id | id in s
  {
    forall id | id in s ensures id in FirstOf(s, n) {
      var i :| 0 <= i < |s| && s[i] == id;
    }
  }

  function Least(a: nat, b: nat): nat {
    if a < b then a else b
  }

  ghost predicate Splits(r: Report, wanted: seq<string>, n: nat, failing: set<string>, budget: nat) {
    && (forall id :: id in r.fetched <==> id in FirstOf(wanted, Least(n, budget)) && id !in failing)
    && (forall id :: id in r.failed <==> id in FirstOf(wanted, Least(n, budget)) && id in failing)
    && (forall id :: id in r.missing <==> id in FirstOf(wanted, n) && id !in r.fetched)
    && Ids.Ascending(r.fetched)
    && Ids.Ascending(r.missing)
    && Ids.Ascending(r.failed)
  }

  lemma NotYetMet(wanted: seq<string>, n: nat, m: nat)
    requires Ids.Ascending(wanted) && m <= n < |wanted|
    ensures wanted[n] !in FirstOf(wanted, m)
  {
    if wanted[n] in FirstOf(wanted, m) {
      var i :| 0 <= i < m && wanted[i] == wanted[n];
      Ids.AscendingIsDistinct(wanted, i, n);
    }
  }

  lemma SplitsStep(r: Report, r': Report, wanted: seq<string>, n: nat, failing: set<string>, budget: nat)
    requires Ids.Ascending(wanted) && n < |wanted| && Splits(r, wanted, n, failing, budget)
    requires r' == if n >= budget then r.(missing := r.missing + [wanted[n]])
                   else if wanted[n] in failing then r.(failed := r.failed + [wanted[n]],
                       missing := r.missing + [wanted[n]])
                   else r.(fetched := r.fetched + [wanted[n]])
    ensures Splits(r', wanted, n + 1, failing, budget)
  {
    FirstOfOneMore(wanted, n);
    NotYetMet(wanted, n, n);
    NotYetMet(wanted, n, Least(n, budget));
    assert FirstOf(wanted, Least(n, budget)) <= FirstOf(wanted, n);
    if n >= budget {
      AppendKeepsAscending(r.missing, wanted, n);
      assert FirstOf(wanted, Least(n + 1, budget)) == FirstOf(wanted, Least(n, budget));
    } else if wanted[n] in failing {
      AppendKeepsAscending(r.missing, wanted, n);
      AppendKeepsAscending(r.failed, wanted, n);
    } else {
      AppendKeepsAscending(r.fetched, wanted, n);
    }
  }

  lemma {:induction false} DealtSplits(wanted: seq<string>, n: nat, failing: set<string>, budget: nat)
    requires Ids.Ascending(wanted) && n <= |wanted|
    ensures Splits(Dealt(wanted, n, failing, budget), wanted, n, failing, budget)
  {
    if n > 0 {
      DealtSplits(wanted, n - 1, failing, budget);
      SplitsStep(Dealt(wanted, n - 1, failing, budget), Dealt(wanted, n, failing, budget), wanted, n - 1, failing,
          budget);
    }
  }

  lemma EarlierIsPrefix(wanted: seq<string>, ids: set<string>, i: nat)
    requires Ids.Ascending(wanted) && (forall id :: id in wanted <==> id in ids) && i < |wanted|
    ensures Earlier(ids, wanted[i]) == FirstOf(wanted, i)
  {
    forall id | id in Earlier(ids, wanted[i]) ensures id in FirstOf(wanted, i) {
      var j :| 0 <= j < |wanted| && wanted[j] == id;
      Ids.Trichotomy(wanted[i], wanted[j]);
    }
  }

  /** The budget is spent on the first ids in order. */
  lemma TriedAreTheFirst(active: set<string>, retained: set<string>, budget: nat)
    ensures Tried(active, retained, budget) == FirstOf(Ids.InOrder(active - retained), budget)
  {
    var wanted := Ids.InOrder(active - retained);
    forall i | 0 <= i < |wanted| ensures wanted[i] in Tried(active, retained, budget) <==> i < budget {
      EarlierIsPrefix(wanted, active - retained, i);
      FirstOfSize(wanted, i);
    }
    forall id | id in Tried(active, retained, budget) ensures id in FirstOf(wanted, budget) {
      var i :| 0 <= i < |wanted| && wanted[i] == id;
    }
  }

  function Pass(active: set<string>, retained: set<string>, failing: set<string>, budget: nat): Report {
    var wanted := Ids.InOrder(active - retained);
    Dealt(wanted, |wanted|, failing, budget)
  }

  /**
   * A pass splits the wanted ids exactly into fetched and missing, and covers
   * the set exactly when the store then holds it.
   */
  lemma PassSplitsTheWanted(active: set<string>, retained: set<string>, failing: set<string>, budget: nat)
    ensures var r := Pass(active, retained, failing, budget);
      var fetched := Fetched(active, retained, failing, budget);
      && r.fetched == Ids.InOrder(fetched)
      && r.missing == Ids.InOrder(active - retained - fetched)
      && r.failed == Ids.InOrder(Tried(active, retained, budget) * failing)
      && (CoversActiveSet(r) <==> active <= retained + fetched)
  {
    var wanted := Ids.InOrder(active - retained);
    var r := Pass(active, retained, failing, budget);
    var fetched := Fetched(active, retained, failing, budget);
    DealtSplits(wanted, |wanted|, failing, budget);
    TriedAreTheFirst(active, retained, budget);
    FirstOfAll(wanted, |wanted|);
    assert FirstOf(wanted, Least(|wanted|, budget)) == FirstOf(wanted, budget);
    Ids.AscendingIsUnique(r.fetched, Ids.InOrder(fetched));
    var missing := active - retained - fetched;
    forall id ensures id in r.missing <==> id in missing {
    }
    Ids.AscendingIsUnique(r.missing, Ids.InOrder(missing));
    Ids.AscendingIsUnique(r.failed, Ids.InOrder(Tried(active, retained, budget) * failing));
    assert missing == {} <==> active <= retained + fetched;
    assert |r.missing| == |missing|;
  }

  // ------------------------------------------------------------- many passes

  lemma {:induction false} FirstOfSize(s: seq<string>, n: nat)
    requires Ids.Ascending(s)
    ensures |FirstOf(s, n)| == Least(n, |s|)
  {
    if n == 0 {
      assert FirstOf(s, n) == {};
    } else {
      FirstOfSize(s, n - 1);
      if n <= |s| {
        NotYetMet(s, n - 1, n - 1);
        FirstOfOneMore(s, n - 1);
      } else {
        assert FirstOf(s, n) == FirstOf(s, n - 1);
      }
    }
  }

  lemma SizeOfDifference(a: set<string>, b: set<string>)
    ensures |a - b| >= |a| - |b|
    ensures b <= a ==> |a - b| == |a| - |b|
  {
    assert a == (a - b) + (a * b);
    SizeOfSubset(a * b, b);
    if b <= a { assert a * b == b; }
  }

  lemma SizeOfSubset(a: set<string>, b: set<string>)
    requires a <= b
    ensures |a| <= |b|
  {
    assert b == a + (b - a);
  }

  /** How many of the ids that do not keep failing are still wanted. */
  function Left(active: set<string>, retained: set<string>, stubborn: set<string>): nat {
    |active - retained - stubborn|
  }

  /** A pass retains all of them, or as many as its budget exceeds the ids that keep failing. */
  lemma PassMakesProgress(active: set<string>, retained: set<string>, failing: set<string>, stubborn: set<string>,
                          budget: nat)
    requires failing <= stubborn && |stubborn| < budget
    ensures var after := AfterPass(active, retained, failing, budget);
      Left(active, after, stubborn) == 0
        || Left(active, after, stubborn) <= Left(active, retained, stubborn) - (budget - |stubborn|)
  {
    var wanted := Ids.InOrder(active - retained);
    var tried := Tried(active, retained, budget);
    TriedAreTheFirst(active, retained, budget);
    FirstOfSize(wanted, budget);
    var before := active - retained - stubborn;
    var after := active - (retained + Fetched(active, retained, failing, budget)) - stubborn;
    assert after <= before - (tried - stubborn);
    SizeOfSubset(after, before - (tried - stubborn));
    SizeOfDifference(tried, stubborn);
    if budget >= |wanted| {
      FirstOfAll(wanted, budget);
      assert after == {};
    } else {
      assert tried - stubborn <= before;
      SizeOfDifference(before, tried - stubborn);
    }
  }

  function AfterPass(active: set<string>, retained: set<string>, failing: set<string>, budget: nat): set<string> {
    retained + Fetched(active, retained, failing, budget)
  }

  /** Passes over one active set, each with the ids it failed on. */
  datatype Run = Start | Then(earlier: Run, failing: set<string>)

  function Length(run: Run): nat {
    match run case Start => 0 case Then(earlier, _) => Length(earlier) + 1
  }

  predicate FailsWithin(run: Run, stubborn: set<string>) {
    match run case Start => true case Then(earlier, failing) => failing <= stubborn && FailsWithin(earlier, stubborn)
  }

  predicate FailsOn(run: Run, ids: set<string>) {
    match run case Start => true case Then(earlier, failing) => ids <= failing && FailsOn(earlier, ids)
  }

  /** What the store holds after the run. */
  function StoreAfter(active: set<string>, retained: set<string>, run: Run, budget: nat): set<string> {
    match run
    case Start => retained
    case Then(earlier, failing) => AfterPass(active, StoreAfter(active, retained, earlier, budget), failing, budget)
  }

  /** What `n` passes retain for sure when each retains `spare`. */
  function Assured(n: nat, spare: nat): nat {
    if n == 0 then 0 else spare + Assured(n - 1, spare)
  }

  lemma {:induction false} AssuredAtLeast(n: nat, spare: nat)
    requires spare >= 1
    ensures Assured(n, spare) >= n
  {
    if n > 0 { AssuredAtLeast(n - 1, spare); }
  }

  lemma {:induction false} PassesCatchUp(active: set<string>, retained: set<string>, run: Run, stubborn: set<string>,
                                         budget: nat)
    requires |stubborn| < budget && FailsWithin(run, stubborn)
    ensures var left := Left(active, StoreAfter(active, retained, run, budget), stubborn);
      left == 0 || left + Assured(Length(run), budget - |stubborn|) <= Left(active, retained, stubborn)
  {
    if run.Then? {
      PassesCatchUp(active, retained, run.earlier, stubborn, budget);
      PassMakesProgress(active, StoreAfter(active, retained, run.earlier, budget), run.failing, stubborn, budget);
    }
  }

  lemma NothingLeft(active: set<string>, retained: set<string>, run: Run, stubborn: set<string>, budget: nat)
    requires |stubborn| < budget && FailsWithin(run, stubborn)
    requires Length(run) >= Left(active, retained, stubborn)
    ensures Left(active, StoreAfter(active, retained, run, budget), stubborn) == 0
  {
    AssuredAtLeast(Length(run), budget - |stubborn|);
    PassesCatchUp(active, retained, run, stubborn, budget);
  }

  lemma NoneLeft(active: set<string>, retained: set<string>, stubborn: set<string>)
    requires Left(active, retained, stubborn) == 0
    ensures active - stubborn <= retained
  {
    assert active - retained - stubborn == {};
    forall id | id in active - stubborn ensures id in retained {
      assert id !in active - retained - stubborn;
    }
  }

  /**
   * While fewer ids than the budget keep failing, every other active id is
   * retained within as many passes as there were such ids missing.
   */
  lemma EveryOtherIdIsRetained(active: set<string>, retained: set<string>, run: Run, stubborn: set<string>, budget: nat)
    requires |stubborn| < budget && FailsWithin(run, stubborn)
    requires Length(run) >= Left(active, retained, stubborn)
    ensures active - stubborn <= StoreAfter(active, retained, run, budget)
  {
    NothingLeft(active, retained, run, stubborn, budget);
    NoneLeft(active, StoreAfter(active, retained, run, budget), stubborn);
  }

  /** A pass retains nothing new exactly when every id it asks for fails. */
  lemma StuckIffTheFirstFail(active: set<string>, retained: set<string>, failing: set<string>, budget: nat)
    ensures AfterPass(active, retained, failing, budget) == retained <==> Tried(active, retained, budget) <= failing
  {
    if AfterPass(active, retained, failing, budget) == retained {
      forall id | id in Tried(active, retained, budget) ensures id in failing {
        assert id in AfterPass(active, retained, failing, budget) || id in failing;
      }
    } else {
      var id :| id in Fetched(active, retained, failing, budget) && id !in retained;
    }
  }

  /** As many stubborn ids as the budget, first in id order, starve the rest for good. */
  lemma {:induction false} TheFirstCanStarveTheRest(active: set<string>, retained: set<string>, run: Run, budget: nat)
    requires FailsOn(run, Tried(active, retained, budget))
    ensures StoreAfter(active, retained, run, budget) == retained
  {
    if run.Then? {
      TheFirstCanStarveTheRest(active, retained, run.earlier, budget);
      StuckIffTheFirstFail(active, retained, run.failing, budget);
    }
  }

  // --------------------------------------------- who waits for ever, and who does not

  /** `n` passes that all fail on the same ids. */
  function Steady(failing: set<string>, n: nat): Run {
    if n == 0 then Start else Then(Steady(failing, n - 1), failing)
  }

  /** What the store holds after `n` passes that all fail on the same ids. */
  function Steadily(active: set<string>, retained: set<string>, failing: set<string>, budget: nat,
                    n: nat): set<string> {
    StoreAfter(active, retained, Steady(failing, n), budget)
  }

  /** The wanted ids before `id` that keep failing. */
  function Blockers(active: set<string>, retained: set<string>, failing: set<string>, id: string): set<string> {
    Earlier((active - retained) * failing, id)
  }

  /** The other wanted ids before `id`. */
  function Ahead(active: set<string>, retained: set<string>, failing: set<string>, id: string): set<string> {
    Earlier(active - retained - failing, id)
  }

  lemma EarlierSplits(active: set<string>, retained: set<string>, failing: set<string>, id: string)
    ensures Earlier(active - retained, id) ==
      Blockers(active, retained, failing, id) + Ahead(active, retained, failing, id)
  {
  }

  lemma PassKeepsBlockers(active: set<string>, retained: set<string>, failing: set<string>, budget: nat, id: string)
    ensures var after := AfterPass(active, retained, failing, budget);
      && Blockers(active, after, failing, id) == Blockers(active, retained, failing, id)
      && Ahead(active, after, failing, id) <= Ahead(active, retained, failing, id)
  {
  }

  lemma {:induction false} BlockersStay(active: set<string>, retained: set<string>, failing: set<string>, budget: nat,
                                        n: nat, id: string)
    ensures var after := Steadily(active, retained, failing, budget, n);
      Blockers(active, after, failing, id) == Blockers(active, retained, failing, id)
  {
    if n > 0 {
      BlockersStay(active, retained, failing, budget, n - 1, id);
      PassKeepsBlockers(active, Steadily(active, retained, failing, budget, n - 1), failing, budget, id);
    }
  }

  /** The first of the others ahead has only blockers before it. */
  lemma FirstAhead(active: set<string>, retained: set<string>, failing: set<string>, id: string) returns (first: string)
    requires Ahead(active, retained, failing, id) != {}
    ensures first in Ahead(active, retained, failing, id)
    ensures Earlier(active - retained, first) <= Blockers(active, retained, failing, id)
  {
    var ahead := Ahead(active, retained, failing, id);
    Ids.FirstExists(ahead);
    first :| Ids.IsFirst(first, ahead);
    forall other | other in Earlier(active - retained, first) ensures other in Blockers(active, retained, failing, id) {
      Ids.Transitive(other, first, id);
      Ids.Trichotomy(other, first);
    }
  }

  /** With room beyond its blockers, a pass retains the id or one of the others ahead of it. */
  lemma PassMovesAhead(active: set<string>, retained: set<string>, failing: set<string>, budget: nat, id: string)
    requires id in active - retained - failing && |Blockers(active, retained, failing, id)| < budget
    ensures var after := AfterPass(active, retained, failing, budget);
      id in after || |Ahead(active, after, failing, id)| < |Ahead(active, retained, failing, id)|
  {
    var after := AfterPass(active, retained, failing, budget);
    EarlierSplits(active, retained, failing, id);
    PassKeepsBlockers(active, retained, failing, budget, id);
    if Ahead(active, retained, failing, id) == {} {
      assert Earlier(active - retained, id) == Blockers(active, retained, failing, id);
      assert id in Tried(active, retained, budget);
    } else {
      var first := FirstAhead(active, retained, failing, id);
      SizeOfSubset(Earlier(active - retained, first), Blockers(active, retained, failing, id));
      assert first in Tried(active, retained, budget);
      assert first in after;
      assert first !in Ahead(active, after, failing, id);
      SizeOfSubset(Ahead(active, after, failing, id), Ahead(active, retained, failing, id) - {first});
    }
  }

  lemma {:induction false} MovesAhead(active: set<string>, retained: set<string>, failing: set<string>, budget: nat,
                                      id: string, n: nat)
    requires id in active - retained - failing && |Blockers(active, retained, failing, id)| < budget
    ensures var after := Steadily(active, retained, failing, budget, n);
      id in after || |Ahead(active, after, failing, id)| + n <= |Ahead(active, retained, failing, id)|
  {
    if n > 0 {
      MovesAhead(active, retained, failing, budget, id, n - 1);
      var before := Steadily(active, retained, failing, budget, n - 1);
      BlockersStay(active, retained, failing, budget, n - 1, id);
      if id !in before { PassMovesAhead(active, before, failing, budget, id); }
    }
  }

  /** With its blockers filling the budget, it is never even asked for. */
  lemma {:induction false} NeverAskedFor(active: set<string>, retained: set<string>, failing: set<string>, budget: nat,
                                         id: string, n: nat)
    requires id !in retained && |Blockers(active, retained, failing, id)| >= budget
    ensures id !in Steadily(active, retained, failing, budget, n)
  {
    if n > 0 {
      NeverAskedFor(active, retained, failing, budget, id, n - 1);
      var before := Steadily(active, retained, failing, budget, n - 1);
      BlockersStay(active, retained, failing, budget, n - 1, id);
      EarlierSplits(active, before, failing, id);
      SizeOfSubset(Blockers(active, before, failing, id), Earlier(active - before, id));
      assert id !in Tried(active, before, budget);
    }
  }

  /**
   * An active id that can be read is retained in the end exactly when fewer
   * ids that keep failing come before it than one pass may read. It then takes
   * at most one pass more than there are readable ids before it.
   */
  lemma RetainedIffFewBlockers(active: set<string>, retained: set<string>, failing: set<string>, budget: nat,
                               id: string)
    requires id in active - retained - failing
    ensures (exists n :: id in Steadily(active, retained, failing, budget, n)) <==>
      |Blockers(active, retained, failing, id)| < budget
    ensures |Blockers(active, retained, failing, id)| < budget ==>
      id in Steadily(active, retained, failing, budget, |Ahead(active, retained, failing, id)| + 1)
  {
    if |Blockers(active, retained, failing, id)| < budget {
      MovesAhead(active, retained, failing, budget, id, |Ahead(active, retained, failing, id)| + 1);
    } else {
      forall n ensures id !in Steadily(active, retained, failing, budget, n) {
        NeverAskedFor(active, retained, failing, budget, id, n);
      }
    }
  }

  // ------------------------------------------------------------------ the loop

  class Store {
    var retained: set<string>
    /** How many benchmark-data reads were ever made. */
    ghost var asked: nat

    constructor ()
      ensures retained == {} && asked == 0
    {
      retained, asked := {}, 0;
    }

    /**
     * The loop over the wanted ids. `failing` are those whose read or body
     * fails this time, `broken` those the store itself would not take.
     */
    method Spend(wanted: seq<string>, failing: set<string>, broken: set<string>, budget: nat)
      returns (r: Option<Report>)
      modifies this
      ensures asked <= old(asked) + budget
      ensures r.Some? ==>
        && r.value == Dealt(wanted, |wanted|, failing, budget)
        && asked == old(asked) + Least(|wanted|, budget)
        && (forall i :: 0 <= i < |wanted| && i < budget ==> wanted[i] in failing || wanted[i] !in broken)
        && retained == old(retained) + Kept(wanted, |wanted|, failing, budget)
      ensures r.None? ==> exists i {:trigger wanted[i]} ::
        && 0 <= i < |wanted| && i < budget && wanted[i] in broken && wanted[i] !in failing
        && retained == old(retained) + Kept(wanted, i, failing, budget)
    {
      var report, spent := Report([], [], []), 0;
      assert retained == old(retained) + Kept(wanted, 0, failing, budget);
      for i := 0 to |wanted|
        invariant report == Dealt(wanted, i, failing, budget)
        invariant spent == Least(i, budget) && asked == old(asked) + spent
        invariant retained == old(retained) + Kept(wanted, i, failing, budget)
        invariant forall j :: 0 <= j < i && j < budget ==> wanted[j] in failing || wanted[j] !in broken
      {
        var id := wanted[i];
        KeptStep(wanted, i, failing, budget);
        if spent >= budget {
          report := report.(missing := report.missing + [id]);
          continue;
        }
        spent, asked := spent + 1, asked + 1;
        if id in failing {
          report := report.(failed := report.failed + [id], missing := report.missing + [id]);
        } else {
          if id in broken { return None; }
          retained := retained + {id};
          report := report.(fetched := report.fetched + [id]);
        }
      }
      r := Some(report);
    }

    /** One pass over a block's active set. */
    method Advance(active: seq<string>, failing: set<string>, broken: set<string>, budget: nat)
      returns (r: Option<Report>)
      modifies this
      ensures old(retained) <= retained <= AfterPass(set id | id in active, old(retained), failing, budget)
      ensures asked <= old(asked) + budget
      ensures r.Some? ==>
        && r.value == Pass(set id | id in active, old(retained), failing, budget)
        && retained == AfterPass(set id | id in active, old(retained), failing, budget)
        && (CoversActiveSet(r.value) <==> (set id | id in active) <= retained)
        && asked == old(asked) + Least(|(set id | id in active) - old(retained)|, budget)
      ensures r.None? <==> Fetched(set id | id in active, old(retained), failing, budget) * broken != {}
    {
      var all := set id | id in active;
      var wanted := Ids.InOrder(all - retained);
      r := Spend(wanted, failing, broken, budget);
      TriedAreTheFirst(all, old(retained), budget);
      if r.Some? {
        KeptAll(wanted, failing, budget);
        PassSplitsTheWanted(all, old(retained), failing, budget);
      } else {
        ghost var i :| 0 <= i < |wanted| && i < budget && wanted[i] in broken && wanted[i] !in failing
                       && retained == old(retained) + Kept(wanted, i, failing, budget);
        KeptWithin(wanted, i, failing, budget);
        assert wanted[i] in Fetched(all, old(retained), failing, budget) * broken;
      }
    }
  }

  /** What the store took of the first `n` wanted ids. */
  function Kept(wanted: seq<string>, n: nat, failing: set<string>, budget: nat): set<string> {
    FirstOf(wanted, Least(n, budget)) - failing
  }

  lemma KeptStep(wanted: seq<string>, i: nat, failing: set<string>, budget: nat)
    requires i < |wanted|
    ensures Kept(wanted, i + 1, failing, budget) ==
      if i >= budget || wanted[i] in failing then Kept(wanted, i, failing, budget)
      else Kept(wanted, i, failing, budget) + {wanted[i]}
  {
    FirstOfOneMore(wanted, i);
  }

  lemma KeptAll(wanted: seq<string>, failing: set<string>, budget: nat)
    ensures Kept(wanted, |wanted|, failing, budget) == FirstOf(wanted, budget) - failing
  {
  }

  lemma KeptWithin(wanted: seq<string>, i: nat, failing: set<string>, budget: nat)
    requires i < budget && i < |wanted| && wanted[i] !in failing
    ensures Kept(wanted, i, failing, budget) <= FirstOf(wanted, budget) - failing
    ensures wanted[i] in FirstOf(wanted, budget) - failing
  {
  }
}
