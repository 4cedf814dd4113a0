/** Batching over whole databases: successive runs of a unit, with anything else in between, against
    one run over all their fills. */
module RunChain {
  import opened Sequences
  import opened TradeTypes
  import opened Ledger
  import opened Batching
  import opened Store
  import opened Queries
  import opened RunSpec
  import opened EngineTheorems

  /** One successful run: the tables around it, the exclusions at the time, and what it fetched. */
  datatype RunStep = RunStep(before: Tables, after: Tables, excluded: set<FillId>, fetched: seq<Fill>,
                             result: RunResult)

  ghost predicate Ran(u: Unit, instrumentType: InstrumentType, step: RunStep) {
    TablesOk(step.before)
      && RunDone(step.before, step.after, step.excluded, u, instrumentType, step.fetched, step.result)
  }

  /** Runs of one unit in succession.  Between two of them fills may arrive and other units may run,
      but the unit's own history stays. */
  ghost predicate Chain(u: Unit, instrumentType: InstrumentType, steps: seq<RunStep>) {
    && (forall i :: 0 <= i < |steps| ==> Ran(u, instrumentType, steps[i]))
    && (forall i :: 0 < i < |steps| ==> steps[i].before.Hist(u) == steps[i - 1].after.Hist(u))
  }

  function Batches(steps: seq<RunStep>): (batches: seq<seq<Fill>>)
    ensures |batches| == |steps| && forall i :: 0 <= i < |steps| ==> batches[i] == steps[i].fetched
  {
    seq(|steps|, i requires 0 <= i < |steps| => steps[i].fetched)
  }

  lemma RanAppends(u: Unit, instrumentType: InstrumentType, step: RunStep)
    requires Ran(u, instrumentType, step)
    ensures FamilyFor(u.product).Some? && TablesOk(step.after)
    ensures step.after.Hist(u) == step.before.Hist(u) + Mark(step.fetched, RunType(u, instrumentType))
  {
    hide Reaches, TablesOk, Accepted, RunType, FillsAssigned, LotsKept, Counted, IsFetch;
    if step.fetched == [] {
      assert step.before.Hist(u) + Mark([], RunType(u, instrumentType)) == step.before.Hist(u);
    }
  }

  /** k runs leave the history the model calls Runs of their batches. */
  lemma {:induction false} ChainAppendsRuns(u: Unit, instrumentType: InstrumentType, steps: seq<RunStep>)
    requires steps != [] && Chain(u, instrumentType, steps)
    ensures FamilyFor(u.product).Some? && TablesOk(Last(steps).after)
    ensures Last(steps).after.Hist(u) == steps[0].before.Hist(u) + Runs(Batches(steps), RunType(u, instrumentType))
  {
    hide Ran, TablesOk, RunType;
    assert Ran(u, instrumentType, Last(steps));
    RanAppends(u, instrumentType, Last(steps));
    var t := RunType(u, instrumentType);
    assert Front(Batches(steps)) == Batches(Front(steps)) && Last(Batches(steps)) == Last(steps).fetched;
    if |steps| == 1 {
      assert Runs(Batches(Front(steps)), t) == [];
    } else {
      ChainAppendsRuns(u, instrumentType, Front(steps));
      assert Last(steps).before.Hist(u) == Last(Front(steps)).after.Hist(u);
    }
  }

  /** Any number of successive runs and one run over all their fills, from databases where the unit has
      the same history, leave the same trades in the same order: same rows but for the entry average,
      same fills in the same roles, same lots but for their cost. */
  lemma ManyRunsOneRun(u: Unit, instrumentType: InstrumentType, steps: seq<RunStep>, one: RunStep)
    requires steps != [] && Chain(u, instrumentType, steps) && Ran(u, instrumentType, one)
    requires one.fetched == Concat(Batches(steps)) && one.before.Hist(u) == steps[0].before.Hist(u)
    ensures var many, single := Last(steps).after, one.after;
            && |many.Ids(u)| == |single.Ids(u)|
            && (forall k :: 0 <= k < |many.Ids(u)| ==> SameTradeRows(many, single, many.Ids(u)[k], single.Ids(u)[k]))
            && (LotsReady(many, u) && LotsReady(single, u) && u.product == CNC ==>
                  forall k :: 0 <= k < |many.Ids(u)| ==> SameLots(many, single, many.Ids(u)[k], single.Ids(u)[k]))
  {
    hide Ran, TablesOk, RunType, SameTradeRows, SameLots, LotsReady;
    ChainAppendsRuns(u, instrumentType, steps);
    RanAppends(u, instrumentType, one);
    var past, t := one.before.Hist(u), RunType(u, instrumentType);
    var runs, all := Runs(Batches(steps), t), Mark(one.fetched, t);
    RunsEraseToOneRun(Batches(steps), t);
    assert Erase(past + runs) == Erase(past) + Erase(runs) && Erase(past + all) == Erase(past) + Erase(all);
    SameFillsSameTables(Last(steps).after, one.after, u);
  }
}
