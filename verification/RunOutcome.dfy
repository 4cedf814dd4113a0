/** Exactly when a run succeeds, and what runs over several units of one account come to, whatever
    the order they are taken in. */
module RunOutcome {
  import opened Sequences
  import opened TradeTypes
  import opened FillOrder
  import opened Ledger
  import opened Batching
  import opened Store
  import opened Queries
  import opened RunSpec
  import opened EngineTheorems

  // ---------- one run ----------

  lemma {:induction false} SegmentsNeverShrink(h: History, more: History)
    ensures |Segments(h + more)| >= |Segments(h)|
  {
    if more == [] {
      assert h + more == h;
    } else {
      assert Front(h + more) == h + Front(more);
      SegmentsNeverShrink(h, Front(more));
    }
  }

  lemma FlatStepAddsTrade(h: History, p: Processed)
    requires Position(h) == 0
    ensures |Segments(h + [p])| == |Segments(h)| + 1
  {
    SegmentsPosition(h);
    SegmentsSnoc(h, p);
  }

  /** A fill that finds the position flat adds a trade. */
  lemma FlatFillAddsTrade(h: History, more: History, i: nat)
    requires i < |more| && Position(h + more[..i]) == 0
    ensures |Segments(h + more)| > |Segments(h)|
  {
    hide Segments, Position;
    var flat, rest := h + more[..i], more[i + 1..];
    SegmentsNeverShrink(h, more[..i]);
    FlatStepAddsTrade(flat, more[i]);
    SegmentsNeverShrink(flat + [more[i]], rest);
    assert flat + [more[i]] + rest == h + more;
  }

  /** What a run needs of the fills it fetches: they can be ordered, none of them takes the position
      across zero, none that carries an exit type plays ENTRY, and a trade that has to be opened has
      a type. */
  ghost predicate Runnable(s: Tables, u: Unit, instrumentType: InstrumentType, fetched: seq<Fill>) {
    && FamilyFor(u.product).Some?
    && (fetched == [] ||
        var t := RunType(u, instrumentType);
        && AdjacentPairsClear(fetched) && Accepted(s.Hist(u) + Mark(fetched, t))
        && (ProvisionalTradeType(FamilyFor(u.product).value, instrumentType).Some? ||
            forall i: nat :: !OpensTrade(s.Hist(u), fetched, t, i)))
  }

  lemma MarkPrefix(fetched: seq<Fill>, t: TradeType, i: nat)
    requires i <= |fetched|
    ensures Mark(fetched[..i], t) == Mark(fetched, t)[..i]
  {
  }

  /** A successful run had all of it. */
  lemma DoneIsRunnable(s: Tables, s': Tables, excluded: set<FillId>, u: Unit, instrumentType: InstrumentType,
                       fetched: seq<Fill>, result: RunResult)
    requires TablesOk(s) && RunDone(s, s', excluded, u, instrumentType, fetched, result)
    ensures Runnable(s, u, instrumentType, fetched)
  {
    hide Reaches, TablesOk, Accepted, IsFetch, AdjacentPairsClear, Mark, FillsAssigned, LotsKept, Counted, RunType;
    var t := RunType(u, instrumentType);
    if fetched != [] && ProvisionalTradeType(FamilyFor(u.product).value, instrumentType).None? {
      forall i: nat ensures !OpensTrade(s.Hist(u), fetched, t, i) {
        if OpensTrade(s.Hist(u), fetched, t, i) {
          MarkPrefix(fetched, t, i);
          FlatFillAddsTrade(s.Hist(u), Mark(fetched, t), i);
          IdsAreSegments(s, u);
          IdsAreSegments(s', u);
          assert false;
        }
      }
    }
  }

  lemma IdsAreSegments(s: Tables, u: Unit)
    requires TablesOk(s)
    ensures |s.Ids(u)| == |Segments(s.Hist(u))|
  {
    UnitAlwaysOk(s, u);
  }

  /** A run that failed for any reason but its lots lacked some of it. */
  lemma FailedIsNotRunnable(s: Tables, excluded: set<FillId>, u: Unit, instrumentType: InstrumentType,
                            fetched: seq<Fill>, error: EngineError)
    requires RunFailed(s, excluded, u, instrumentType, fetched, error)
    ensures error == Inconsistent || !Runnable(s, u, instrumentType, fetched)
    ensures error == Inconsistent ==> !LotsReady(s, u)
  {
    hide StopsAtLots, LotsReady, Clean, ExitTypesOk, IsFetch, Mark, RunType;
  }

  /** For every unit, instrument type and tables: a run that succeeds was runnable, and one that fails
      was not or met lots out of order.  With lots in order the condition is exact. */
  lemma RunSucceedsIff(s: Tables, s': Tables, excluded: set<FillId>, u: Unit, instrumentType: InstrumentType,
                       fetched: seq<Fill>, r: Result<RunResult, EngineError>)
    requires TablesOk(s)
    requires r.Success? ==> RunDone(s, s', excluded, u, instrumentType, fetched, r.value)
    requires r.Failure? ==> RunFailed(s, excluded, u, instrumentType, fetched, r.error)
    ensures r.Success? ==> Runnable(s, u, instrumentType, fetched)
    ensures r.Failure? ==> !Runnable(s, u, instrumentType, fetched) || (r.error == Inconsistent && !LotsReady(s, u))
    ensures LotsReady(s, u) ==> (r.Success? <==> Runnable(s, u, instrumentType, fetched))
  {
    hide TablesOk, LotsReady, RunDone, RunFailed, Runnable;
    if r.Success? {
      DoneIsRunnable(s, s', excluded, u, instrumentType, fetched, r.value);
    } else {
      FailedIsNotRunnable(s, excluded, u, instrumentType, fetched, r.error);
    }
  }

  /** A fill with an exit type that is alone to be processed and finds its unit flat can be ordered and crosses
      nothing, and its run fails under every instrument type. */
  lemma SquareoffOpensNothing(s: Tables, excluded: set<FillId>, u: Unit, instrumentType: InstrumentType, f: Fill)
    requires TablesOk(s) && FamilyFor(u.product).Some? && IsFetch(s.fills, excluded, u, [f])
    requires f.exitTyped && Position(s.Hist(u)) == 0
    ensures AdjacentPairsClear([f]) && Clean(s.Hist(u) + Mark([f], RunType(u, instrumentType)))
    ensures !Runnable(s, u, instrumentType, [f])
  {
    hide TablesOk, ExitTypesOk, Segments, ProvisionalTradeType, RunType, Clean, Position, IsFetch;
    UnitAlwaysOk(s, u);
    assert Mark([f], RunType(u, instrumentType)) == [Processed(f, true, RunType(u, instrumentType))];
    TypedFillOnFlat(s.Hist(u), Processed(f, true, RunType(u, instrumentType)));
  }

  lemma TypedFillOnFlat(h: History, p: Processed)
    requires Clean(h) && Position(h) == 0 && p.fill.exitTyped
    ensures Clean(h + [p]) && !ExitTypesOk(h + [p])
  {
    assert Front(h + [p]) == h && Last(h + [p]) == p;
  }

  // ---------- several units ----------

  /** One unit's part in a batch of runs: the fills its run fetches, if the tables allow it to run. */
  ghost predicate WouldRun(s: Tables, excluded: set<FillId>, u: Unit, instrumentType: InstrumentType,
                           fetched: seq<Fill>) {
    IsFetch(s.fills, excluded, u, fetched) && Runnable(s, u, instrumentType, fetched)
  }

  datatype Job = Job(u: Unit, instrumentType: InstrumentType)

  ghost predicate OneJobPerUnit(jobs: seq<Job>) {
    forall i, j :: 0 <= i < j < |jobs| ==> jobs[i].u != jobs[j].u
  }

  ghost predicate InAccount(jobs: seq<Job>, account: AccountId) {
    forall k :: 0 <= k < |jobs| ==> jobs[k].u.account == account
  }

  /** The history a unit ends with when its job has run. */
  ghost predicate JobDone(s: Tables, s': Tables, excluded: set<FillId>, job: Job) {
    exists fetched :: WouldRun(s, excluded, job.u, job.instrumentType, fetched) &&
                      s'.Hist(job.u) == s.Hist(job.u) + Mark(fetched, RunType(job.u, job.instrumentType))
  }

  ghost predicate Untouched(s: Tables, s': Tables, u: Unit) {
    s'.Hist(u) == s.Hist(u) && s'.Ids(u) == s.Ids(u)
  }

  ghost predicate SameFillKeys(s: Tables, s': Tables) {
    && s'.fills.Keys == s.fills.Keys
    && (forall i :: i in s.fills ==> s'.fills[i].fill == s.fills[i].fill)
    && (forall i :: i in s.fills && s.fills[i].trade.Some? ==> s'.fills[i] == s.fills[i])
  }

  /** Fills of units without a job are untouched. */
  ghost predicate OthersUnassigned(s: Tables, s': Tables, jobs: seq<Job>) {
    forall i :: i in s.fills && i in s'.fills && s'.fills[i] != s.fills[i] ==>
                  exists k :: 0 <= k < |jobs| && FillInUnit(jobs[k].u, s.fills[i].fill)
  }

  /** What jobs, run one after the other in any order, have done. */
  ghost predicate JobsDone(s: Tables, s': Tables, excluded: set<FillId>, jobs: seq<Job>) {
    && TablesOk(s')
    && (forall k :: 0 <= k < |jobs| ==> JobDone(s, s', excluded, jobs[k]))
    && (forall k, i :: 0 <= k < |jobs| ==> !Unprocessed(s'.fills, excluded, jobs[k].u, i))
    && (forall u: Unit :: (forall k :: 0 <= k < |jobs| ==> jobs[k].u != u) ==> Untouched(s, s', u))
    && SameFillKeys(s, s') && OthersUnassigned(s, s', jobs)
  }

  lemma NoJobsDone(s: Tables, excluded: set<FillId>)
    requires TablesOk(s)
    ensures JobsDone(s, s, excluded, [])
  {
  }

  /** A run as a one-job step. */
  ghost predicate Step(s: Tables, s': Tables, excluded: set<FillId>, job: Job, fetched: seq<Fill>) {
    && TablesOk(s') && WouldRun(s, excluded, job.u, job.instrumentType, fetched)
    && s'.Hist(job.u) == s.Hist(job.u) + Mark(fetched, RunType(job.u, job.instrumentType))
    && (forall i :: !Unprocessed(s'.fills, excluded, job.u, i))
    && (forall u: Unit :: u != job.u ==> Untouched(s, s', u))
    && SameFillKeys(s, s')
    && (forall i :: i in s.fills && i in s'.fills && s'.fills[i] != s.fills[i] ==> FillInUnit(job.u, s.fills[i].fill))
  }

  lemma RunIsStep(s: Tables, s': Tables, excluded: set<FillId>, job: Job, fetched: seq<Fill>, result: RunResult)
    requires TablesOk(s) && RunDone(s, s', excluded, job.u, job.instrumentType, fetched, result)
    ensures Step(s, s', excluded, job, fetched)
  {
    hide Reaches, TablesOk, Accepted, AdjacentPairsClear, Mark, Runnable, Counted, LotsKept, RunType, Unprocessed,
         OpensTyped;
    DoneIsRunnable(s, s', excluded, job.u, job.instrumentType, fetched, result);
    forall i ensures !Unprocessed(s'.fills, excluded, job.u, i) {
      NothingLeft(s, s', excluded, job.u, job.instrumentType, fetched, result, i);
    }
    if fetched == [] {
      assert s.Hist(job.u) + Mark([], RunType(job.u, job.instrumentType)) == s.Hist(job.u);
    } else {
      AssignedWithin(s, s', excluded, job.u, fetched);
    }
  }

  /** The fills a run assigns are unassigned fills of its unit. */
  lemma AssignedWithin(s: Tables, s': Tables, excluded: set<FillId>, u: Unit, fetched: seq<Fill>)
    requires IsFetch(s.fills, excluded, u, fetched) && FillsAssigned(s.fills, s'.fills, fetched)
    ensures SameFillKeys(s, s')
    ensures forall i :: i in s.fills && i in s'.fills && s'.fills[i] != s.fills[i] ==> FillInUnit(u, s.fills[i].fill)
  {
    forall i | i in s.fills && Lists(fetched, i) ensures s.fills[i].trade.None? && FillInUnit(u, s.fills[i].fill) {
      var j :| 0 <= j < |fetched| && fetched[j].id == i;
      assert fetched[j] in fetched;
    }
  }

  /** Jobs of other units do not change what a unit's own run will find. */
  lemma FetchUnaffected(s: Tables, mid: Tables, excluded: set<FillId>, jobs: seq<Job>, u: Unit, fetched: seq<Fill>)
    requires SameFillKeys(s, mid) && OthersUnassigned(s, mid, jobs)
    requires forall k :: 0 <= k < |jobs| ==> jobs[k].u != u
    ensures IsFetch(mid.fills, excluded, u, fetched) <==> IsFetch(s.fills, excluded, u, fetched)
  {
    forall i ensures Unprocessed(mid.fills, excluded, u, i) <==> Unprocessed(s.fills, excluded, u, i) {
      if i in s.fills && FillInUnit(u, s.fills[i].fill) {
        forall k | 0 <= k < |jobs| ensures !FillInUnit(jobs[k].u, s.fills[i].fill) {
        }
        assert mid.fills[i] == s.fills[i];
      }
    }
  }

  lemma JobsDoneStep(s: Tables, mid: Tables, s': Tables, excluded: set<FillId>, jobs: seq<Job>, job: Job,
                     fetched: seq<Fill>)
    requires JobsDone(s, mid, excluded, jobs) && Step(mid, s', excluded, job, fetched)
    requires forall k :: 0 <= k < |jobs| ==> jobs[k].u != job.u
    ensures JobsDone(s, s', excluded, jobs + [job])
  {
    hide TablesOk, IsFetch, Accepted, AdjacentPairsClear, Mark, RunType;
    var jobs' := jobs + [job];
    FetchUnaffected(s, mid, excluded, jobs, job.u, fetched);
    assert Untouched(s, mid, job.u);
    forall k | 0 <= k < |jobs'| ensures JobDone(s, s', excluded, jobs'[k]) {
      if k < |jobs| {
        assert JobDone(s, mid, excluded, jobs[k]) && Untouched(mid, s', jobs[k].u);
      } else {
        assert WouldRun(s, excluded, job.u, job.instrumentType, fetched);
      }
    }
    forall k, i | 0 <= k < |jobs'| ensures !Unprocessed(s'.fills, excluded, jobs'[k].u, i) {
      if k < |jobs| {
        assert !Unprocessed(mid.fills, excluded, jobs[k].u, i);
      }
    }
    forall u: Unit | forall k :: 0 <= k < |jobs'| ==> jobs'[k].u != u ensures Untouched(s, s', u) {
      assert jobs'[|jobs|].u != u;
      forall k | 0 <= k < |jobs| ensures jobs[k].u != u {
        assert jobs'[k].u != u;
      }
      assert Untouched(s, mid, u) && Untouched(mid, s', u);
    }
    OthersStep(s, mid, s', jobs, job);
  }

  lemma OthersStep(s: Tables, mid: Tables, s': Tables, jobs: seq<Job>, job: Job)
    requires SameFillKeys(s, mid) && SameFillKeys(mid, s') && OthersUnassigned(s, mid, jobs)
    requires forall i :: i in mid.fills && i in s'.fills && s'.fills[i] != mid.fills[i] ==>
              FillInUnit(job.u, mid.fills[i].fill)
    ensures SameFillKeys(s, s') && OthersUnassigned(s, s', jobs + [job])
  {
    var jobs' := jobs + [job];
    forall i | i in s.fills && i in s'.fills && s'.fills[i] != s.fills[i]
      ensures exists k :: 0 <= k < |jobs'| && FillInUnit(jobs'[k].u, s.fills[i].fill)
    {
      if mid.fills[i] != s.fills[i] {
        var k :| 0 <= k < |jobs| && FillInUnit(jobs[k].u, s.fills[i].fill);
        assert jobs'[k] == jobs[k];
      } else {
        assert jobs'[|jobs|] == job;
      }
    }
  }

  // ---------- the order of the jobs ----------

  /** The partial unique index on (fill_id, account_id). */
  predicate SameBrokerKey(a: Fill, b: Fill) {
    a.brokerId.Some? && a.brokerId == b.brokerId && a.account == b.account
  }

  ghost predicate AccountIdsUnique(fills: map<FillId, FillRow>) {
    forall i, j :: i in fills && j in fills && i != j ==> !SameBrokerKey(fills[i].fill, fills[j].fill)
  }

  lemma FetchIdsUnique(fills: map<FillId, FillRow>, excluded: set<FillId>, u: Unit, fetched: seq<Fill>)
    requires AccountIdsUnique(fills) && IsFetch(fills, excluded, u, fetched)
    ensures BrokerIdsUnique(fetched)
  {
    forall i, j | 0 <= i < j < |fetched| && fetched[i].brokerId.Some?
      ensures fetched[i].brokerId != fetched[j].brokerId
    {
      assert fetched[i] in fetched && fetched[j] in fetched && fetched[i] != fetched[j];
      assert fills[fetched[i].id].fill == fetched[i] && fills[fetched[j].id].fill == fetched[j];
    }
  }

  /** At most one list of fetched fills lets a unit run. */
  lemma WouldRunOneWay(s: Tables, excluded: set<FillId>, u: Unit, instrumentType: InstrumentType, f: seq<Fill>,
                       g: seq<Fill>)
    requires AccountIdsUnique(s.fills)
    requires WouldRun(s, excluded, u, instrumentType, f) && WouldRun(s, excluded, u, instrumentType, g)
    ensures f == g
  {
    hide Accepted;
    FetchIdsUnique(s.fills, excluded, u, f);
    FetchIdsUnique(s.fills, excluded, u, g);
    if f == [] {
      NothingToFetch(s.fills, excluded, u, f, g);
    } else {
      FetchIsDetermined(s.fills, excluded, u, f, g);
    }
  }

  lemma NothingToFetch(fills: map<FillId, FillRow>, excluded: set<FillId>, u: Unit, f: seq<Fill>, g: seq<Fill>)
    requires f == [] && IsFetch(fills, excluded, u, f) && IsFetch(fills, excluded, u, g)
    ensures g == []
  {
    HasMember(g);
  }

  ghost predicate SameJobs(a: seq<Job>, b: seq<Job>) {
    forall job :: job in a <==> job in b
  }

  ghost predicate SameLotRow(a: Tables, b: Tables, ta: TradeId, tb: TradeId) {
    ta in a.lots && tb in b.lots && a.lots[ta] == b.lots[tb]
  }

  /** The same jobs in any two orders leave every unit with the same history, hence with the same
      trades, entry averages included, in the same order, and with the same lots. */
  lemma OrderOfJobsIsIrrelevant(s: Tables, a: Tables, b: Tables, excluded: set<FillId>, jobsA: seq<Job>,
                                jobsB: seq<Job>, u: Unit)
    requires AccountIdsUnique(s.fills) && SameJobs(jobsA, jobsB)
    requires JobsDone(s, a, excluded, jobsA) && JobsDone(s, b, excluded, jobsB)
    ensures a.Hist(u) == b.Hist(u) && |a.Ids(u)| == |b.Ids(u)|
    ensures forall k :: 0 <= k < |a.Ids(u)| ==> SameTradeRows(a, b, a.Ids(u)[k], b.Ids(u)[k]) &&
                                                a.trades[a.Ids(u)[k]] == b.trades[b.Ids(u)[k]]
    ensures u.product == CNC && LotsReady(a, u) && LotsReady(b, u) ==>
              forall k :: 0 <= k < |a.Ids(u)| ==> SameLotRow(a, b, a.Ids(u)[k], b.Ids(u)[k])
  {
    hide TablesOk, WouldRun, Mark, RunType, Unprocessed, SameTradeRows, Segments;
    SameHistory(s, a, b, excluded, jobsA, jobsB, u);
    SameFillsSameTables(a, b, u);
    UnitAlwaysOk(a, u);
    UnitAlwaysOk(b, u);
    forall k | 0 <= k < |a.Ids(u)| ensures a.trades[a.Ids(u)[k]] == b.trades[b.Ids(u)[k]] {
      var segment := Segments(a.Hist(u))[k];
      assert TradeOk(u, segment, a.Ids(u)[k], a.trades, a.fills);
      assert TradeOk(u, segment, b.Ids(u)[k], b.trades, b.fills);
    }
  }

  lemma SameHistory(s: Tables, a: Tables, b: Tables, excluded: set<FillId>, jobsA: seq<Job>, jobsB: seq<Job>, u: Unit)
    requires AccountIdsUnique(s.fills) && SameJobs(jobsA, jobsB)
    requires JobsDone(s, a, excluded, jobsA) && JobsDone(s, b, excluded, jobsB)
    ensures a.Hist(u) == b.Hist(u)
  {
    hide TablesOk, IsFetch, Accepted, AdjacentPairsClear, OpensTrade, Mark, RunType, Unprocessed;
    if k :| 0 <= k < |jobsA| && jobsA[k].u == u {
      assert jobsA[k] in jobsB;
      var job := jobsA[k];
      assert JobDone(s, a, excluded, job);
      var j :| 0 <= j < |jobsB| && jobsB[j] == job;
      assert JobDone(s, b, excluded, jobsB[j]);
      var f :| WouldRun(s, excluded, u, job.instrumentType, f) &&
               a.Hist(u) == s.Hist(u) + Mark(f, RunType(u, job.instrumentType));
      var g :| WouldRun(s, excluded, u, job.instrumentType, g) &&
               b.Hist(u) == s.Hist(u) + Mark(g, RunType(u, job.instrumentType));
      WouldRunOneWay(s, excluded, u, job.instrumentType, f, g);
    } else {
      forall k | 0 <= k < |jobsB| ensures jobsB[k].u != u {
        assert jobsB[k] in jobsA;
      }
      assert Untouched(s, a, u) && Untouched(s, b, u);
    }
  }

  /** The job can run, by the tables as they were before any of the jobs. */
  ghost predicate CanRun(s: Tables, excluded: set<FillId>, job: Job) {
    exists fetched :: WouldRun(s, excluded, job.u, job.instrumentType, fetched)
  }

  /** When a job fails after others have run, for any reason but its lots, it could not have run before
      them either. */
  lemma FailedJobCannotRun(s: Tables, mid: Tables, excluded: set<FillId>, jobs: seq<Job>, job: Job,
                           fetched: seq<Fill>, error: EngineError)
    requires AccountIdsUnique(s.fills) && JobsDone(s, mid, excluded, jobs) && error != Inconsistent
    requires forall k :: 0 <= k < |jobs| ==> jobs[k].u != job.u
    requires RunFailed(mid, excluded, job.u, job.instrumentType, fetched, error)
    ensures !CanRun(s, excluded, job)
  {
    hide TablesOk, LotsReady, Accepted, Mark, RunType, Unprocessed, IsFetch;
    FailedIsNotRunnable(mid, excluded, job.u, job.instrumentType, fetched, error);
    assert Untouched(s, mid, job.u);
    if FamilyFor(job.u.product).Some? {
      FetchUnaffected(s, mid, excluded, jobs, job.u, fetched);
      forall g ensures !WouldRun(s, excluded, job.u, job.instrumentType, g) {
        if g == [] && IsFetch(s.fills, excluded, job.u, g) {
          NothingToFetch(s.fills, excluded, job.u, g, fetched);
        } else if WouldRun(s, excluded, job.u, job.instrumentType, g) {
          FetchIdsUnique(s.fills, excluded, job.u, g);
          FetchIsDetermined(s.fills, excluded, job.u, g, fetched);
          assert false;
        }
      }
    }
  }

  // ---------- totals over the jobs ----------

  /** Trades opened over the units of the jobs. */
  ghost function Opened(s: Tables, s': Tables, jobs: seq<Job>): int {
    if jobs == [] then 0 else
    var u := Last(jobs).u;
    Opened(s, s', Front(jobs)) + |s'.Ids(u)| - |s.Ids(u)|
  }

  /** Trades closed over the units of the jobs: each one a zero of a unit's position. */
  ghost function Closed(s: Tables, s': Tables, jobs: seq<Job>): int {
    if jobs == [] then 0 else
    var u := Last(jobs).u;
    Closed(s, s', Front(jobs)) + ZeroCount(s'.Hist(u)) - ZeroCount(s.Hist(u))
  }

  lemma {:induction false} TotalsUntouched(s: Tables, mid: Tables, s': Tables, jobs: seq<Job>)
    requires forall k :: 0 <= k < |jobs| ==> Untouched(mid, s', jobs[k].u)
    ensures Opened(s, s', jobs) == Opened(s, mid, jobs) && Closed(s, s', jobs) == Closed(s, mid, jobs)
  {
    hide ZeroCount;
    if jobs != [] {
      TotalsUntouched(s, mid, s', Front(jobs));
    }
  }

  lemma TotalsSnoc(s: Tables, s': Tables, jobs: seq<Job>, job: Job)
    ensures Opened(s, s', jobs + [job]) == Opened(s, s', jobs) + |s'.Ids(job.u)| - |s.Ids(job.u)|
    ensures Closed(s, s', jobs + [job]) == Closed(s, s', jobs) + ZeroCount(s'.Hist(job.u)) - ZeroCount(s.Hist(job.u))
  {
    hide ZeroCount;
    assert (jobs + [job])[..|jobs|] == jobs;
  }

  /** A run's counters are what it added to its unit's trades and to their zeros. */
  lemma RunTotals(s: Tables, s': Tables, excluded: set<FillId>, u: Unit, instrumentType: InstrumentType,
                  fetched: seq<Fill>, result: RunResult)
    requires RunDone(s, s', excluded, u, instrumentType, fetched, result)
    ensures result.tradesOpened == |s'.Ids(u)| - |s.Ids(u)|
    ensures result.tradesClosed == ZeroCount(s'.Hist(u)) - ZeroCount(s.Hist(u))
    ensures forall v: Unit :: v != u ==> Untouched(s, s', v)
  {
    hide Reaches, TablesOk, IsFetch, Accepted, AdjacentPairsClear, Mark, RunType, FillsAssigned, LotsKept, OpensTyped,
         ZeroCount;
  }

  lemma TotalsStep(s: Tables, mid: Tables, s': Tables, excluded: set<FillId>, jobs: seq<Job>, job: Job,
                   fetched: seq<Fill>, result: RunResult)
    requires forall k :: 0 <= k < |jobs| ==> jobs[k].u != job.u
    requires Untouched(s, mid, job.u)
    requires RunDone(mid, s', excluded, job.u, job.instrumentType, fetched, result)
    ensures Opened(s, s', jobs + [job]) == Opened(s, mid, jobs) + result.tradesOpened
    ensures Closed(s, s', jobs + [job]) == Closed(s, mid, jobs) + result.tradesClosed
  {
    hide RunDone, Opened, Closed, ZeroCount;
    RunTotals(mid, s', excluded, job.u, job.instrumentType, fetched, result);
    TotalsUntouched(s, mid, s', jobs);
    TotalsSnoc(s, s', jobs, job);
  }
}
