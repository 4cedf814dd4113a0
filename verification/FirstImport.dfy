/** From one printed row to the trade it makes: the first import of a database, end to end. */
module FirstImport {
  import opened Sequences
  import opened TradeTypes
  import opened Calendar
  import opened FillOrder
  import opened Ledger
  import opened RowSteps
  import opened Batching
  import opened ZerodhaAdapter
  import opened Store
  import opened Queries
  import opened RunSpec
  import opened EngineTheorems
  import opened RunOutcome
  import opened Reconstruction
  import opened Ingest
  import opened Import

  const EMPTY := Tables(map[], map[], map[], 0, map[], map[])

  /** A fill that can open a trade: no expiry square-off, and no equity carried as a derivative. */
  predicate CanOpen(f: NormalizedFill) {
    !f.isExpirySquareoff && !(f.product == NRML && f.kind == EQ)
  }

  /** The tables hold one trade, opened by the fill and by nothing else. */
  ghost predicate OneOpenTrade(s: Tables, f: NormalizedFill, to: Target) {
    exists t :: s.trades.Keys == {t} && OpenedBy(s.trades[t], f, to) &&
                (f.product == CNC ==> t in s.lots && InLockstep(s.lots[t], s.trades[t]))
  }

  predicate OpenedBy(row: TradeRow, f: NormalizedFill, to: Target) {
    && row.user == to.user && row.account == to.account && TypeFits(f.product, f.kind, row.tradeType)
    && row.direction == (if f.side == BUY then LONG else SHORT) && row.status == OPEN
    && row.totalEntry == f.quantity && row.totalExit == 0 && row.net == f.quantity
    && row.averageEntry == f.price && row.averageExit.None?
    && row.firstFillAt == f.timestamp && row.lastFillAt.None? && row.tradeDate == Ordinal(f.tradeDate)
  }

  /** Importing a file of one exported row into an empty database succeeds exactly when its fill can open a trade,
      and then the database holds that trade. */
  method ImportOneRow(service: ImportService, to: Target, fileHash: string, readers: Readers, writers: Writers,
                      f: NormalizedFill, text: string, hint: Option<string>)
    returns (r: Result<ImportSummary, ImportError>)
    requires service.Valid() && service.engine.View() == EMPTY && service.records == []
    requires Inverse(readers, writers) && Exported(f, text) && ValidHint(hint)
    modifies service, service.engine
    ensures r.Success? <==> CanOpen(f)
    ensures r.Success? ==> OneOpenTrade(service.engine.View(), f, to)
    ensures r.Success? ==> r.value == ImportSummary(1, 0, 0, 1, 0, ImportComplete)
  {
    hide TablesOk, KeysUnique, IdsBelow, InstrumentsOk, Ingested, JobsDone, ParseIs, AccountLotsReady, CanRun,
         RowsKeep, JobsTyped, Opened, Closed, OneOpenTrade, CanOpen, Collides, PrintRow, Exported, Inverse, ValidHint,
         FirstHeldId, Storable, OneRowStored;
    ghost var next, excluded := service.nextFill, service.engine.excluded;
    NothingExcluded(service.engine.fills, excluded, next);
    var rows := [PrintRow(writers, f, text)];
    ghost var trace;
    r, trace := service.ImportFills(to, true, fileHash, readers, true, rows, hint);
    ghost var out := if r.Failure? && r.error.NotParsed? then r.error.outcome else Parsed(trace.parsed, trace.errors);
    ExportedFileParses(readers, writers, [f], [text], rows, hint, out);
    assert Storable(f) by {
      PreScanIsSound(readers, rows, hint, out);
      assert f in out.fills;
    }
    if r.Failure? && r.error.BrokerIdHeld? {
      NothingHeld(to.account, [f], r.error.brokerId);
      assert false;
    }
    ghost var u := UnitStored(trace.mid.fills, next, to, service.instruments, f, trace.taken, trace.jobs);
    OneRowRuns(trace.mid, u, next, f, to);
    EmptyIsReady(to.account);
    if r.Success? {
      OneRowDone(trace.mid, service.engine.View(), u, next, f, to);
    }
  }

  lemma NothingExcluded(fills: map<FillId, FillRow>, excluded: set<FillId>, next: FillId)
    requires fills == map[] && IdsBelow(fills, excluded, next)
    ensures excluded == {}
  {
  }

  lemma NothingHeld(account: AccountId, parsed: seq<NormalizedFill>, brokerId: string)
    ensures !FirstHeldId(map[], account, parsed, brokerId)
  {
  }

  lemma EmptyIsReady(account: AccountId)
    ensures AccountLotsReady(EMPTY, account)
  {
  }

  /** The fills table holds one row, made from f, in the unit. */
  ghost predicate OneRowStored(fills: map<FillId, FillRow>, u: Unit, i: FillId, f: NormalizedFill, to: Target) {
    && fills.Keys == {i} && fills[i].trade.None? && fills[i].role.None? && fills[i].fill.id == i
    && Keeps(fills[i].fill, f, to) && FillInUnit(u, fills[i].fill)
  }

  lemma UnitStored(fills: map<FillId, FillRow>, next: FillId, to: Target, instruments: map<InstrumentKey, InstrumentId>,
                   f: NormalizedFill, taken: seq<nat>, jobs: seq<Job>)
    returns (u: Unit)
    requires Ingested(map[], fills, next, to, instruments, [f], taken, jobs) && Storable(f)
    requires RowsKeep(fills, next, to, [f], taken) && JobsTyped(fills, next, [f], taken, jobs)
    ensures taken == [0] && jobs == [Job(u, f.kind)] && OneRowStored(fills, u, next, f, to)
  {
    hide Ingested, RowsKeep, JobsTyped, Keeps, FillFor, KeyOf;
    OneTaken(fills, next, to, instruments, f, taken, jobs);
    u := Unit(fills[next].fill.user, fills[next].fill.account, fills[next].fill.instrument, fills[next].fill.product);
    OneJob(fills, next, to, instruments, f, taken, jobs, u);
  }

  lemma OneTaken(fills: map<FillId, FillRow>, next: FillId, to: Target, instruments: map<InstrumentKey, InstrumentId>,
                 f: NormalizedFill, taken: seq<nat>, jobs: seq<Job>)
    requires Ingested(map[], fills, next, to, instruments, [f], taken, jobs) && Storable(f)
    requires RowsKeep(fills, next, to, [f], taken)
    ensures taken == [0] && fills.Keys == {next} && Keeps(fills[next].fill, f, to)
    ensures fills[next].fill.id == next && fills[next].trade.None? && fills[next].role.None?
  {
    hide Keeps, FillFor, KeyOf, JobsCover, KeysGrown;
    assert FirstOfKey(map[], to.account, [f], 0);
    assert 0 in taken;
    OnlyElement(taken, 0);
    assert RowKeeps(fills, next, to, [f], taken, 0);
    assert forall i :: i in fills <==> i == next;
  }

  lemma OneJob(fills: map<FillId, FillRow>, next: FillId, to: Target, instruments: map<InstrumentKey, InstrumentId>,
               f: NormalizedFill, taken: seq<nat>, jobs: seq<Job>, u: Unit)
    requires Ingested(map[], fills, next, to, instruments, [f], taken, jobs) && taken == [0]
    requires JobsTyped(fills, next, [f], taken, jobs) && fills.Keys == {next} && FillInUnit(u, fills[next].fill)
    ensures jobs == [Job(u, f.kind)]
  {
    hide RowsAdded, TakenExactly, KeysGrown, InAccount, JobTyped, FillInUnit;
    assert HasJob(jobs, fills[next].fill);
    forall q | 0 <= q < |jobs| ensures jobs[q] == Job(u, f.kind) {
      TypedIs(fills, next, f, jobs[q], u);
    }
    OnlyElement(jobs, Job(u, f.kind));
  }

  lemma TypedIs(fills: map<FillId, FillRow>, next: FillId, f: NormalizedFill, job: Job, u: Unit)
    requires JobTyped(fills, next, [f], [0], job) && next in fills && FillInUnit(u, fills[next].fill)
    ensures job == Job(u, f.kind)
  {
    var j: nat :| TypedBy(fills, next, [f], [0], job, j);
  }

  lemma OnlyFetch(s: Tables, u: Unit, i: FillId, f: NormalizedFill, to: Target, fetched: seq<Fill>)
    requires OneRowStored(s.fills, u, i, f, to)
    ensures IsFetch(s.fills, {}, u, fetched) <==> fetched == [s.fills[i].fill]
  {
    hide Keeps;
    var row := s.fills[i].fill;
    if IsFetch(s.fills, {}, u, fetched) {
      assert row in fetched;
      forall j | 0 <= j < |fetched| ensures fetched[j] == row {
        assert fetched[j] in fetched;
      }
      OnlyElement(fetched, row);
    }
  }

  lemma OneRowRuns(s: Tables, u: Unit, i: FillId, f: NormalizedFill, to: Target)
    requires s == EMPTY.(fills := s.fills) && OneRowStored(s.fills, u, i, f, to) && Storable(f)
    ensures CanRun(s, {}, Job(u, f.kind)) <==> CanOpen(f)
  {
    hide IsFetch, OneRowStored, Runnable;
    UnitHasProduct(s.fills, u, i, f, to);
    forall fetched ensures IsFetch(s.fills, {}, u, fetched) <==> fetched == [s.fills[i].fill] {
      OnlyFetch(s, u, i, f, to, fetched);
    }
    RowRunnable(s, u, i, f, to);
    if CanOpen(f) {
      assert WouldRun(s, {}, u, f.kind, [s.fills[i].fill]);
    }
  }

  lemma UnitHasProduct(fills: map<FillId, FillRow>, u: Unit, i: FillId, f: NormalizedFill, to: Target)
    requires OneRowStored(fills, u, i, f, to) && Storable(f)
    ensures i in fills && u.product == f.product && FamilyFor(u.product).Some?
    ensures u.user == to.user && u.account == to.account && Keeps(fills[i].fill, f, to)
    ensures FillInUnit(u, fills[i].fill)
  {
  }

  lemma RowRunnable(s: Tables, u: Unit, i: FillId, f: NormalizedFill, to: Target)
    requires s == EMPTY.(fills := s.fills) && OneRowStored(s.fills, u, i, f, to) && Storable(f)
    ensures Runnable(s, u, f.kind, [s.fills[i].fill]) <==> CanOpen(f)
  {
    hide RunType;
    var row := s.fills[i].fill;
    var t := RunType(u, f.kind);
    OneFillAccepted(row, t);
    assert s.Hist(u) + Mark([row], t) == [Processed(row, true, t)];
    assert [row][..0] == [] && s.Hist(u) + Mark([row][..0], t) == [];
    assert OpensTrade(s.Hist(u), [row], t, 0);
  }

  lemma OneFillAccepted(f: Fill, t: TradeType)
    ensures Accepted([Processed(f, true, t)]) <==> !f.exitTyped
    ensures Accepted([])
  {
    var none: History := [];
    var h := [Processed(f, true, t)];
    assert Front(h) == none && Last(h).fill == f && Position(none) == 0 && Clean(none) && ExitTypesOk(none);
    assert Clean(h) && ExitTypesOk(h) == !f.exitTyped;
  }

  lemma OneRowDone(s: Tables, s': Tables, u: Unit, i: FillId, f: NormalizedFill, to: Target)
    requires s == EMPTY.(fills := s.fills) && OneRowStored(s.fills, u, i, f, to) && Storable(f)
    requires JobsDone(s, s', {}, [Job(u, f.kind)]) && AccountLotsReady(s', to.account)
    ensures CanRun(s, {}, Job(u, f.kind)) && OneOpenTrade(s', f, to)
    ensures Opened(s, s', [Job(u, f.kind)]) == 1 && Closed(s, s', [Job(u, f.kind)]) == 0
  {
    hide TablesOk, IsFetch, OneRowStored, Runnable, AccountLotsReady, OneOpenTrade, Unprocessed, Keeps, FillInUnit,
         CanOpen, RunType;
    UnitHasProduct(s.fills, u, i, f, to);
    var job, row := Job(u, f.kind), s.fills[i].fill;
    var p := Processed(row, true, RunType(u, f.kind));
    assert JobDone(s, s', {}, [job][0]);
    var fetched :| WouldRun(s, {}, u, f.kind, fetched) && s'.Hist(u) == s.Hist(u) + Mark(fetched, RunType(u, f.kind));
    OnlyFetch(s, u, i, f, to, fetched);
    assert s'.Hist(u) == [p];
    forall v: Unit | v != u ensures s'.Ids(v) == [] {
      assert Untouched(s, s', v);
    }
    RowRunnable(s, u, i, f, to);
    OneTradeLeft(s', u, p, f, to, row);
    assert Front([job]) == [] && Last([job]) == job;
    OneZeroCount(p);
  }

  lemma OneZeroCount(p: Processed)
    ensures ZeroCount([p]) == 0 && ZeroCount([]) == 0
  {
    var none: History := [];
    assert Front([p]) == none && Position([p]) == Signed(p.fill);
  }

  lemma OneTradeLeft(s: Tables, u: Unit, p: Processed, f: NormalizedFill, to: Target, row: Fill)
    requires TablesOk(s) && s.Hist(u) == [p] && AccountLotsReady(s, to.account) && CanOpen(f) && Storable(f)
    requires p.fill == row && p.opensAs == (if FamilyFor(u.product).Some? then RunType(u, f.kind) else TradeMIS)
    requires Keeps(row, f, to) && FillInUnit(u, row) && forall v: Unit :: v != u ==> s.Ids(v) == []
    ensures |s.Ids(u)| == 1 && OneOpenTrade(s, f, to)
  {
    hide Accumulate, QtyOn, ValueOn, AccountLotsReady, LotsReady, TablesOk, InLockstep;
    var none: History := [];
    assert Front([p]) == none && Segments([p]) == [[p]];
    TradesOfUnit(s, u);
    var t := s.Ids(u)[0];
    RowOpened(u, p);
    forall o | o in s.trades ensures o == t {
      var k := OwnedTrade(s, UnitOfRow(s.trades[o]), o);
    }
    IdBelongs(s, u, 0);
    assert s.trades.Keys == {t};
    if f.product == CNC {
      LotsReadyFor(s, u);
      LotsInLockstep(s, t);
    }
  }
}
