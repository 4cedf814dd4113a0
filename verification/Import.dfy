/** Importing one broker file: ingest its fills, reconstruct every unit that gained one, record the import. */
module Import {
  import opened Sequences
  import opened TradeTypes
  import opened ZerodhaAdapter
  import opened Store
  import opened Queries
  import opened RunSpec
  import opened EngineTheorems
  import opened RunOutcome
  import opened Reconstruction
  import opened Ingest

  datatype ImportStatus = ImportComplete | ImportPartial | ImportEmpty | ImportFailed

  datatype ImportRecord = ImportRecord(account: AccountId, fileHash: string, rowCount: nat, errorCount: nat,
                                       status: ImportStatus)

  datatype ImportSummary = ImportSummary(ingested: nat, skipped: nat, rowErrors: nat,
                                         tradesCreated: int, tradesClosed: int, status: ImportStatus)

  datatype ImportError =
    | AccountUnavailable
    | DuplicateImport
    | NotParsed(outcome: ParseOutcome)
    | InstrumentUpsertFailed
    | BrokerIdHeld(brokerId: string)
    | ReconstructionFailed(error: EngineError)

  datatype Resolution = Resolved(id: InstrumentId) | InstrumentNotFound | UpsertFailed

  datatype Counts = Counts(ingested: nat, skipped: nat, unresolved: nat)

  /** How many of the fills cannot be resolved to an instrument. */
  function Unresolvable(parsed: seq<NormalizedFill>): (n: nat)
    ensures n <= |parsed|
    ensures (forall f :: f in parsed ==> Resolvable(f)) ==> n == 0
  {
    if parsed == [] then 0
    else Unresolvable(Front(parsed)) + if Resolvable(Last(parsed)) then 0 else 1
  }

  predicate Recorded(records: seq<ImportRecord>, fileHash: string, account: AccountId) {
    exists i :: 0 <= i < |records| && records[i].fileHash == fileHash && records[i].account == account
  }

  class ImportService {
    const engine: Engine
    var instruments: map<InstrumentKey, InstrumentId>
    var nextInstrument: InstrumentId
    var nextFill: FillId
    var records: seq<ImportRecord>

    ghost predicate Valid()
      reads this, engine
    {
      && TablesOk(engine.View()) && KeysUnique(engine.fills)
      && IdsBelow(engine.fills, engine.excluded, nextFill)
      && InstrumentsOk(instruments, nextInstrument)
    }

    constructor (engine: Engine, nextFill: FillId)
      requires TablesOk(engine.View()) && KeysUnique(engine.fills)
               && IdsBelow(engine.fills, engine.excluded, nextFill)
      ensures Valid() && this.engine == engine && records == [] && instruments == map[] && this.nextFill == nextFill
    {
      this.engine := engine;
      instruments, nextInstrument := map[], 0;
      this.nextFill := nextFill;
      records := [];
    }

    /** get_or_create: the instrument of a fill, inserted on first encounter. */
    method ResolveInstrument(f: NormalizedFill) returns (r: Resolution)
      requires InstrumentsOk(instruments, nextInstrument)
      modifies this`instruments, this`nextInstrument
      ensures InstrumentsOk(instruments, nextInstrument) && InstrumentsGrown(old(instruments), instruments)
      ensures r.InstrumentNotFound? <==>
                f.kind in {FUT, CE, PE} && (f.expiry.None? || (f.kind != FUT && f.strike.None?))
      ensures r.InstrumentNotFound? ==> instruments == old(instruments)
      ensures r.UpsertFailed? <==> f.kind.OtherInstrument?
      ensures r.Resolved? ==> KeyOf(f) in instruments && instruments[KeyOf(f)] == r.id &&
                              instruments.Keys == old(instruments).Keys + {KeyOf(f)}
    {
      if !Resolvable(f) {
        return InstrumentNotFound;
      }
      var key := KeyOf(f);
      if key !in instruments {
        instruments := instruments[key := nextInstrument];
        nextInstrument := nextInstrument + 1;
      }
      // The second lookup only knows equities, futures and options.
      r := if f.kind.OtherInstrument? then UpsertFailed else Resolved(instruments[key]);
    }

    method FillExists(brokerId: string, account: AccountId) returns (found: bool)
      ensures found <==> HasKey(engine.fills, account, brokerId)
    {
      found := exists i :: i in engine.fills && KeyAt(engine.fills, account, brokerId, i);
      assert found <==> exists i :: KeyAt(engine.fills, account, brokerId, i);
    }

    /** None is the IntegrityError of the two unique indexes, raised when the row is flushed. */
    method InsertNormalizedFill(to: Target, instrument: InstrumentId, f: NormalizedFill) returns (id: Option<FillId>)
      requires Valid()
      modifies this`nextFill, engine`fills
      ensures Valid()
      ensures id.None? <==>
                HasKey(old(engine.fills), to.account, f.brokerTradeId) ||
                HeldByBroker(old(engine.fills), f.brokerTradeId)
      ensures id.None? ==> engine.fills == old(engine.fills) && nextFill == old(nextFill)
      ensures id.Some? ==>
                && id.value == old(nextFill) && nextFill == id.value + 1
                && engine.fills ==
                   old(engine.fills)[id.value := FillRow(FillFor(id.value, to.user, to.account, instrument, f, to.now),
                                                         None, None)]
                && Keeps(engine.fills[id.value].fill, f, to)
                && engine.fills[id.value].fill.instrument == instrument
    {
      if exists i :: i in engine.fills && (KeyAt(engine.fills, to.account, f.brokerTradeId, i) ||
                                           HeldAt(engine.fills, f.brokerTradeId, i)) {
        return None;
      }
      ghost var s := engine.View();
      var row := FillFor(nextFill, to.user, to.account, instrument, f, to.now);
      engine.fills := engine.fills[nextFill := FillRow(row, None, None)];
      id := Some(nextFill);
      nextFill := nextFill + 1;
      InsertKeepsTables(s, engine.View(), row);
      InsertKeepsIdsUnique(s.fills, row, f.brokerTradeId);
    }

    /** The loop over the parsed fills. */
    method IngestFills(to: Target, parsed: seq<NormalizedFill>)
      returns (r: Result<(Counts, seq<Job>), ImportError>, ghost taken: seq<nat>)
      requires Valid()
      modifies this`instruments, this`nextInstrument, this`nextFill, engine`fills
      ensures Valid() && InstrumentsGrown(old(instruments), instruments)
      ensures r.Failure? <==> HasUnsupported(parsed) ||
                              exists k: nat :: Collides(old(engine.fills), to.account, parsed, k)
      ensures r.Failure? ==> r.error.InstrumentUpsertFailed? || r.error.BrokerIdHeld?
      ensures r.Failure? && r.error.InstrumentUpsertFailed? ==> HasUnsupported(parsed)
      ensures r.Failure? && r.error.BrokerIdHeld? ==>
                FirstHeldId(old(engine.fills), to.account, parsed, r.error.brokerId)
      ensures r.Success? ==>
                && Ingested(old(engine.fills), engine.fills, old(nextFill), to, instruments, parsed, taken, r.value.1)
                && RowsKeep(engine.fills, old(nextFill), to, parsed, taken)
                && JobsTyped(engine.fills, old(nextFill), parsed, taken, r.value.1)
                && r.value.0.ingested == |taken| && r.value.0.unresolved == Unresolvable(parsed)
                && r.value.0.ingested + r.value.0.skipped + r.value.0.unresolved == |parsed|
    {
      hide Ingested, TablesOk, KeysUnique, InstrumentsOk, Resolvable, KeyOf, FillFor, HasKey, HasJob, SeenUnits,
           IdsBelow, InstrumentsGrown, Unresolvable, HeldByBroker, Collides, FirstHeldId, RowsKeep, Keeps, JobsTyped;
      ghost var before, next := engine.fills, nextFill;
      taken := [];
      var ingested, skipped, unresolved := 0, 0, 0;
      var jobs: seq<Job>, seen: set<(InstrumentId, ProductType)> := [], {};
      NothingIngested(before, next, to, instruments);
      NothingSeen(to, instruments);
      NothingTyped(before, next, parsed);
      BelowNext(before, engine.excluded, next);
      var k := 0;
      while k < |parsed|
        invariant 0 <= k <= |parsed|
        invariant Valid() && nextFill == next + |taken| && InstrumentsGrown(old(instruments), instruments)
        invariant forall j :: 0 <= j < k ==> !parsed[j].kind.OtherInstrument?
        invariant forall j: nat :: j < k ==> !Collides(before, to.account, parsed, j)
        invariant Ingested(before, engine.fills, next, to, instruments, parsed[..k], taken, jobs)
        invariant unresolved == Unresolvable(parsed[..k]) && ingested == |taken| && ingested + skipped + unresolved == k
        invariant SeenUnits(to, jobs, seen)
        invariant JobsTyped(engine.fills, next, parsed, taken, jobs)
      {
        var f := parsed[k];
        ghost var done, instruments0 := parsed[..k], instruments;
        assert parsed[..k + 1] == done + [f];
        UnresolvableSnoc(done, f);
        NextCollides(before, engine.fills, next, to, instruments, parsed, k, taken, jobs);
        k := k + 1;
        var resolution := ResolveInstrument(f);
        ResolvableIff(f);
        GrownTwice(old(instruments), instruments0, instruments);
        match resolution
        case UpsertFailed =>
          return Failure(InstrumentUpsertFailed), taken;
        case InstrumentNotFound =>
          unresolved := unresolved + 1;
          NotStored(before, engine.fills, next, to, instruments, done, taken, jobs, f);
        case Resolved(instrument) =>
          IngestedGrown(before, engine.fills, next, to, instruments0, instruments, done, taken, jobs);
          var known := FillExists(f.brokerTradeId, to.account);
          if known {
            skipped := skipped + 1;
            NotStored(before, engine.fills, next, to, instruments, done, taken, jobs, f);
          } else {
            ghost var fills0, job := engine.fills, Job(Unit(to.user, to.account, instrument, f.product), f.kind);
            var inserted := InsertNormalizedFill(to, instrument, f);
            if inserted.None? {
              HeldIsFirst(before, to.account, parsed, k - 1);
              return Failure(BrokerIdHeld(f.brokerTradeId)), taken;
            }
            var id := inserted.value;
            ingested := ingested + 1;
            var unitKey := (instrument, f.product);
            ghost var jobs0 := jobs;
            FillForId(id, to, instrument, f);
            SeenIsHasJob(to, jobs, seen, FillFor(id, to.user, to.account, instrument, f, to.now));
            if unitKey !in seen {
              SeenAppend(to, jobs, seen, unitKey, f.kind);
              seen := seen + {unitKey};
              jobs := jobs + [Job(Unit(to.user, to.account, instrument, f.product), f.kind)];
            }
            StoredTyped(before, fills0, next, to, instruments, parsed, |done|, taken, jobs0, jobs, job);
            taken := taken + [|done|];
          }
      }
      assert parsed[..k] == parsed;
      NoneCollides(before, to.account, parsed);
      IngestedRowsKeep(before, engine.fills, next, to, instruments, nextInstrument, parsed, taken, jobs);
      r := Success((Counts(ingested, skipped, unresolved), jobs));
    }

    /** Step 6: one reconstruction run per unit. */
    method RunJobs(jobs: seq<Job>, ghost account: AccountId)
      returns (r: Result<(int, int), EngineError>)
      requires TablesOk(engine.View()) && KeysUnique(engine.fills) && OneJobPerUnit(jobs)
               && InAccount(jobs, account)
      modifies engine
      ensures engine.excluded == old(engine.excluded)
      ensures r.Success? ==> JobsDone(old(engine.View()), engine.View(), engine.excluded, jobs) &&
                             r.value ==
                               (Opened(old(engine.View()), engine.View(), jobs),
                                Closed(old(engine.View()), engine.View(), jobs))
      ensures jobs == [] ==> r.Success? && engine.View() == old(engine.View())
      ensures r.Success? && AccountLotsReady(old(engine.View()), account) ==> AccountLotsReady(engine.View(), account)
      ensures r.Success? ==> forall k :: 0 <= k < |jobs| ==> CanRun(old(engine.View()), engine.excluded, jobs[k])
      ensures r.Failure? && r.error != Inconsistent ==>
                exists k :: 0 <= k < |jobs| && !CanRun(old(engine.View()), engine.excluded, jobs[k])
      ensures r.Failure? && r.error == Inconsistent ==> !AccountLotsReady(old(engine.View()), account)
    {
      hide TablesOk, AccountIdsUnique, BrokerKeysUnique, JobsDone, RunDone, RunFailed, CanRun, AccountLotsReady,
           Opened, Closed;
      ghost var s, excluded := engine.View(), engine.excluded;
      NoJobsDone(s, excluded);
      var created, closed := 0, 0;
      var k := 0;
      assert jobs[..0] == [] && Opened(s, s, []) == Closed(s, s, []) == 0 by {
        NoTotals(s, s);
      }
      while k < |jobs|
        invariant 0 <= k <= |jobs| && engine.excluded == excluded
        invariant TablesOk(engine.View()) && JobsDone(s, engine.View(), excluded, jobs[..k])
        invariant created == Opened(s, engine.View(), jobs[..k]) && closed == Closed(s, engine.View(), jobs[..k])
        invariant k == 0 ==> engine.View() == s
        invariant AccountLotsReady(s, account) ==> AccountLotsReady(engine.View(), account)
      {
        ghost var mid := engine.View();
        var job := jobs[k];
        var result, fetched := engine.Run(job.u, job.instrumentType);
        if result.Failure? {
          FailedIsNotRunnable(mid, excluded, job.u, job.instrumentType, fetched, result.error);
          if result.error != Inconsistent {
            FailedJobCannotRun(s, mid, excluded, jobs[..k], job, fetched, result.error);
          } else if AccountLotsReady(s, account) {
            LotsReadyFor(mid, job.u);
            assert false;
          }
          return Failure(result.error);
        }
        JobRan(s, mid, engine.View(), excluded, jobs[..k], job, fetched, result.value, account);
        created, closed := created + result.value.tradesOpened, closed + result.value.tradesClosed;
        assert jobs[..k + 1] == jobs[..k] + [job];
        k := k + 1;
      }
      assert jobs[..k] == jobs;
      AllCouldRun(s, engine.View(), excluded, jobs);
      r := Success((created, closed));
    }

    /** import_fills: the whole pipeline for one file.  The ghost trace lists the fills taken, the
        units reconstructed and the tables between the two phases. */
    method ImportFills(to: Target, accountActive: bool, fileHash: string, readers: Readers, detected: bool,
                       rows: seq<ZerodhaAdapter.Row>, hint: Option<string>)
      returns (r: Result<ImportSummary, ImportError>, ghost trace: Trace)
      requires Valid()
      modifies this, engine
      ensures engine.excluded == old(engine.excluded)
      ensures r.Success? ==>
                && Valid() && accountActive && !Recorded(old(records), fileHash, to.account)
                && ParseIs(readers, detected, rows, hint, Parsed(trace.parsed, trace.errors))
                && Ingested(old(engine.fills), trace.mid.fills, old(nextFill), to, instruments, trace.parsed,
                            trace.taken, trace.jobs)
                && RowsKeep(trace.mid.fills, old(nextFill), to, trace.parsed, trace.taken)
                && JobsTyped(trace.mid.fills, old(nextFill), trace.parsed, trace.taken, trace.jobs)
                && trace.mid == old(engine.View()).(fills := trace.mid.fills)
                && (AccountLotsReady(old(engine.View()), to.account) ==> AccountLotsReady(engine.View(), to.account))
                && JobsDone(trace.mid, engine.View(), engine.excluded, trace.jobs)
                && (trace.jobs == [] ==> engine.View() == trace.mid)
                && SummaryIs(r.value, trace, engine.View(), |rows|)
                && records ==
                   old(records) + [ImportRecord(to.account, fileHash, |rows|, r.value.rowErrors, r.value.status)]
      ensures r == Failure(AccountUnavailable) <==> !accountActive
      ensures r == Failure(DuplicateImport) <==> accountActive && Recorded(old(records), fileHash, to.account)
      ensures r.Failure? && r.error.NotParsed? ==>
                ParseIs(readers, detected, rows, hint, r.error.outcome) && !r.error.outcome.Parsed?
      ensures r.Failure? ==> r.error != InstrumentUpsertFailed
      ensures r.Failure? && r.error.BrokerIdHeld? ==>
                && ParseIs(readers, detected, rows, hint, Parsed(trace.parsed, trace.errors))
                && FirstHeldId(old(engine.fills), to.account, trace.parsed, r.error.brokerId)
      ensures r.Success? || r.error.ReconstructionFailed? ==>
                forall k: nat :: !Collides(old(engine.fills), to.account, trace.parsed, k)
      ensures r.Failure? && r.error.ReconstructionFailed? ==>
                && ParseIs(readers, detected, rows, hint, Parsed(trace.parsed, trace.errors))
                && Ingested(old(engine.fills), trace.mid.fills, old(nextFill), to, instruments, trace.parsed,
                            trace.taken, trace.jobs)
                && RowsKeep(trace.mid.fills, old(nextFill), to, trace.parsed, trace.taken)
                && JobsTyped(trace.mid.fills, old(nextFill), trace.parsed, trace.taken, trace.jobs)
                && trace.mid == old(engine.View()).(fills := trace.mid.fills)
                && trace.jobs != []
      ensures r.Failure? && r.error.ReconstructionFailed? && r.error.error != Inconsistent ==>
                exists k :: 0 <= k < |trace.jobs| && !CanRun(trace.mid, engine.excluded, trace.jobs[k])
      ensures r.Failure? && r.error.ReconstructionFailed? && r.error.error == Inconsistent ==>
                !AccountLotsReady(old(engine.View()), to.account)
    {
      hide TablesOk, KeysUnique, IdsBelow, InstrumentsOk, Ingested, JobsDone, ParseIs, Storable, AccountLotsReady,
           CanRun, Opened, Closed, HasProductColumn, Collides, FirstHeldId, Recorded, Unresolvable, RowsKeep,
           JobsTyped;
      ghost var s, next, fills0 := engine.View(), nextFill, engine.fills;
      trace := NoTrace(s);
      if !accountActive {
        return Failure(AccountUnavailable), trace;
      }
      if Recorded(records, fileHash, to.account) {
        return Failure(DuplicateImport), trace;
      }
      var outcome := Parse(readers, detected, rows, hint);
      if !outcome.Parsed? {
        return Failure(NotParsed(outcome)), trace;
      }
      ParsedFileIsUsable(readers, detected, rows, hint, outcome);
      trace := trace.(parsed := outcome.fills, errors := outcome.errors);
      var ingest, taken := IngestFills(to, outcome.fills);
      if ingest.Failure? {
        return Failure(ingest.error), trace;
      }
      var (counts, jobs) := ingest.value;
      ghost var mid := engine.View();
      trace := Trace(outcome.fills, outcome.errors, taken, jobs, mid);
      IngestedJobs(fills0, mid.fills, next, to, instruments, outcome.fills, taken, jobs);
      if AccountLotsReady(s, to.account) {
        SameLotsReady(s, mid, to.account);
      }
      var runs := RunJobs(jobs, to.account);
      if runs.Failure? {
        return Failure(ReconstructionFailed(runs.error)), trace;
      }
      JobsKeepFills(mid, engine.View(), engine.excluded, jobs, nextFill);
      var rowErrors := |outcome.errors| + counts.unresolved;
      var status :=
        if counts.ingested == 0 && counts.skipped == 0 then (if rowErrors > 0 then ImportFailed else ImportEmpty)
        else if rowErrors > 0 then ImportPartial
        else ImportComplete;
      records := records + [ImportRecord(to.account, fileHash, |outcome.fills| + |outcome.errors|, rowErrors, status)];
      r := Success(ImportSummary(counts.ingested, counts.skipped, rowErrors, runs.value.0, runs.value.1, status));
    }

    /** An import inside its caller's transaction: a failure discards everything it did, so the tables
        stay valid over any sequence of imports. */
    method ImportInTransaction(to: Target, accountActive: bool, fileHash: string, readers: Readers, detected: bool,
                               rows: seq<ZerodhaAdapter.Row>, hint: Option<string>)
      returns (r: Result<ImportSummary, ImportError>, ghost trace: Trace)
      requires Valid()
      modifies this, engine
      ensures Valid() && engine.excluded == old(engine.excluded)
      ensures r.Success? ==> JobsDone(trace.mid, engine.View(), engine.excluded, trace.jobs) &&
                             SummaryIs(r.value, trace, engine.View(), |rows|) && |records| == |old(records)| + 1
      ensures r.Failure? ==> engine.View() == old(engine.View()) && instruments == old(instruments) &&
                             records == old(records) && nextFill == old(nextFill)
    {
      hide TablesOk, KeysUnique, IdsBelow, InstrumentsOk, Ingested, JobsDone, ParseIs, AccountLotsReady, CanRun,
           SummaryIs;
      var trades0, fills0, lots0, trade0 := engine.trades, engine.fills, engine.lots, engine.nextTrade;
      var instruments0, instrument0, fill0, records0 := instruments, nextInstrument, nextFill, records;
      ghost var history0, ids0 := engine.history, engine.ids;
      r, trace := ImportFills(to, accountActive, fileHash, readers, detected, rows, hint);
      if r.Failure? {
        engine.trades, engine.fills, engine.lots, engine.nextTrade := trades0, fills0, lots0, trade0;
        engine.history, engine.ids := history0, ids0;
        instruments, nextInstrument, nextFill, records := instruments0, instrument0, fill0, records0;
      }
    }

    /** Importing the same rows again, as another file: nothing is ingested and no table changes. */
    method ImportTwice(to: Target, fileHash: string, otherHash: string, readers: Readers, detected: bool,
                       rows: seq<ZerodhaAdapter.Row>, hint: Option<string>)
      returns (first: Result<ImportSummary, ImportError>, second: Result<ImportSummary, ImportError>,
               ghost between: Tables)
      requires Valid()
      modifies this, engine
      ensures first.Success? && otherHash == fileHash ==> second == Failure(DuplicateImport)
      ensures first.Success? && otherHash != fileHash && !Recorded(old(records), otherHash, to.account) ==>
                && second.Success? && engine.View() == between
                && second.value ==
                   ImportSummary(0, first.value.ingested + first.value.skipped, first.value.rowErrors, 0, 0,
                                                 first.value.status)
    {
      hide TablesOk, KeysUnique, IdsBelow, InstrumentsOk, Ingested, JobsDone, ParseIs, AccountLotsReady, Opened,
           Closed, InstrumentsGrown;
      ghost var fills0, next0, trace, again := engine.fills, nextFill, NoTrace(engine.View()), NoTrace(engine.View());
      first, trace := ImportFills(to, true, fileHash, readers, detected, rows, hint);
      between, second := engine.View(), first;
      if first.Success? {
        ghost var next1, instruments1 := nextFill, instruments;
        assert Last(records).fileHash == fileHash;
        NotRecordedYet(old(records), records, otherHash, to.account);
        second, again := ImportFills(to, true, otherHash, readers, detected, rows, hint);
        if otherHash != fileHash && !Recorded(old(records), otherHash, to.account) {
          if second.Failure? && second.error.NotParsed? {
            ParseIsOneWay(readers, detected, rows, hint, Parsed(trace.parsed, trace.errors), second.error.outcome);
          } else {
            ParseIsOneWay(readers, detected, rows, hint, Parsed(trace.parsed, trace.errors),
                          Parsed(again.parsed, again.errors));
            FileIsKnown(fills0, next0, instruments1, trace, between, engine.excluded, to);
            SecondImportTakesNothing(trace, between, next1, instruments, again, to);
          }
        }
      }
    }

    /** Duplicates are recognised per account, but broker ids are unique over all accounts: a file imported into
        one account is refused by another one, unless it has no usable row. */
    method ImportIntoTwoAccounts(to: Target, other: Target, fileHash: string, readers: Readers, detected: bool,
                                 rows: seq<ZerodhaAdapter.Row>, hint: Option<string>)
      returns (first: Result<ImportSummary, ImportError>, second: Result<ImportSummary, ImportError>)
      requires Valid() && other.account != to.account
      modifies this, engine
      ensures first.Success? && !Recorded(old(records), fileHash, other.account)
              && BrokerOnly(old(engine.fills), to.account) && BrokerOnly(old(engine.fills), other.account) ==>
                && (second.Failure? <==> first.value.ingested + first.value.skipped > 0)
                && (second.Failure? ==> second.error.BrokerIdHeld?)
    {
      hide TablesOk, KeysUnique, IdsBelow, InstrumentsOk, Ingested, JobsDone, ParseIs, AccountLotsReady, Opened,
           Closed, InstrumentsGrown, BrokerOnly, Collides;
      ghost var fills0, next0, records0 := engine.fills, nextFill, records;
      ghost var trace, again := NoTrace(engine.View()), NoTrace(engine.View());
      first, trace := ImportFills(to, true, fileHash, readers, detected, rows, hint);
      second := first;
      if first.Success? {
        ghost var between, next1, instruments1 := engine.View(), nextFill, instruments;
        NotRecordedYet(records0, records, fileHash, other.account);
        second, again := ImportFills(other, true, fileHash, readers, detected, rows, hint);
        ParsedFileIsUsable(readers, detected, rows, hint, Parsed(trace.parsed, trace.errors));
        if !Recorded(records0, fileHash, other.account)
           && BrokerOnly(fills0, to.account) && BrokerOnly(fills0, other.account) {
          if second.Failure? && second.error.NotParsed? {
            ParseIsOneWay(readers, detected, rows, hint, Parsed(trace.parsed, trace.errors), second.error.outcome);
          } else {
            ParseIsOneWay(readers, detected, rows, hint, Parsed(trace.parsed, trace.errors),
                          Parsed(again.parsed, again.errors));
            if trace.parsed != [] {
              assert trace.parsed[0] in trace.parsed;
              OtherAccountCollides(fills0, next0, instruments1, trace, between, engine.excluded, to, other);
            } else {
              NoneCollides(between.fills, other.account, []);
              if second.Failure? {
                SecondImportTakesNothing(trace, between, next1, instruments, again, other);
              }
            }
          }
        }
      }
    }
  }

  lemma IngestedRowsKeep(before: map<FillId, FillRow>, after: map<FillId, FillRow>, next: FillId, to: Target,
                         instruments: map<InstrumentKey, InstrumentId>, nextInstrument: InstrumentId,
                         parsed: seq<NormalizedFill>, taken: seq<nat>, jobs: seq<Job>)
    requires Ingested(before, after, next, to, instruments, parsed, taken, jobs)
    requires InstrumentsOk(instruments, nextInstrument)
    ensures RowsKeep(after, next, to, parsed, taken)
  {
    hide RowsAdded, RowsKeep, TakenExactly, KeysGrown, JobsCover, InstrumentsOk;
    AddedRowsKeep(before, after, next, to, instruments, nextInstrument, parsed, taken);
  }

  lemma NothingTyped(fills: map<FillId, FillRow>, next: FillId, parsed: seq<NormalizedFill>)
    ensures JobsTyped(fills, next, parsed, [], [])
  {
  }

  /** A fill that becomes a row, with its job. */
  lemma StoredTyped(before: map<FillId, FillRow>, after: map<FillId, FillRow>, next: FillId, to: Target,
                    instruments: map<InstrumentKey, InstrumentId>, parsed: seq<NormalizedFill>, k: nat,
                    taken: seq<nat>, jobs: seq<Job>, jobs': seq<Job>, job: Job)
    requires k < |parsed| && Ingested(before, after, next, to, instruments, parsed[..k], taken, jobs)
    requires JobsTyped(after, next, parsed, taken, jobs) && forall i :: i in before ==> i < next
    requires var f := parsed[k];
             && Resolvable(f) && !HasKey(after, to.account, f.brokerTradeId) && KeyOf(f) in instruments
             && job == Job(Unit(to.user, to.account, instruments[KeyOf(f)], f.product), f.kind)
             && jobs' == JobsWith(jobs, job, !HasJob(jobs, FillFor(next + |taken|, to.user, to.account,
                                                                   instruments[KeyOf(f)], f, to.now)))
    ensures var row := FillFor(next + |taken|, to.user, to.account, instruments[KeyOf(parsed[k])], parsed[k], to.now);
            var after' := after[row.id := FillRow(row, None, None)];
            && Ingested(before, after', next, to, instruments, parsed[..k] + [parsed[k]], taken + [k], jobs')
            && JobsTyped(after', next, parsed, taken + [k], jobs')
  {
    hide Ingested, JobsTyped, Resolvable, HasKey, HasJob, KeyOf, FillInUnit;
    var f := parsed[k];
    var row := FillFor(next + |taken|, to.user, to.account, instruments[KeyOf(f)], f, to.now);
    FillForId(next + |taken|, to, instruments[KeyOf(f)], f);
    IdIsNew(before, after, next, to, instruments, parsed[..k], taken, jobs);
    JobsTypedStep(after, next, parsed, taken, jobs, job, !HasJob(jobs, row), k, row);
    Stored(before, after, next, to, instruments, parsed[..k], taken, jobs, jobs', job, f);
  }

  lemma IdIsNew(before: map<FillId, FillRow>, after: map<FillId, FillRow>, next: FillId, to: Target,
                instruments: map<InstrumentKey, InstrumentId>, parsed: seq<NormalizedFill>, taken: seq<nat>,
                jobs: seq<Job>)
    requires Ingested(before, after, next, to, instruments, parsed, taken, jobs)
    requires forall i :: i in before ==> i < next
    ensures next + |taken| !in after
  {
  }

  lemma ResolvableIff(f: NormalizedFill)
    ensures !Resolvable(f) <==> f.kind in {FUT, CE, PE} && (f.expiry.None? || (f.kind != FUT && f.strike.None?))
  {
  }

  lemma HeldIsFirst(fills: map<FillId, FillRow>, account: AccountId, parsed: seq<NormalizedFill>, k: nat)
    requires Collides(fills, account, parsed, k) && forall j: nat :: j < k ==> !Collides(fills, account, parsed, j)
    ensures FirstHeldId(fills, account, parsed, parsed[k].brokerTradeId)
  {
    hide Collides;
    assert FirstCollision(fills, account, parsed, k);
  }

  lemma NoneCollides(fills: map<FillId, FillRow>, account: AccountId, parsed: seq<NormalizedFill>)
    requires forall k: nat :: k < |parsed| ==> !Collides(fills, account, parsed, k)
    ensures forall k: nat :: !Collides(fills, account, parsed, k)
  {
  }

  lemma NotRecordedYet(before: seq<ImportRecord>, after: seq<ImportRecord>, fileHash: string, account: AccountId)
    requires |after| == |before| + 1 && after[..|before|] == before
    ensures Recorded(after, fileHash, account) <==>
              Recorded(before, fileHash, account)
                || (after[|before|].fileHash == fileHash && after[|before|].account == account)
  {
    assert forall i :: 0 <= i < |before| ==> after[i] == before[i];
  }

  lemma ParseIsOneWay(readers: Readers, detected: bool, rows: seq<ZerodhaAdapter.Row>, hint: Option<string>,
                      a: ParseOutcome, b: ParseOutcome)
    requires ParseIs(readers, detected, rows, hint, a) && ParseIs(readers, detected, rows, hint, b)
    ensures a == b
  {
    hide ParseRow, HasProductColumn, PreScanRaises;
  }

  /** After a successful import the account has every usable id of the file. */
  lemma FileIsKnown(fills0: map<FillId, FillRow>, next0: FillId, instruments0: map<InstrumentKey, InstrumentId>,
                    first: Trace, between: Tables, excluded: set<FillId>, to: Target)
    requires Ingested(fills0, first.mid.fills, next0, to, instruments0, first.parsed, first.taken, first.jobs)
    requires JobsDone(first.mid, between, excluded, first.jobs)
    ensures forall k :: 0 <= k < |first.parsed| && Resolvable(first.parsed[k]) ==>
              HasKey(between.fills, to.account, first.parsed[k].brokerTradeId)
    ensures forall k: nat :: !Collides(between.fills, to.account, first.parsed, k)
  {
    hide TablesOk, Resolvable, JobDone, Unprocessed, OthersUnassigned, HasJob, OneJobPerUnit, HasKey, HeldByBroker;
    var parsed := first.parsed;
    forall k | 0 <= k < |parsed| && Resolvable(parsed[k])
      ensures HasKey(between.fills, to.account, parsed[k].brokerTradeId)
    {
      assert Mentions(parsed, parsed[k].brokerTradeId);
      KeysSurvive(first.mid, between, to.account, parsed[k].brokerTradeId);
    }
  }

  /** With the first import's fills in the tables, the same parsed fills add nothing. */
  lemma SecondImportTakesNothing(first: Trace, between: Tables, next1: FillId,
                                 instruments1: map<InstrumentKey, InstrumentId>, second: Trace, to: Target)
    requires second.parsed == first.parsed
    requires forall k :: 0 <= k < |first.parsed| && Resolvable(first.parsed[k]) ==>
              HasKey(between.fills, to.account, first.parsed[k].brokerTradeId)
    requires Ingested(between.fills, second.mid.fills, next1, to, instruments1, second.parsed, second.taken,
                      second.jobs)
    ensures second.taken == [] && second.jobs == [] && second.mid.fills == between.fills
    ensures Opened(second.mid, between, second.jobs) == Closed(second.mid, between, second.jobs) == 0
  {
    hide TablesOk, Resolvable, FirstOfKey, HasJob, OneJobPerUnit, HasKey, GainedRow;
    KnownFillsAreNotTaken(between.fills, to.account, first.parsed, second.taken);
    assert second.mid.fills == between.fills;
    if second.jobs != [] {
      NoRowGained(between.fills, second.jobs[0]);
    }
  }

  lemma NoRowGained(fills: map<FillId, FillRow>, job: Job)
    ensures !GainedRow(fills, fills, job)
  {
  }

  /** All of the account's broker ids are this broker's. */
  ghost predicate BrokerOnly(fills: map<FillId, FillRow>, account: AccountId) {
    forall i :: i in fills && fills[i].fill.account == account && fills[i].fill.brokerId.Some? ==>
                    fills[i].fill.broker == BROKER
  }

  lemma ImportedIsBrokerOnly(before: map<FillId, FillRow>, after: map<FillId, FillRow>, next: FillId, to: Target,
                             instruments: map<InstrumentKey, InstrumentId>, parsed: seq<NormalizedFill>,
                             taken: seq<nat>, account: AccountId)
    requires RowsAdded(before, after, next, to, instruments, parsed, taken) && BrokerOnly(before, account)
    ensures BrokerOnly(after, account)
  {
    hide KeyOf, FillFor;
    forall i | i in after && i !in before ensures after[i].fill.broker == BROKER {
      AddedToAccount(before, after, next, to, instruments, parsed, taken, i);
    }
  }

  /** A file imported into one account collides in another one with its first usable fill. */
  lemma OtherAccountCollides(fills0: map<FillId, FillRow>, next0: FillId,
                             instruments0: map<InstrumentKey, InstrumentId>, first: Trace, between: Tables,
                             excluded: set<FillId>, to: Target, other: Target)
    requires Ingested(fills0, first.mid.fills, next0, to, instruments0, first.parsed, first.taken, first.jobs)
    requires JobsDone(first.mid, between, excluded, first.jobs) && KeysUnique(between.fills)
    requires BrokerOnly(fills0, to.account) && BrokerOnly(fills0, other.account) && to.account != other.account
    requires |first.parsed| > 0 && Resolvable(first.parsed[0])
    ensures Collides(between.fills, other.account, first.parsed, 0)
  {
    hide TablesOk, Resolvable, JobDone, Unprocessed, OthersUnassigned, HasJob, OneJobPerUnit, RowsAdded, TakenExactly,
         KeysGrown, JobsCover;
    var b := first.parsed[0].brokerTradeId;
    FileIsKnown(fills0, next0, instruments0, first, between, excluded, to);
    ImportedIsBrokerOnly(fills0, first.mid.fills, next0, to, instruments0, first.parsed, first.taken, to.account);
    ImportedIsBrokerOnly(fills0, first.mid.fills, next0, to, instruments0, first.parsed, first.taken, other.account);
    var i: FillId :| KeyAt(between.fills, to.account, b, i);
    assert HeldAt(between.fills, b, i);
    forall j: FillId ensures !KeyAt(between.fills, other.account, b, j) {
      assert KeyAt(between.fills, other.account, b, j) ==>
             SameBrokerId(between.fills[i].fill, between.fills[j].fill);
    }
  }

  lemma KeysSurvive(s: Tables, s': Tables, account: AccountId, brokerId: string)
    requires SameFillKeys(s, s') && HasKey(s.fills, account, brokerId)
    ensures HasKey(s'.fills, account, brokerId)
  {
    var i :| KeyAt(s.fills, account, brokerId, i);
    assert KeyAt(s'.fills, account, brokerId, i);
  }

  /** After a successful import every fill it stored, and every fill of the units it touched that is
      not excluded, has a trade and a role; earlier assignments stand. */
  lemma ImportedFillsAreAssigned(before: map<FillId, FillRow>, next: FillId, to: Target,
                                 instruments: map<InstrumentKey, InstrumentId>,
                                 trace: Trace, after: Tables, excluded: set<FillId>, i: FillId)
    requires IdsBelow(before, excluded, next)
    requires Ingested(before, trace.mid.fills, next, to, instruments, trace.parsed, trace.taken, trace.jobs)
    requires JobsDone(trace.mid, after, excluded, trace.jobs)
    ensures i in after.fills && HasJob(trace.jobs, after.fills[i].fill) && i !in excluded ==>
              after.fills[i].trade.Some? && after.fills[i].role.Some?
    ensures next <= i < next + |trace.taken| ==>
              i in after.fills && after.fills[i].trade.Some? && after.fills[i].role.Some?
    ensures i in before && before[i].trade.Some? ==> i in after.fills && after.fills[i] == before[i]
  {
    hide JobDone, FirstOfKey, Resolvable, KeyOf, FillFor, FillInUnit, HasKey;
    if i in after.fills && HasJob(trace.jobs, after.fills[i].fill) && i !in excluded {
      var q :| 0 <= q < |trace.jobs| && FillInUnit(trace.jobs[q].u, after.fills[i].fill);
      assert !Unprocessed(after.fills, excluded, trace.jobs[q].u, i);
      assert FillOk(after, i);
    }
  }

  /** What one import did, for its contract to speak about. */
  datatype Trace = Trace(parsed: seq<NormalizedFill>, errors: seq<RowError>, taken: seq<nat>, jobs: seq<Job>,
                         mid: Tables)

  ghost function NoTrace(s: Tables): Trace {
    Trace([], [], [], [], s)
  }

  /** The summary accounts for every row of the file once; with this adapter no fill is unresolvable,
      so the row errors are the parse errors, and an empty status cannot occur. */
  ghost predicate SummaryIs(r: ImportSummary, trace: Trace, after: Tables, rows: nat) {
    && r.ingested + r.skipped + r.rowErrors == rows && rows > 0
    && r.ingested == |trace.taken| && r.rowErrors == |trace.errors|
    && r.tradesCreated == Opened(trace.mid, after, trace.jobs) && r.tradesClosed == Closed(trace.mid, after, trace.jobs)
    && (r.status == ImportComplete <==> r.rowErrors == 0)
    && (r.status == ImportFailed <==> r.rowErrors == rows)
    && (r.status == ImportPartial <==> 0 < r.rowErrors < rows)
  }

  /** What the import relies on in a parsed file. */
  lemma ParsedFileIsUsable(readers: Readers, detected: bool, rows: seq<ZerodhaAdapter.Row>, hint: Option<string>,
                           out: ParseOutcome)
    requires ParseIs(readers, detected, rows, hint, out) && out.Parsed?
    ensures |out.fills| + |out.errors| == |rows| > 0
    ensures forall f :: f in out.fills ==> Resolvable(f) && !f.kind.OtherInstrument?
    ensures !HasUnsupported(out.fills)
  {
    hide ParseRow, HasProductColumn;
    PreScanIsSound(readers, rows, hint, out);
    assert forall f :: f in out.fills ==> Storable(f);
  }

  lemma IngestedJobs(before: map<FillId, FillRow>, after: map<FillId, FillRow>, next: FillId, to: Target,
                     instruments: map<InstrumentKey, InstrumentId>, parsed: seq<NormalizedFill>, taken: seq<nat>,
                     jobs: seq<Job>)
    requires Ingested(before, after, next, to, instruments, parsed, taken, jobs)
    ensures OneJobPerUnit(jobs) && InAccount(jobs, to.account)
  {
  }

  lemma SameLotsReady(s: Tables, s': Tables, account: AccountId)
    requires s' == s.(fills := s'.fills) && AccountLotsReady(s, account)
    ensures AccountLotsReady(s', account)
  {
  }

  /** Reconstruction changes no fill's identity, so keys stay unique and ids stay below the next one. */
  lemma JobsKeepFills(s: Tables, s': Tables, excluded: set<FillId>, jobs: seq<Job>, next: FillId)
    requires JobsDone(s, s', excluded, jobs) && KeysUnique(s.fills) && IdsBelow(s.fills, excluded, next)
    ensures TablesOk(s') && KeysUnique(s'.fills) && IdsBelow(s'.fills, excluded, next)
  {
    hide TablesOk, JobDone, Unprocessed, OthersUnassigned, SameBrokerKey, SameBrokerId;
  }

  lemma NoTotals(s: Tables, s': Tables)
    ensures Opened(s, s', []) == Closed(s, s', []) == 0
  {
  }

  lemma LotsReadyFor(s: Tables, u: Unit)
    requires AccountLotsReady(s, u.account)
    ensures LotsReady(s, u)
  {
  }

  lemma AllCouldRun(s: Tables, s': Tables, excluded: set<FillId>, jobs: seq<Job>)
    requires JobsDone(s, s', excluded, jobs)
    ensures forall k :: 0 <= k < |jobs| ==> CanRun(s, excluded, jobs[k])
  {
    hide TablesOk, WouldRun;
    forall k | 0 <= k < |jobs| ensures CanRun(s, excluded, jobs[k]) {
      assert JobDone(s, s', excluded, jobs[k]);
    }
  }

  /** One more successful run. */
  lemma JobRan(s: Tables, mid: Tables, s': Tables, excluded: set<FillId>, jobs: seq<Job>, job: Job,
               fetched: seq<Fill>, result: RunResult, account: AccountId)
    requires TablesOk(mid) && JobsDone(s, mid, excluded, jobs) && job.u.account == account
    requires forall k :: 0 <= k < |jobs| ==> jobs[k].u != job.u
    requires RunDone(mid, s', excluded, job.u, job.instrumentType, fetched, result)
    ensures TablesOk(s') && JobsDone(s, s', excluded, jobs + [job])
    ensures Opened(s, s', jobs + [job]) == Opened(s, mid, jobs) + result.tradesOpened
    ensures Closed(s, s', jobs + [job]) == Closed(s, mid, jobs) + result.tradesClosed
    ensures AccountLotsReady(mid, account) ==> AccountLotsReady(s', account)
  {
    hide TablesOk, RunDone, AccountLotsReady, Opened, Closed, Step, JobDone, Unprocessed, OthersUnassigned,
         SameFillKeys;
    RunIsStep(mid, s', excluded, job, fetched, result);
    JobsDoneStep(s, mid, s', excluded, jobs, job, fetched);
    TotalsStep(s, mid, s', excluded, jobs, job, fetched, result);
    if AccountLotsReady(mid, account) {
      RunKeepsAccountLots(mid, s', excluded, job.u, job.instrumentType, fetched, result);
    }
  }

  /** seen_units holds the keys of the units collected so far. */
  ghost predicate SeenUnits(to: Target, jobs: seq<Job>, seen: set<(InstrumentId, ProductType)>) {
    && (forall q :: 0 <= q < |jobs| ==> jobs[q].u.user == to.user && jobs[q].u.account == to.account &&
                                        (jobs[q].u.instrument, jobs[q].u.product) in seen)
    && (forall key :: key in seen ==>
          exists q :: 0 <= q < |jobs| && jobs[q].u == Unit(to.user, to.account, key.0, key.1))
  }

  lemma BelowNext(fills: map<FillId, FillRow>, excluded: set<FillId>, next: FillId)
    requires IdsBelow(fills, excluded, next)
    ensures forall i :: i in fills ==> i < next
  {
  }

  lemma NothingSeen(to: Target, instruments: map<InstrumentKey, InstrumentId>)
    ensures SeenUnits(to, [], {}) && InstrumentsGrown(instruments, instruments)
  {
  }

  lemma SeenAppend(to: Target, jobs: seq<Job>, seen: set<(InstrumentId, ProductType)>, key: (InstrumentId, ProductType),
                   kind: InstrumentType)
    requires SeenUnits(to, jobs, seen)
    ensures SeenUnits(to, jobs + [Job(Unit(to.user, to.account, key.0, key.1), kind)], seen + {key})
  {
    var jobs' := jobs + [Job(Unit(to.user, to.account, key.0, key.1), kind)];
    forall other | other in seen + {key}
      ensures exists q :: 0 <= q < |jobs'| && jobs'[q].u == Unit(to.user, to.account, other.0, other.1)
    {
      if other == key {
        assert jobs'[|jobs|].u == Unit(to.user, to.account, other.0, other.1);
      } else {
        var q :| 0 <= q < |jobs| && jobs[q].u == Unit(to.user, to.account, other.0, other.1);
        assert jobs'[q] == jobs[q];
      }
    }
  }

  lemma UnresolvableSnoc(parsed: seq<NormalizedFill>, f: NormalizedFill)
    ensures Unresolvable(parsed + [f]) == Unresolvable(parsed) + if Resolvable(f) then 0 else 1
  {
    assert (parsed + [f])[..|parsed|] == parsed;
  }

  lemma GrownTwice(a: map<InstrumentKey, InstrumentId>, b: map<InstrumentKey, InstrumentId>,
                   c: map<InstrumentKey, InstrumentId>)
    requires InstrumentsGrown(a, b) && InstrumentsGrown(b, c)
    ensures InstrumentsGrown(a, c)
  {
  }

  lemma SeenIsHasJob(to: Target, jobs: seq<Job>, seen: set<(InstrumentId, ProductType)>, f: Fill)
    requires SeenUnits(to, jobs, seen) && f.user == to.user && f.account == to.account
    ensures HasJob(jobs, f) <==> (f.instrument, f.product) in seen
  {
  }
}
