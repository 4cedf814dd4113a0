/** The contract of one reconstruction run, from the cursor a run carries between fills to what
    a whole run has done to the tables. */
module RunSpec {
  import opened Sequences
  import opened TradeTypes
  import opened FixedPoint
  import opened FillOrder
  import opened Ledger
  import opened Batching
  import opened RowSteps
  import opened Store
  import opened Queries
  import opened LotSteps

  /** The local variables one run carries from fill to fill. */
  datatype Cursor = Cursor(running: int, current: Option<Snapshot>, entryQty: int, entryValue: int,
                           exitFills: seq<Fill>)

  datatype RunResult = RunResult(fillsProcessed: nat, tradesOpened: nat, tradesClosed: nat,
                                 lotsCreated: nat, lotsUpdated: nat, affected: Option<TradeId>)

  const NOTHING_DONE := RunResult(0, 0, 0, 0, 0, None)

  /** The provisional trade type of a run; irrelevant when the run opens no trade. */
  function RunType(u: Unit, instrumentType: InstrumentType): TradeType
    requires FamilyFor(u.product).Some?
  {
    match ProvisionalTradeType(FamilyFor(u.product).value, instrumentType)
    case Some(t) => t
    case None => TradeNRMLOpt
  }

  /** The cursor describes the open trade whose fills so far are s. */
  ghost predicate CursorAt(c: Cursor, id: TradeId, u: Unit, s: History, atStart: bool) {
    |s| > 0 &&
    var acc := Accumulate(s, EntrySide(s));
    && c.current == Some(SnapshotOf(id, Row(u, s)))
    && c.entryQty == acc.qty
    && c.entryValue == (if atStart then acc.average * acc.qty else acc.value)
    && QtyOf(c.exitFills) == ExitQty(s) && ValueOf(c.exitFills) == ValueOn(s, Opposite(EntrySide(s)))
  }

  ghost predicate CursorOk(s: Tables, u: Unit, c: Cursor, atStart: bool) {
    var segments, ids := Segments(s.Hist(u)), s.Ids(u);
    match c.current
    case None => c.running == Position(s.Hist(u)) && Flat(segments)
    case Some(_) => c.running == Position(s.Hist(u)) && segments != [] && !Flat(segments) &&
                    ids != [] && CursorAt(c, Last(ids), u, Last(segments), atStart)
  }

  /** The weighted average price of the exit fills, rounded to a price. */
  function ComputeAverageExit(exitFills: seq<Fill>): int {
    if exitFills == [] then 0 else RoundDiv(ValueOf(exitFills), QtyOf(exitFills))
  }

  /** What one processed fill does to the tables. */
  ghost predicate Stepped(s: Tables, s': Tables, u: Unit, p: Processed) {
    match s'
    case Tables(_, fills, _, _, history, ids) =>
      && TablesOk(s')
      && history == s.history[u := s.Hist(u) + [p]]
      && ids == s.ids[u := s'.Ids(u)] && s.Ids(u) <= s'.Ids(u) && s'.Ids(u) != []
      && p.fill.id in fills && fills == s.fills[p.fill.id := fills[p.fill.id]]
      && fills[p.fill.id].fill == p.fill && fills[p.fill.id].trade == Some(Last(s'.Ids(u)))
  }

  /** Lots follow the unit's trades, and no other lot is touched. */
  ghost predicate LotsKept(s: Tables, s': Tables, u: Unit) {
    && (u.product != CNC ==> s'.lots == s.lots)
    && (u.product == CNC && LotsReady(s, u) ==> LotsReady(s', u) && OtherLotsSame(s.lots, s'.lots, s'.Ids(u)))
  }

  /** One accepted fill, with what it did to the lots. */
  ghost predicate StepTo(s: Tables, s': Tables, u: Unit, p: Processed) {
    Stepped(s, s', u, p) && LotMoved(s, s', u, p)
  }

  ghost predicate OtherLotsSame(before: map<TradeId, LotRow>, after: map<TradeId, LotRow>, own: seq<TradeId>) {
    forall t :: t !in own ==> (t in after <==> t in before) && (t in before ==> after[t] == before[t])
  }

  /** How the counters move with one fill. */
  ghost function Tally(r: RunResult, s: Tables, s': Tables, u: Unit): RunResult
    requires s'.Ids(u) != []
  {
    var grew := |s'.Ids(u)| > |s.Ids(u)|;
    RunResult(r.fillsProcessed + 1,
              r.tradesOpened + (if grew then 1 else 0),
              r.tradesClosed + (if Position(s'.Hist(u)) == 0 then 1 else 0),
              r.lotsCreated + (if grew && u.product == CNC then 1 else 0),
              r.lotsUpdated + (if !grew && u.product == CNC then 1 else 0),
              if grew then Some(Last(s'.Ids(u))) else r.affected)
  }

  /** Everything one accepted fill establishes. */
  ghost predicate StepDone(s: Tables, s': Tables, u: Unit, p: Processed, before: RunResult,
                           after: (Cursor, RunResult)) {
    match after
    case (next, counted) =>
      && StepTo(s, s', u, p) && CursorOk(s', u, next, false) && LotsKept(s, s', u)
      && counted == Tally(before, s, s', u)
  }

  // ---------- a whole run ----------

  /** States a run passes through, one fill at a time. */
  ghost predicate Path(u: Unit, t: TradeType, fetched: seq<Fill>, states: seq<Tables>) {
    && 0 < |states| <= |fetched| + 1
    && forall j :: 0 <= j < |states| - 1 ==> StepTo(states[j], states[j + 1], u, Processed(fetched[j], j == 0, t))
  }

  /** A run that starts in s can be in s' after n fills. */
  ghost predicate Reaches(s: Tables, s': Tables, u: Unit, t: TradeType, fetched: seq<Fill>, n: nat) {
    exists states :: Path(u, t, fetched, states) && |states| == n + 1 && states[0] == s && states[n] == s'
  }

  lemma ReachesStart(s: Tables, u: Unit, t: TradeType, fetched: seq<Fill>)
    ensures Reaches(s, s, u, t, fetched, 0)
  {
    assert Path(u, t, fetched, [s]);
  }

  lemma ReachesNext(s: Tables, mid: Tables, s': Tables, u: Unit, t: TradeType, fetched: seq<Fill>, n: nat)
    requires n < |fetched| && Reaches(s, mid, u, t, fetched, n)
    requires StepTo(mid, s', u, Processed(fetched[n], n == 0, t))
    ensures Reaches(s, s', u, t, fetched, n + 1)
  {
    hide StepTo;
    var states :| Path(u, t, fetched, states) && |states| == n + 1 && states[0] == s && states[n] == mid;
    assert Path(u, t, fetched, states + [s']);
  }

  /** After i fills a run can meet lots that refuse the next one. */
  ghost predicate StopsAtLots(s: Tables, u: Unit, t: TradeType, fetched: seq<Fill>, i: nat) {
    i < |fetched| &&
    exists mid :: Reaches(s, mid, u, t, fetched, i) && LotFault(mid, u, Processed(fetched[i], i == 0, t))
  }

  ghost predicate Lists(done: seq<Fill>, i: FillId) {
    exists j :: 0 <= j < |done| && done[j].id == i
  }

  /** The listed fills have been given a trade and a role; every other row is untouched. */
  ghost predicate FillsAssigned(before: map<FillId, FillRow>, after: map<FillId, FillRow>, done: seq<Fill>) {
    && after.Keys == before.Keys
    && (forall i :: i in before && !Lists(done, i) ==> after[i] == before[i])
    && (forall i :: i in before && Lists(done, i) ==> after[i].fill == before[i].fill && after[i].trade.Some?)
  }

  ghost predicate Counted(s: Tables, s': Tables, u: Unit, done: nat, result: RunResult) {
    var opens := |s'.Ids(u)| - |s.Ids(u)|;
    && result.fillsProcessed == done && result.tradesOpened == opens
    && result.tradesClosed == ZeroCount(s'.Hist(u)) - ZeroCount(s.Hist(u))
    && result.lotsCreated == (if u.product == CNC then opens else 0)
    && result.lotsUpdated == (if u.product == CNC then done - opens else 0)
    && result.affected == if done == 0 && Flat(Segments(s.Hist(u))) then None
                          else if s'.Ids(u) == [] then None else Some(Last(s'.Ids(u)))
  }

  /** The last fill taken belongs to the unit's last trade. */
  ghost predicate LastFillIn(fills: map<FillId, FillRow>, done: seq<Fill>, ids: seq<TradeId>) {
    done != [] ==> ids != [] && Last(done).id in fills && fills[Last(done).id].trade == Some(Last(ids))
  }

  ghost predicate SoFar(s: Tables, s': Tables, u: Unit, t: TradeType, done: seq<Fill>, result: RunResult) {
    match s'
    case Tables(_, fills, _, _, history, ids) =>
      && s'.Hist(u) == s.Hist(u) + Mark(done, t)
      && history == (if done == [] then s.history else s.history[u := s'.Hist(u)])
      && ids == (if done == [] then s.ids else s.ids[u := s'.Ids(u)]) && s.Ids(u) <= s'.Ids(u)
      && FillsAssigned(s.fills, fills, done) && LastFillIn(fills, done, s'.Ids(u))
      && LotsKept(s, s', u)
      && Counted(s, s', u, |done|, result)
  }

  lemma MarkSnoc(done: seq<Fill>, f: Fill, t: TradeType)
    ensures Mark(done + [f], t) == Mark(done, t) + [Processed(f, done == [], t)]
  {
  }

  lemma AssignedSnoc(before: map<FillId, FillRow>, mid: map<FillId, FillRow>, done: seq<Fill>, f: Fill, row: FillRow)
    requires FillsAssigned(before, mid, done)
    requires f.id in mid && row.fill == mid[f.id].fill && row.trade.Some?
    ensures FillsAssigned(before, mid[f.id := row], done + [f])
  {
    var done' := done + [f];
    forall i ensures Lists(done', i) <==> Lists(done, i) || i == f.id {
      if Lists(done, i) {
        var j :| 0 <= j < |done| && done[j].id == i;
        assert done'[j].id == i;
      }
      if i == f.id {
        assert done'[|done|].id == i;
      }
    }
  }

  lemma LotsKeptStep(s: Tables, mid: Tables, s': Tables, u: Unit)
    requires LotsKept(s, mid, u) && LotsKept(mid, s', u) && mid.Ids(u) <= s'.Ids(u)
    ensures LotsKept(s, s', u)
  {
    hide LotsReady;
    assert forall t :: t !in s'.Ids(u) ==> t !in mid.Ids(u);
  }

  /** A trade is opened exactly by a fill on a flat position. */
  lemma OpensWhenFlat(s: Tables, s': Tables, u: Unit, p: Processed)
    requires TablesOk(s) && TablesOk(s') && s'.Hist(u) == s.Hist(u) + [p] && s.Ids(u) <= s'.Ids(u)
    ensures |s'.Ids(u)| == |s.Ids(u)| + if Flat(Segments(s.Hist(u))) then 1 else 0
    ensures !Flat(Segments(s.Hist(u))) ==> s.Ids(u) != []
  {
    UnitAlwaysOk(s, u);
    UnitAlwaysOk(s', u);
    SegmentsSnoc(s.Hist(u), p);
    SegmentsPosition(s.Hist(u));
    if Segments(s.Hist(u)) != [] {
      PositionOfSegment(Last(Segments(s.Hist(u))));
    }
  }

  lemma CountedStep(s: Tables, mid: Tables, s': Tables, u: Unit, p: Processed, done: nat, result: RunResult)
    requires TablesOk(mid) && TablesOk(s') && Counted(s, mid, u, done, result)
    requires s'.Hist(u) == mid.Hist(u) + [p] && mid.Ids(u) <= s'.Ids(u) && s'.Ids(u) != []
    requires done == 0 ==> mid.Hist(u) == s.Hist(u) && mid.Ids(u) == s.Ids(u)
    ensures Counted(s, s', u, done + 1, Tally(result, mid, s', u))
  {
    hide TablesOk, Segments, Flat;
    OpensWhenFlat(mid, s', u, p);
    Snoc(mid.Hist(u), p);
  }

  lemma SoFarStep(s: Tables, mid: Tables, s': Tables, u: Unit, t: TradeType, done: seq<Fill>, f: Fill,
                  result: RunResult)
    requires TablesOk(mid) && SoFar(s, mid, u, t, done, result)
    requires Stepped(mid, s', u, Processed(f, done == [], t)) && LotsKept(mid, s', u)
    requires f.id in mid.fills && mid.fills[f.id].fill == f
    ensures SoFar(s, s', u, t, done + [f], Tally(result, mid, s', u))
  {
    hide TablesOk, LotsKept, Counted, FillsAssigned, Tally;
    MarkSnoc(done, f, t);
    AssignedSnoc(s.fills, mid.fills, done, f, s'.fills[f.id]);
    LotsKeptStep(s, mid, s', u);
    CountedStep(s, mid, s', u, Processed(f, done == [], t), |done|, result);
  }

  /** Fills not yet processed in this run are still unassigned. */
  lemma NextIsUnassigned(s: Tables, excluded: set<FillId>, u: Unit, fetched: seq<Fill>, i: nat,
                         after: map<FillId, FillRow>)
    requires TablesOk(s) && IsFetch(s.fills, excluded, u, fetched) && i < |fetched|
    requires FillsAssigned(s.fills, after, fetched[..i])
    ensures FillInUnit(u, fetched[i]) && fetched[i].id in after
    ensures after[fetched[i].id] == FillRow(fetched[i], None, None)
  {
    var f := fetched[i];
    assert f in fetched;
    assert FillOk(s, f.id);
    forall j | 0 <= j < i ensures fetched[j].id != f.id {
      assert fetched[j] in fetched;
    }
    assert !Lists(fetched[..i], f.id);
  }

  /** Fill i is the first that takes the position across zero. */
  ghost predicate FirstCrossing(past: History, fetched: seq<Fill>, t: TradeType, i: nat) {
    i < |fetched| && Accepted(past + Mark(fetched[..i], t)) && !Clean(past + Mark(fetched[..i + 1], t))
  }

  /** Fill i is the first that would play ENTRY although it carries an exit type. */
  ghost predicate FirstTypedEntry(past: History, fetched: seq<Fill>, t: TradeType, i: nat) {
    && i < |fetched| && Accepted(past + Mark(fetched[..i], t))
    && Clean(past + Mark(fetched[..i + 1], t)) && !ExitTypesOk(past + Mark(fetched[..i + 1], t))
  }

  lemma TypedEntrySpoilsTheRun(past: History, fetched: seq<Fill>, t: TradeType, i: nat)
    requires FirstTypedEntry(past, fetched, t, i)
    ensures !Accepted(past + Mark(fetched, t))
  {
    var prefix, rest := past + Mark(fetched[..i + 1], t), Mark(fetched, t)[i + 1..];
    assert prefix + rest == past + Mark(fetched, t);
    if ExitTypesOk(past + Mark(fetched, t)) {
      ExitTypesPrefix(prefix, rest);
    }
  }

  lemma CrossingSpoilsTheRun(past: History, fetched: seq<Fill>, t: TradeType, i: nat)
    requires FirstCrossing(past, fetched, t, i)
    ensures !Clean(past + Mark(fetched, t))
  {
    var prefix, rest := past + Mark(fetched[..i + 1], t), Mark(fetched, t)[i + 1..];
    assert prefix + rest == past + Mark(fetched, t);
    if Clean(past + Mark(fetched, t)) {
      CleanPrefix(prefix, rest);
    }
  }

  /** What a successful run leaves behind. */
  ghost predicate RunDone(s: Tables, s': Tables, excluded: set<FillId>, u: Unit, instrumentType: InstrumentType,
                          fetched: seq<Fill>, result: RunResult) {
    match s'
    case Tables(_, fills, lots, _, history, ids) =>
      && FamilyFor(u.product).Some? && TablesOk(s')
      && IsFetch(s.fills, excluded, u, fetched) && AdjacentPairsClear(fetched)
      && Accepted(s.Hist(u) + Mark(fetched, RunType(u, instrumentType)))
      && if fetched == [] then s' == s && result == NOTHING_DONE
         else && SoFar(s, s', u, RunType(u, instrumentType), fetched, result) && OpensTyped(s, s', u, instrumentType)
              && Reaches(s, s', u, RunType(u, instrumentType), fetched, |fetched|)
  }

  /** A trade is only opened under a derivable trade type. */
  ghost predicate OpensTyped(s: Tables, s': Tables, u: Unit, instrumentType: InstrumentType)
    requires FamilyFor(u.product).Some?
  {
    |s'.Ids(u)| > |s.Ids(u)| ==> ProvisionalTradeType(FamilyFor(u.product).value, instrumentType).Some?
  }

  /** Fill i finds the position flat, so it has to open a trade. */
  ghost predicate OpensTrade(past: History, fetched: seq<Fill>, t: TradeType, i: nat) {
    i < |fetched| && Accepted(past + Mark(fetched[..i], t)) && Position(past + Mark(fetched[..i], t)) == 0
  }

  /** Why a run over a non-empty fetch may fail: each error with its cause. */
  ghost predicate Cause(s: Tables, u: Unit, instrumentType: InstrumentType, fetched: seq<Fill>, error: EngineError)
    requires FamilyFor(u.product).Some?
  {
    var t := RunType(u, instrumentType);
    match error
    case DataError =>
      && ProvisionalTradeType(FamilyFor(u.product).value, instrumentType).None?
      && exists i: nat :: OpensTrade(s.Hist(u), fetched, t, i)
    case Ambiguous(a, b) =>
      exists i :: 0 <= i < |fetched| - 1 && AmbiguousPair(fetched[i], fetched[i + 1]) &&
                  a == fetched[i].id && b == fetched[i + 1].id
    case Inconsistent => !LotsReady(s, u) && exists i: nat :: StopsAtLots(s, u, t, fetched, i)
    case CrossingZero(f) =>
      && (exists i: nat :: FirstCrossing(s.Hist(u), fetched, t, i) && fetched[i].id == f)
      && !Clean(s.Hist(u) + Mark(fetched, t))
    case EntryTyped(f) =>
      && (exists i: nat :: FirstTypedEntry(s.Hist(u), fetched, t, i) && fetched[i].id == f)
      && !Accepted(s.Hist(u) + Mark(fetched, t))
  }

  ghost predicate RunFailed(s: Tables, excluded: set<FillId>, u: Unit, instrumentType: InstrumentType,
                            fetched: seq<Fill>, error: EngineError) {
    match FamilyFor(u.product)
    case None => error == DataError
    case Some(_) =>
      && IsFetch(s.fills, excluded, u, fetched) && fetched != []
      && Cause(s, u, instrumentType, fetched, error)
  }

  /** Every fill of the unit that is not excluded has been assigned once a run succeeds. */
  lemma NothingLeft(s: Tables, s': Tables, excluded: set<FillId>, u: Unit, instrumentType: InstrumentType,
                    fetched: seq<Fill>, result: RunResult, i: FillId)
    requires TablesOk(s) && RunDone(s, s', excluded, u, instrumentType, fetched, result)
    ensures !Unprocessed(s'.fills, excluded, u, i)
  {
    hide Reaches, Accepted, LotsKept, Counted, Mark, OpensTyped, AdjacentPairsClear, LastFillIn, RunType;
    if i in s.fills && Unprocessed(s.fills, excluded, u, i) {
      assert FillOk(s, i);
      var f := s.fills[i].fill;
      assert f in fetched;
      var j :| 0 <= j < |fetched| && fetched[j] == f;
      assert Lists(fetched, i);
    }
  }

  lemma HasMember(s: seq<Fill>)
    ensures s != [] ==> exists f :: f in s
  {
    if s != [] {
      assert s[0] in s;
    }
  }
}
