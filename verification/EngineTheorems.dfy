/** What holds of the tables after any sequence of runs: the row invariants the database checks,
    independence from batching and from the order the database lists tied rows, and lots in
    lockstep for every unit of an account. */
module EngineTheorems {
  import opened Sequences
  import opened TradeTypes
  import opened FixedPoint
  import opened FillOrder
  import opened Ledger
  import opened Batching
  import opened EntryAverage
  import opened RowSteps
  import opened Store
  import opened Queries
  import opened LotSteps
  import opened RunSpec

  // ---------- one trade row ----------

  /** The trades table's CHECK constraints and the meaning of its status column. */
  ghost predicate RowInvariant(row: TradeRow) {
    && 0 <= row.totalExit <= row.totalEntry && row.totalEntry > 0
    && row.net == row.totalEntry - row.totalExit && row.net >= 0
    && (row.status == CLOSED <==> row.net == 0)
    && (row.status == OPEN <==> row.totalExit == 0)
    && (row.averageExit.Some? <==> row.status == CLOSED)
    && row.averageEntry > 0
  }

  lemma SegmentRowInvariant(u: Unit, s: History)
    requires IsTrade(s)
    ensures RowInvariant(Row(u, s))
  {
    EntryQtyPositive(s);
    var hi := HighestPrice(s);
    AverageEntryBetween(s, EntrySide(s), 1, hi);
  }

  lemma {:induction false} HighestPrice(s: History) returns (hi: int)
    ensures forall i :: 0 <= i < |s| ==> s[i].fill.price <= hi
  {
    if s == [] {
      hi := 0;
    } else {
      hi := HighestPrice(Front(s));
      if hi < Last(s).fill.price {
        hi := Last(s).fill.price;
      }
    }
  }

  /** A delivery trade is a same-day trade exactly when it closed on the date it was opened; any other
      trade keeps the type it was opened with. */
  lemma SameDayExactlyWhen(u: Unit, s: History)
    requires IsTrade(s) && InUnit(u, s[0]) && s[0].opensAs != TradeCNCSameDay
    ensures Row(u, s).tradeType == TradeCNCSameDay <==>
              u.product == CNC && Net(s) == 0 && Last(s).fill.tradeDate == s[0].fill.tradeDate
    ensures Row(u, s).tradeType != TradeCNCSameDay ==> Row(u, s).tradeType == s[0].opensAs
    ensures UnitOfRow(Row(u, s)) == u
  {
  }

  predicate BothOpen(a: TradeRow, b: TradeRow) {
    UnitOfRow(a) == UnitOfRow(b) && a.status != CLOSED && b.status != CLOSED
  }

  /** Every trade row in every reachable state satisfies the CHECK constraints, and a unit has at
      most one open trade. */
  lemma RowsInvariant(s: Tables, t: TradeId)
    requires TablesOk(s) && t in s.trades
    ensures RowInvariant(s.trades[t])
    ensures forall o :: o in s.trades && BothOpen(s.trades[o], s.trades[t]) ==> o == t
  {
    var u := UnitOfRow(s.trades[t]);
    var k := OwnedTrade(s, u, t);
    SegmentRowInvariant(u, Segments(s.Hist(u))[k]);
    forall o | o in s.trades && BothOpen(s.trades[o], s.trades[t]) ensures o == t {
      OpenTradeIsLast(s, u, o);
      OpenTradeIsLast(s, u, t);
    }
  }

  /** The signed running position of a unit is its open trade's net position, or zero. */
  lemma PositionIsOpenNet(s: Tables, u: Unit)
    requires TablesOk(s)
    ensures Position(s.Hist(u)) == 0 <==>
              forall t :: t in s.trades && UnitOfRow(s.trades[t]) == u ==> s.trades[t].status == CLOSED
    ensures forall t :: t in s.trades && UnitOfRow(s.trades[t]) == u && s.trades[t].status != CLOSED ==>
              Position(s.Hist(u)) == if s.trades[t].direction == LONG then s.trades[t].net else -s.trades[t].net
  {
    SegmentsPosition(s.Hist(u));
    if !Flat(Segments(s.Hist(u))) {
      LastTradeIsOpen(s, u);
      SegmentsPosition(s.Hist(u));
      OpenTradeStart(s, u);
      PositionOfSegment(Last(Segments(s.Hist(u))));
    } else if Segments(s.Hist(u)) != [] {
      PositionOfSegment(Last(Segments(s.Hist(u))));
    }
    forall t | t in s.trades && UnitOfRow(s.trades[t]) == u && s.trades[t].status != CLOSED
      ensures !Flat(Segments(s.Hist(u))) && t == Last(s.Ids(u))
    {
      OpenTradeIsLast(s, u, t);
    }
  }

  /** The execution_fills CHECK constraints: a role needs a trade, and a fill that carries an exit type
      plays EXIT or nothing. */
  lemma FillChecks(s: Tables, f: FillId)
    requires TablesOk(s) && f in s.fills
    ensures s.fills[f].role.Some? <==> s.fills[f].trade.Some?
    ensures s.fills[f].fill.exitTyped ==> s.fills[f].role.None? || s.fills[f].role == Some(EXIT)
  {
    hide Accumulate, QtyOn;
    assert FillOk(s, f);
    if s.fills[f].trade.Some? {
      var t := s.fills[f].trade.value;
      var u := UnitOfRow(s.trades[t]);
      var k := OwnedTrade(s, u, t);
      UnitAlwaysOk(s, u);
      var segment := Segments(s.Hist(u))[k];
      assert InSegment(segment, f);
      var j :| 0 <= j < |segment| && segment[j].fill.id == f;
      assert s.fills[f] == AssignedRow(segment, t, segment[j].fill);
      ExitTypesAreRoles(s.Hist(u));
      assert TypedFillsExit(segment);
    }
  }

  /** The affected trade a run reports is the trade of the last fill it took. */
  lemma AffectedIsLastFillsTrade(s: Tables, s': Tables, excluded: set<FillId>, u: Unit, instrumentType: InstrumentType,
                                 fetched: seq<Fill>, result: RunResult)
    requires RunDone(s, s', excluded, u, instrumentType, fetched, result) && fetched != []
    ensures Last(fetched).id in s'.fills && result.affected.Some? && result.affected == s'.fills[Last(fetched).id].trade
  {
    hide Reaches, TablesOk, Accepted, IsFetch, AdjacentPairsClear, Mark, FillsAssigned, LotsKept, RunType, OpensTyped;
  }

  /** A trade row's totals are the sums over the fills assigned to it in each role, in whatever order
      those rows are listed, and a closed row's exit average is the rounded mean of its EXIT fills. */
  lemma TotalsAreAssignedSums(s: Tables, t: TradeId, role: Role, listed: seq<Fill>)
    requires TablesOk(s) && t in s.trades && Distinct(listed)
    requires forall f :: f in listed <==> AssignedAs(s.fills, t, role, f.id) && s.fills[f.id].fill == f
    ensures QtyOf(listed) == if role == ENTRY then s.trades[t].totalEntry else s.trades[t].totalExit
    ensures role == EXIT && s.trades[t].status == CLOSED ==>
              QtyOf(listed) > 0 && s.trades[t].averageExit == Some(RoundDiv(ValueOf(listed), QtyOf(listed)))
  {
    var u := UnitOfRow(s.trades[t]);
    var k := OwnedTrade(s, u, t);
    var segment := Segments(s.Hist(u))[k];
    var side := SideOfRole(EntrySide(segment), role);
    FillsOnDistinct(segment, side);
    forall f ensures f in listed <==> f in FillsOn(segment, side) {
      AssignedAreSide(u, segment, t, s.trades, s.fills, role, f);
    }
    SameMembersSameMultiset(listed, FillsOn(segment, side));
    SumsPermute(listed, FillsOn(segment, side));
    SumsOfSide(segment, side);
  }

  // ---------- batching ----------

  ghost predicate SameTradeRows(a: Tables, b: Tables, ta: TradeId, tb: TradeId) {
    && ta in a.trades && tb in b.trades
    && a.trades[ta].(averageEntry := 0) == b.trades[tb].(averageEntry := 0)
    && (forall f :: f in a.fills && a.fills[f].trade == Some(ta) ==>
          f in b.fills && b.fills[f] == FillRow(a.fills[f].fill, Some(tb), a.fills[f].role))
  }

  /** Two databases whose units have processed the same fills in the same order, cut into runs in
      any two ways, hold the same trades in the same order: same rows but for the entry average,
      same fills in the same roles. */
  lemma SameFillsSameTables(a: Tables, b: Tables, u: Unit)
    requires TablesOk(a) && TablesOk(b) && Erase(a.Hist(u)) == Erase(b.Hist(u))
    ensures |a.Ids(u)| == |b.Ids(u)|
    ensures forall k :: 0 <= k < |a.Ids(u)| ==> SameTradeRows(a, b, a.Ids(u)[k], b.Ids(u)[k])
    ensures LotsReady(a, u) && LotsReady(b, u) && u.product == CNC ==>
              forall k :: 0 <= k < |a.Ids(u)| ==> SameLots(a, b, a.Ids(u)[k], b.Ids(u)[k])
  {
    UnitAlwaysOk(a, u);
    UnitAlwaysOk(b, u);
    BatchingIndependence(u, a.Hist(u), b.Hist(u));
    forall k | 0 <= k < |a.Ids(u)| ensures SameTradeRows(a, b, a.Ids(u)[k], b.Ids(u)[k]) {
      SameSegmentSameRows(a, b, u, Segments(a.Hist(u))[k], Segments(b.Hist(u))[k], a.Ids(u)[k], b.Ids(u)[k]);
    }
  }

  ghost predicate SameLots(a: Tables, b: Tables, ta: TradeId, tb: TradeId) {
    ta in a.lots && tb in b.lots && a.lots[ta].(cost := 0) == b.lots[tb].(cost := 0)
  }

  lemma SameSegmentSameRows(a: Tables, b: Tables, u: Unit, s: History, t: History, ta: TradeId, tb: TradeId)
    requires TradeOk(u, s, ta, a.trades, a.fills) && TradeOk(u, t, tb, b.trades, b.fills) && SameTrade(u, s, t)
    ensures SameTradeRows(a, b, ta, tb)
  {
    forall f | f in a.fills && a.fills[f].trade == Some(ta)
      ensures f in b.fills && b.fills[f] == FillRow(a.fills[f].fill, Some(tb), a.fills[f].role)
    {
      assert InSegment(s, f);
      var j :| 0 <= j < |s| && s[j].fill.id == f;
      assert b.fills[t[j].fill.id] == AssignedRow(t, tb, t[j].fill);
    }
  }

  // ---------- determinism ----------

  /** When the ambiguity check passes and broker ids are unique, the database can return the
      unprocessed fills in one order only: a run's outcome is a function of the set of fills. */
  lemma FetchIsDetermined(fills: map<FillId, FillRow>, excluded: set<FillId>, u: Unit, s: seq<Fill>, t: seq<Fill>)
    requires IsFetch(fills, excluded, u, s) && IsFetch(fills, excluded, u, t)
    requires AdjacentPairsClear(s) && BrokerIdsUnique(s)
    ensures s == t
  {
    SameMembersSameMultiset(s, t);
    assert |s| == |multiset(s)| == |multiset(t)| == |t|;
    AmbiguityCheckIsExact(s);
  }

  // ---------- the trades one run opens ----------

  ghost predicate FillOf(s: Tables, t: TradeId, f: FillId) {
    f in s.fills && s.fills[f].trade == Some(t)
  }

  /** The row of a trade that a run opened, against the fills assigned to it: nothing happened before it opened,
      nothing after it closed, and its direction is that of an ENTRY fill at its opening. */
  ghost predicate OpenedInTime(s: Tables, t: TradeId)
    requires t in s.trades
  {
    var row := s.trades[t];
    && (forall f :: FillOf(s, t, f) ==>
          && row.firstFillAt <= s.fills[f].fill.timestamp
          && (row.status == CLOSED ==> row.lastFillAt.Some? && s.fills[f].fill.timestamp <= row.lastFillAt.value))
    && exists f :: FillOf(s, t, f) && OpensIt(s.fills[f], row)
  }

  predicate OpensIt(f: FillRow, row: TradeRow) {
    && f.role == Some(ENTRY) && f.fill.timestamp == row.firstFillAt && f.fill.tradeDate == row.tradeDate
    && (row.direction == LONG <==> f.fill.side == BUY)
  }

  /** The trade types a run may give the trades it opens. */
  predicate TypeFits(product: ProductType, instrumentType: InstrumentType, tradeType: TradeType) {
    match product
    case MIS => tradeType == TradeMIS
    case CNC => tradeType == TradeCNC || tradeType == TradeCNCSameDay
    case NRML => (instrumentType == FUT && tradeType == TradeNRMLFut)
                   || (instrumentType in {CE, PE} && tradeType == TradeNRMLOpt)
    case OtherProduct(_) => false
  }

  ghost predicate AllNoLater(s: Tables, t: TradeId, o: TradeId) {
    forall f, g :: FillOf(s, t, f) && FillOf(s, o, g) ==> s.fills[f].fill.timestamp <= s.fills[g].fill.timestamp
  }

  /** A run takes its fills forward in time: each trade it opens starts at its earliest fill, closes at its
      latest, has a type that fits the unit, and ends before the next one starts. */
  lemma RunOpensInTime(s: Tables, s': Tables, excluded: set<FillId>, u: Unit, instrumentType: InstrumentType,
                       fetched: seq<Fill>, result: RunResult, k: nat)
    requires TablesOk(s) && RunDone(s, s', excluded, u, instrumentType, fetched, result)
    requires |s.Ids(u)| <= k < |s'.Ids(u)|
    ensures var t := s'.Ids(u)[k];
            t in s'.trades && OpenedInTime(s', t) && TypeFits(u.product, instrumentType, s'.trades[t].tradeType)
    ensures forall m :: k < m < |s'.Ids(u)| ==> AllNoLater(s', s'.Ids(u)[k], s'.Ids(u)[m])
  {
    hide TablesOk, Segments, TradeOk, InTime, NoLater, OpenedInTime, AllNoLater, RunType, TypeFits, RunDone, Mark;
    RunHistory(s, s', excluded, u, instrumentType, fetched, result);
    var t := RunType(u, instrumentType);
    var segments, segments' := Segments(s.Hist(u)), Segments(s'.Hist(u));
    TradesOfUnit(s, u);
    TradesOfUnit(s', u);
    var added := OpenedPieces(s.Hist(u), fetched, t);
    assert forall j :: |segments| <= j < |segments'| ==> segments'[j] == added[j - |segments|];
    TradeInTime(s', u, segments'[k], s'.Ids(u)[k]);
    TypeOfOpened(u, instrumentType, segments'[k], s'.Ids(u)[k], s');
    forall m | k < m < |s'.Ids(u)| ensures AllNoLater(s', s'.Ids(u)[k], s'.Ids(u)[m]) {
      TradesNoLater(s', u, segments'[k], segments'[m], s'.Ids(u)[k], s'.Ids(u)[m]);
    }
  }

  lemma TradesOfUnit(s: Tables, u: Unit)
    requires TablesOk(s)
    ensures |s.Ids(u)| == |Segments(s.Hist(u))|
    ensures forall k :: 0 <= k < |s.Ids(u)| ==> TradeOk(u, Segments(s.Hist(u))[k], s.Ids(u)[k], s.trades, s.fills)
  {
    UnitAlwaysOk(s, u);
  }

  lemma RunHistory(s: Tables, s': Tables, excluded: set<FillId>, u: Unit, instrumentType: InstrumentType,
                   fetched: seq<Fill>, result: RunResult)
    requires RunDone(s, s', excluded, u, instrumentType, fetched, result) && |s'.Ids(u)| > |s.Ids(u)|
    ensures TablesOk(s') && FamilyFor(u.product).Some?
    ensures s'.Hist(u) == s.Hist(u) + Mark(fetched, RunType(u, instrumentType))
    ensures ProvisionalTradeType(FamilyFor(u.product).value, instrumentType).Some?
    ensures forall i, j :: 0 <= i < j < |fetched| ==> fetched[i].timestamp <= fetched[j].timestamp
  {
    hide TablesOk, Accepted, Reaches, Mark, RunType, FillsAssigned, Counted, LotsKept, AdjacentPairsClear;
    FetchMeans(s.fills, excluded, u, fetched);
  }

  /** The segments a run's fills open: in time, one after the other, all of the run's type. */
  lemma OpenedPieces(h: History, fetched: seq<Fill>, t: TradeType) returns (added: seq<History>)
    requires forall i, j :: 0 <= i < j < |fetched| ==> fetched[i].timestamp <= fetched[j].timestamp
    ensures |Segments(h + Mark(fetched, t))| >= |Segments(h)|
    ensures added == Segments(h + Mark(fetched, t))[|Segments(h)|..]
    ensures forall k :: 0 <= k < |added| ==> InTime(added[k])
    ensures forall k, p :: 0 <= k < |added| && p in added[k] ==> p.opensAs == t
    ensures forall k, m :: 0 <= k < m < |added| ==> NoLater(added[k], added[m])
  {
    hide Segments, NoLater;
    var more := Mark(fetched, t);
    var m := TradesOpenedAfter(h, more);
    added := Segments(h + more)[|Segments(h)|..];
    PiecesInTime(added);
    forall k | 0 <= k < |added| ensures forall p :: p in added[k] ==> p.opensAs == t {
      PieceMembers(added, k);
    }
  }

  lemma TradeInTime(s: Tables, u: Unit, segment: History, t: TradeId)
    requires TradeOk(u, segment, t, s.trades, s.fills) && InTime(segment)
    ensures t in s.trades && OpenedInTime(s, t)
  {
    hide Accumulate, QtyOn, ValueOn, NoRepeats;
    var first, row := segment[0], s.trades[t];
    forall f | FillOf(s, t, f)
      ensures row.firstFillAt <= s.fills[f].fill.timestamp
      ensures row.status == CLOSED ==> row.lastFillAt.Some? && s.fills[f].fill.timestamp <= row.lastFillAt.value
    {
      assert InSegment(segment, f);
      var j :| 0 <= j < |segment| && segment[j].fill.id == f;
      assert s.fills[f] == AssignedRow(segment, t, segment[j].fill);
      if row.status == CLOSED {
        ClosedByLast(segment);
      }
    }
    assert FillOf(s, t, first.fill.id) && OpensIt(s.fills[first.fill.id], row);
  }

  /** The last fill of a closed segment is an exit. */
  lemma ClosedByLast(segment: History)
    requires IsTrade(segment) && Net(segment) == 0
    ensures LastExitAt(segment, EntrySide(segment)) == Some(Last(segment).fill.timestamp)
  {
    OneFillTrade(segment[0]);
    assert segment[..1] == [segment[0]] && segment[..|segment|] == segment;
    assert segment == Front(segment) + [Last(segment)];
    if |segment| > 1 {
      NetSnoc(Front(segment), Last(segment));
    }
  }

  lemma TypeOfOpened(u: Unit, instrumentType: InstrumentType, segment: History, t: TradeId, s: Tables)
    requires TradeOk(u, segment, t, s.trades, s.fills) && FamilyFor(u.product).Some?
    requires ProvisionalTradeType(FamilyFor(u.product).value, instrumentType).Some?
    requires forall p :: p in segment ==> p.opensAs == RunType(u, instrumentType)
    ensures t in s.trades && TypeFits(u.product, instrumentType, s.trades[t].tradeType)
  {
    hide Accumulate, QtyOn, ValueOn, NoRepeats, Net;
    assert segment[0] in segment;
  }

  lemma TradesNoLater(s: Tables, u: Unit, a: History, b: History, t: TradeId, o: TradeId)
    requires TradeOk(u, a, t, s.trades, s.fills) && TradeOk(u, b, o, s.trades, s.fills) && NoLater(a, b)
    ensures AllNoLater(s, t, o)
  {
    hide Row, IsTrade, NoRepeats;
    forall f, g | FillOf(s, t, f) && FillOf(s, o, g)
      ensures s.fills[f].fill.timestamp <= s.fills[g].fill.timestamp
    {
      assert InSegment(a, f) && InSegment(b, g);
      var i :| 0 <= i < |a| && a[i].fill.id == f;
      var j :| 0 <= j < |b| && b[j].fill.id == g;
      assert s.fills[f] == AssignedRow(a, t, a[i].fill) && s.fills[g] == AssignedRow(b, o, b[j].fill);
    }
  }

  // ---------- lots over sequences of runs ----------

  /** The delivery units of one account all have their lots in step and meet no foreign open lot. */
  ghost predicate AccountLotsReady(s: Tables, account: AccountId) {
    forall u: Unit :: u.account == account && u.product == CNC ==> LotsReady(s, u)
  }

  /** Any run in the account keeps this, so over any sequence of runs no consistency error (E4) can
      be raised for a user whose open lots all belong to one account. */
  lemma RunKeepsAccountLots(s: Tables, s': Tables, excluded: set<FillId>, u: Unit, instrumentType: InstrumentType,
                            fetched: seq<Fill>, result: RunResult)
    requires TablesOk(s) && AccountLotsReady(s, u.account)
    requires RunDone(s, s', excluded, u, instrumentType, fetched, result)
    ensures AccountLotsReady(s', u.account)
  {
    forall v: Unit | v.account == u.account && v.product == CNC ensures LotsReady(s', v) {
      assert LotsReady(s, v);
      if v != u && fetched != [] {
        OtherUnitLots(s, s', u, v, excluded, instrumentType, fetched, result);
      }
    }
  }

  /** The tax_lots CHECK constraints, and each column in step with the trade row. */
  ghost predicate InLockstep(lot: LotRow, row: TradeRow) {
    && lot.user == row.user && lot.instrument == row.instrument && lot.purchaseDate == row.tradeDate
    && lot.original == row.totalEntry > 0 && lot.remaining == row.net && 0 <= lot.remaining <= lot.original
    && lot.cost == row.averageEntry > 0
    && lot.status == match row.status case OPEN => LotOpen case PARTIAL => LotPartiallyClosed case CLOSED => LotClosed
  }

  /** In every state whose lots are ready, each trade of a delivery unit has its lot in lockstep. */
  lemma LotsInLockstep(s: Tables, t: TradeId)
    requires TablesOk(s) && t in s.trades && UnitOfRow(s.trades[t]).product == CNC
             && LotsReady(s, UnitOfRow(s.trades[t]))
    ensures t in s.lots && InLockstep(s.lots[t], s.trades[t])
  {
    hide TablesOk, Segments, Accumulate, QtyOn;
    var u := UnitOfRow(s.trades[t]);
    var k := OwnedTrade(s, u, t);
    SegmentRowInvariant(u, Segments(s.Hist(u))[k]);
  }

  lemma UnitsShareNoTrade(s: Tables, u: Unit, v: Unit, t: TradeId)
    requires TablesOk(s) && u != v && t in s.Ids(v)
    ensures t !in s.Ids(u)
  {
    var j :| 0 <= j < |s.Ids(v)| && s.Ids(v)[j] == t;
    IdBelongs(s, v, j);
    forall k | 0 <= k < |s.Ids(u)| ensures s.Ids(u)[k] != t {
      IdBelongs(s, u, k);
    }
  }

  lemma LotKeys(s: Tables, u: Unit, t: TradeId)
    requires LotsMatch(s, u) && t in s.Ids(u)
    ensures t in s.lots && s.lots[t].user == u.user && s.lots[t].instrument == u.instrument
  {
    var k :| 0 <= k < |s.Ids(u)| && s.Ids(u)[k] == t;
    assert s.lots[t] == LotOf(u, Segments(s.Hist(u))[k]);
  }

  lemma LotsUntouched(s: Tables, s': Tables, u: Unit, v: Unit)
    requires TablesOk(s') && u != v && v.account == u.account && v.product == CNC && u.product == CNC
    requires LotsReady(s, v) && LotsMatch(s', u) && OtherLotsSame(s.lots, s'.lots, s'.Ids(u))
    requires s'.Ids(v) == s.Ids(v) && s'.Hist(v) == s.Hist(v)
    ensures LotsReady(s', v)
  {
    hide TablesOk, Segments, LotOf;
    forall k | 0 <= k < |s.Ids(v)| ensures s.Ids(v)[k] !in s'.Ids(u) {
      UnitsShareNoTrade(s', u, v, s.Ids(v)[k]);
    }
    forall t | OpenLot(s'.lots, v.user, v.instrument, t) ensures t in s'.Ids(v) {
      if t in s'.Ids(u) {
        LotKeys(s', u, t);
        assert false;
      }
      assert OpenLot(s.lots, v.user, v.instrument, t);
    }
  }

  lemma OtherUnitLots(s: Tables, s': Tables, u: Unit, v: Unit, excluded: set<FillId>, instrumentType: InstrumentType,
                      fetched: seq<Fill>, result: RunResult)
    requires TablesOk(s) && LotsReady(s, v) && v != u && v.account == u.account && v.product == CNC && fetched != []
    requires u.product == CNC ==> LotsReady(s, u)
    requires RunDone(s, s', excluded, u, instrumentType, fetched, result)
    ensures LotsReady(s', v)
  {
    hide Reaches, TablesOk, Segments, Accepted, IsFetch, LotsMatch, OpenLotsWithin, FillsAssigned, Counted,
         AdjacentPairsClear, Mark;
    assert s'.Hist(v) == s.Hist(v) && s'.Ids(v) == s.Ids(v);
    if u.product == CNC {
      LotsUntouched(s, s', u, v);
    } else {
      SameLotsStillReady(s, s', v);
    }
  }

  lemma SameLotsStillReady(s: Tables, s': Tables, v: Unit)
    requires LotsReady(s, v) && s'.lots == s.lots && s'.Ids(v) == s.Ids(v) && s'.Hist(v) == s.Hist(v)
    ensures LotsReady(s', v)
  {
  }

  // ---------- lots of two accounts ----------

  function UnitOf(f: Fill): Unit {
    Unit(f.user, f.account, f.instrument, f.product)
  }

  /** Tables before any run, holding the given rows. */
  function TwoRows(a: Fill, b: Fill): Tables {
    Tables(map[], map[a.id := FillRow(a, None, None), b.id := FillRow(b, None, None)], map[], 0, map[], map[])
  }

  /** The tables after a delivery fill that opens its unit's first trade. */
  function FirstTrade(s: Tables, f: Fill): Tables {
    var u, p := UnitOf(f), Processed(f, true, TradeCNC);
    Tables(s.trades[s.nextTrade := Row(u, [p])], s.fills[f.id := AssignedRow([p], s.nextTrade, f)],
           s.lots[s.nextTrade := LotOf(u, [p])], s.nextTrade + 1, s.history[u := [p]], s.ids[u := [s.nextTrade]])
  }

  lemma FirstFillIsFine(p: Processed)
    requires !p.fill.exitTyped
    ensures Clean([p]) && ExitTypesOk([p]) && Segments([]) == []
  {
    var none: History := [];
    assert Front([p]) == none;
  }

  lemma FirstTradeIsStep(s: Tables, f: Fill)
    requires TablesOk(s) && f.id in s.fills && s.fills[f.id] == FillRow(f, None, None)
    requires s.Hist(UnitOf(f)) == [] && s.Ids(UnitOf(f)) == [] && f.product == CNC && !f.exitTyped
    ensures TablesOk(FirstTrade(s, f))
    ensures StepTo(s, FirstTrade(s, f), UnitOf(f), Processed(f, true, TradeCNC))
    ensures Segments([Processed(f, true, TradeCNC)]) == [[Processed(f, true, TradeCNC)]]
  {
    hide TablesOk, Row, LotOf, UnitOk, Clean, ExitTypesOk, Segments;
    var u, p := UnitOf(f), Processed(f, true, TradeCNC);
    FirstFillIsFine(p);
    assert s.Hist(u) + [p] == [p] && Segments(s.Hist(u)) + [[p]] == [[p]] && s.Ids(u) + [s.nextTrade] == [s.nextTrade];
    OpeningKeepsTables(s, FirstTrade(s, f), u, p);
  }

  lemma RowsAreTables(a: Fill, b: Fill)
    requires a.id != b.id
    ensures TablesOk(TwoRows(a, b))
  {
  }

  /** The second account's lot is no younger, so the first trade's close may decrement it. */
  lemma CloseMeetsOtherLot(lots: map<TradeId, LotRow>, u: Unit, own: TradeId, other: TradeId, quantity: Ticks)
    requires own != other && OpenLot(lots, u.user, u.instrument, own) && OpenLot(lots, u.user, u.instrument, other)
    requires lots[other].purchaseDate <= lots[own].purchaseDate
    ensures ExitRefused(lots, u, own, quantity, true)
  {
    CloseIsAcceptedIff(lots, u, own, quantity);
  }

  lemma LotOfFirst(u: Unit, f: Fill)
    ensures var lot := LotOf(u, [Processed(f, true, TradeCNC)]);
            lot.user == u.user && lot.instrument == u.instrument && lot.purchaseDate == f.tradeDate &&
            lot.status == LotOpen && Net([Processed(f, true, TradeCNC)]) == f.quantity
  {
    hide Row, Accumulate;
    RowOpened(u, Processed(f, true, TradeCNC));
    OneFillTrade(Processed(f, true, TradeCNC));
  }

  /** Two accounts of one user buy the same instrument, the second no later than the first.  The engine opens
      both trades with lots in step, and then the first one cannot be closed in one exit. */
  lemma TwoAccountsCollide(a: Fill, b: Fill)
    requires a.id != b.id && a.account != b.account && a.user == b.user && a.instrument == b.instrument
    requires a.product == b.product == CNC && a.side == b.side == BUY && !a.exitTyped && !b.exitTyped
    requires b.tradeDate <= a.tradeDate
    ensures var start := TwoRows(a, b); var mid := FirstTrade(start, a); var s := FirstTrade(mid, b);
            && TablesOk(s)
            && StepTo(start, mid, UnitOf(a), Processed(a, true, TradeCNC))
            && StepTo(mid, s, UnitOf(b), Processed(b, true, TradeCNC))
            && LotsMatch(s, UnitOf(a)) && LotsMatch(s, UnitOf(b))
            && forall p: Processed :: p.fill.side == SELL && p.fill.quantity == a.quantity ==> LotFault(s, UnitOf(a), p)
  {
    hide TablesOk, Row, LotOf, Segments, Net, StepTo, ExitRefused, AssignedRow;
    var start := TwoRows(a, b);
    var mid := FirstTrade(start, a);
    var s := FirstTrade(mid, b);
    RowsAreTables(a, b);
    FirstTradeIsStep(start, a);
    FirstTradeIsStep(mid, b);
    LotOfFirst(UnitOf(a), a);
    LotOfFirst(UnitOf(b), b);
    CloseMeetsOtherLot(s.lots, UnitOf(a), 0, 1, a.quantity);
  }
}
