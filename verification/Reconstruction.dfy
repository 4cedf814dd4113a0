/** The trade reconstruction engine: one run consumes the unprocessed fills of a processing unit
    and updates the trade, fill and tax-lot tables in place. */
module Reconstruction {
  import opened Sequences
  import opened TradeTypes
  import opened FixedPoint
  import opened FillOrder
  import opened Ledger
  import opened RowSteps
  import opened Store
  import opened Queries
  import opened LotSteps
  import opened Batching
  import opened RunSpec
  import opened EngineTheorems

  class Engine {
    var trades: map<TradeId, TradeRow>
    var fills: map<FillId, FillRow>
    var lots: map<TradeId, LotRow>
    var excluded: set<FillId>
    var nextTrade: TradeId
    ghost var history: map<Unit, History>
    ghost var ids: map<Unit, seq<TradeId>>

    ghost function View(): Tables
      reads this
    {
      Tables(trades, fills, lots, nextTrade, history, ids)
    }

    /** Empty tables: the state every sequence of runs starts from. */
    constructor ()
      ensures View() == Tables(map[], map[], map[], 0, map[], map[]) && excluded == {}
      ensures TablesOk(View()) && forall account :: AccountLotsReady(View(), account)
    {
      trades, fills, lots, excluded, nextTrade := map[], map[], map[], {}, 0;
      history, ids := map[], map[];
    }

    // ---------- queries ----------

    method GetOpenTrade(u: Unit, family: Family) returns (found: Option<Snapshot>)
      requires TablesOk(View()) && FamilyFor(u.product) == Some(family)
      ensures found.None? <==> Flat(Segments(View().Hist(u)))
      ensures found.Some? ==> Segments(View().Hist(u)) != [] && View().Ids(u) != [] &&
                              found.value == SnapshotOf(Last(View().Ids(u)), Row(u, Last(Segments(View().Hist(u)))))
    {
      var matches := set t | t in trades && OpenTradeMatch(u, family, trades[t]);
      OpenTradeQuery(View(), u);
      if matches == {} {
        found := None;
      } else {
        var t :| t in matches;
        OpenTradeStart(View(), u);
        found := Some(SnapshotOf(t, trades[t]));
      }
    }

    method GetUnprocessedFills(u: Unit) returns (fetched: seq<Fill>)
      requires TablesOk(View())
      ensures IsFetch(fills, excluded, u, fetched)
      ensures forall i, j :: 0 <= i < j < |fetched| ==> InOrder(fetched[i], fetched[j])
    {
      var pool := set i | i in fills && Unprocessed(fills, excluded, u, i) :: fills[i].fill;
      FetchLeIsOrder();
      fetched := OrderBy(pool, FetchLe);
      forall f ensures f in pool <==> Unprocessed(fills, excluded, u, f.id) && fills[f.id].fill == f {
        if f in pool {
          var i :| i in fills && Unprocessed(fills, excluded, u, i) && fills[i].fill == f;
          assert FillOk(View(), i);
        }
      }
      FetchMeans(fills, excluded, u, fetched);
    }

    method GetExitFills(trade: TradeId) returns (exits: seq<Fill>)
      requires TablesOk(View())
      ensures Distinct(exits) && forall i, j :: 0 <= i < j < |exits| ==> exits[i].timestamp <= exits[j].timestamp
      ensures forall f :: f in exits <==> AssignedAs(fills, trade, EXIT, f.id) && fills[f.id].fill == f
    {
      var pool := set i | i in fills && AssignedAs(fills, trade, EXIT, i) :: fills[i].fill;
      exits := OrderBy(pool, TimeLe);
      forall f ensures f in pool <==> AssignedAs(fills, trade, EXIT, f.id) && fills[f.id].fill == f {
        if f in pool {
          var i :| i in fills && AssignedAs(fills, trade, EXIT, i) && fills[i].fill == f;
          assert FillOk(View(), i);
        }
      }
    }

    method GetOpenLot(user: UserId, instrument: InstrumentId) returns (found: Option<TradeId>)
      ensures found.None? ==> forall t :: !OpenLot(lots, user, instrument, t)
      ensures found.Some? ==> IsOldestOpenLot(lots, user, instrument, found.value)
    {
      var pool := set t | t in lots && OpenLot(lots, user, instrument, t);
      if pool == {} {
        found := None;
        assert forall t :: OpenLot(lots, user, instrument, t) ==> t in pool;
      } else {
        ghost var oldest := OldestLot(lots, pool);
        var t :| t in pool && forall o :: o in pool ==> lots[t].purchaseDate <= lots[o].purchaseDate;
        found := Some(t);
      }
    }

    /** E5: the first adjacent pair with nothing to order it by. */
    static method CheckAmbiguousOrdering(fills: seq<Fill>) returns (pair: Option<(FillId, FillId)>)
      ensures pair.None? <==> AdjacentPairsClear(fills)
      ensures pair.Some? ==> exists i :: 0 <= i < |fills| - 1 && AmbiguousPair(fills[i], fills[i + 1]) &&
                                         pair.value == (fills[i].id, fills[i + 1].id)
    {
      var i := 0;
      while i < |fills| - 1
        invariant 0 <= i && (i < |fills| || i == 0)
        invariant forall j :: 0 <= j < i && j < |fills| - 1 ==> !AmbiguousPair(fills[j], fills[j + 1])
      {
        if AmbiguousPair(fills[i], fills[i + 1]) {
          return Some((fills[i].id, fills[i + 1].id));
        }
        i := i + 1;
      }
      pair := None;
    }

    // ---------- tax lots ----------

    method UpdateLotOnScaleIn(trade: TradeId, quantity: int, newAverage: int) returns (ok: bool)
      modifies this`lots
      ensures ok <==> trade in old(lots)
      ensures !ok ==> lots == old(lots)
      ensures ok ==> var lot := old(lots)[trade];
                     lots == old(lots)[trade := lot.(original := lot.original + quantity,
                                                     remaining := lot.remaining + quantity, cost := newAverage)]
    {
      if trade !in lots {
        return false;
      }
      var lot := lots[trade];
      var alreadyExited := lot.original - lot.remaining;
      var newOriginal := lot.original + quantity;
      lots := lots[trade := lot.(original := newOriginal, remaining := newOriginal - alreadyExited,
                                 cost := newAverage)];
      ok := true;
    }

    /** Decrements the oldest open lot of the user and instrument, whichever trade it belongs to. */
    method DecrementLotOnExit(user: UserId, instrument: InstrumentId, quantity: int) returns (ok: bool)
      modifies this`lots
      ensures ok ==> exists t :: IsOldestOpenLot(old(lots), user, instrument, t) &&
                                 old(lots)[t].remaining >= quantity && lots == Decremented(old(lots), t, quantity)
      ensures !ok ==> lots == old(lots) &&
                      ((forall t :: !OpenLot(lots, user, instrument, t)) ||
                       exists t :: IsOldestOpenLot(lots, user, instrument, t) && lots[t].remaining < quantity)
    {
      var found := GetOpenLot(user, instrument);
      if found.None? {
        return false;
      }
      var t := found.value;
      var newRemaining := lots[t].remaining - quantity;
      if newRemaining < 0 {
        return false;
      }
      lots := lots[t := lots[t].(remaining := newRemaining,
                                 status := if newRemaining == 0 then LotClosed else LotPartiallyClosed)];
      ok := true;
    }

    method AssertLotClosed(trade: TradeId) returns (ok: bool)
      ensures ok <==> LotSettled(lots, trade)
    {
      ok := trade !in lots || (lots[trade].remaining == 0 && lots[trade].status == LotClosed);
    }

    // ---------- one fill ----------

    /** FLAT to OPEN. */
    method OpenTrade(u: Unit, family: Family, instrumentType: InstrumentType, fill: Fill, ghost p: Processed)
      returns (r: Result<(TradeId, Snapshot), EngineError>)
      requires FamilyFor(u.product) == Some(family) && InUnit(u, p)
      requires p.fill == fill && p.opensAs == RunType(u, instrumentType)
      modifies this`trades, this`lots, this`nextTrade
      ensures r.Failure? <==> ProvisionalTradeType(family, instrumentType).None?
      ensures r.Failure? ==> r.error == DataError
      ensures r.Success? ==> var id := old(nextTrade);
              && nextTrade == id + 1 && trades == old(trades)[id := Row(u, [p])]
              && lots == (if family == DELIVERY then old(lots)[id := LotOf(u, [p])] else old(lots))
              && r.value == (id, SnapshotOf(id, Row(u, [p])))
    {
      RowOpened(u, p);
      var direction := DirectionForFirstFill(fill.side);
      var derived := ProvisionalTradeType(family, instrumentType);
      if derived.None? {
        return Failure(DataError);
      }
      var id := nextTrade;
      nextTrade := nextTrade + 1;
      trades := trades[id := TradeRow(u.user, fill.account, u.instrument, derived.value, direction, OPEN,
                                      fill.tradeDate, fill.timestamp, None,
                                      fill.quantity, 0, fill.quantity, fill.price, None)];
      if family == DELIVERY {
        lots := lots[id := LotRow(u.user, u.instrument, fill.tradeDate, fill.quantity, fill.quantity, fill.price,
                                  LotOpen)];
      }
      r := Success((id, Snapshot(id, direction, OPEN, fill.tradeDate, fill.timestamp,
                                 fill.quantity, 0, fill.quantity, fill.price, derived.value)));
    }

    /** An ENTRY fill on an open trade. */
    method ScaleIn(u: Unit, family: Family, fill: Fill, c: Cursor, ghost s: History, ghost p: Processed)
      returns (r: Result<Cursor, EngineError>)
      requires FamilyFor(u.product) == Some(family)
      requires c.current.Some? && CursorAt(c, c.current.value.id, u, s, p.startsRun)
      requires p.fill == fill && |s| > 0 && Net(s) > 0 && fill.side == EntrySide(s)
      requires c.current.value.id in trades && trades[c.current.value.id] == Row(u, s)
      modifies this`trades, this`lots
      ensures trades == old(trades)[c.current.value.id := Row(u, s + [p])]
      ensures r.Success? ==> r.value.running == c.running && CursorAt(r.value, c.current.value.id, u, s + [p], false)
      ensures family != DELIVERY ==> r.Success? && lots == old(lots)
      ensures family == DELIVERY && c.current.value.id in old(lots) && old(lots)[c.current.value.id] == LotOf(u, s) ==>
                r.Success? && lots == old(lots)[c.current.value.id := LotOf(u, s + [p])]
      ensures r.Failure? <==> family == DELIVERY && c.current.value.id !in old(lots)
      ensures r.Failure? ==> r.error == Inconsistent
      ensures family == DELIVERY && r.Success? ==> LotScaled(old(lots), lots, u, c.current.value.id, s, p)
    {
      hide Row, LotOf, CursorAt, Accumulate, QtyOn, ValueOn, RoundDiv, Net;
      ScaledIn(c, u, s, p);
      var current := c.current.value;
      var entryValue := c.entryValue + fill.quantity * fill.price;
      var entryQty := c.entryQty + fill.quantity;
      var newAverage := RoundDiv(entryValue, entryQty);
      var newTotalEntry := current.totalEntry + fill.quantity;
      var newNet := current.net + fill.quantity;
      var newStatus := if current.totalExit > 0 then PARTIAL else OPEN;
      trades := trades[current.id := trades[current.id].(totalEntry := newTotalEntry, net := newNet,
                                                         averageEntry := newAverage, status := newStatus)];
      if family == DELIVERY {
        var ok := UpdateLotOnScaleIn(current.id, fill.quantity, newAverage);
        if !ok {
          return Failure(Inconsistent);
        }
      }
      r := Success(c.(entryQty := entryQty, entryValue := entryValue,
                      current := Some(current.(status := newStatus, totalEntry := newTotalEntry, net := newNet,
                                               averageEntry := newAverage))));
    }

    /** The exit's effect on the trade row: a partial exit, or the close. */
    method UpdateTradeOnExit(u: Unit, fill: Fill, c: Cursor, ghost s: History, ghost p: Processed)
      returns (next: Cursor)
      requires c.current.Some? && CursorAt(c, c.current.value.id, u, s, p.startsRun)
      requires p.fill == fill && fill.side != EntrySide(s) && fill.quantity <= Net(s)
      requires c.current.value.id in trades && trades[c.current.value.id] == Row(u, s)
      modifies this`trades
      ensures trades == old(trades)[c.current.value.id := Row(u, s + [p])]
      ensures next.running == c.running
      ensures next.current.None? <==> fill.quantity == Net(s)
      ensures next.current.Some? ==> CursorAt(next, c.current.value.id, u, s + [p], false)
    {
      var current := c.current.value;
      var exitFills := c.exitFills + [fill];
      Snoc(c.exitFills, fill);
      var newTotalExit := current.totalExit + fill.quantity;
      var newNet := current.net - fill.quantity;
      if newNet == 0 {
        RowClosed(u, s, p);
        var averageExit := ComputeAverageExit(exitFills);
        var finalType := FinalizeTradeType(current.tradeType, current.tradeDate, fill.tradeDate);
        trades := trades[current.id := trades[current.id].(status := CLOSED, lastFillAt := Some(fill.timestamp),
                                                           averageExit := Some(averageExit), net := 0,
                                                           totalExit := newTotalExit, tradeType := finalType)];
        next := Cursor(c.running, None, 0, 0, []);
      } else {
        RowPartlyExited(u, s, p);
        CursorAfterPartialExit(c, current.id, u, s, p);
        trades := trades[current.id := trades[current.id].(status := PARTIAL, lastFillAt := Some(fill.timestamp),
                                                           totalExit := newTotalExit, net := newNet)];
        next := c.(exitFills := exitFills,
                   current := Some(current.(status := PARTIAL, totalExit := newTotalExit, net := newNet)));
      }
    }

    /** An EXIT fill on an open trade. */
    method ApplyExit(u: Unit, family: Family, fill: Fill, c: Cursor, ghost s: History, ghost p: Processed)
      returns (r: Result<Cursor, EngineError>)
      requires FamilyFor(u.product) == Some(family)
      requires c.current.Some? && CursorAt(c, c.current.value.id, u, s, p.startsRun)
      requires p.fill == fill && fill.side != EntrySide(s) && fill.quantity <= Net(s)
      requires c.current.value.id in trades && trades[c.current.value.id] == Row(u, s)
      modifies this`trades, this`lots
      ensures r.Success? ==> trades == old(trades)[c.current.value.id := Row(u, s + [p])]
      ensures r.Success? ==> r.value.running == c.running
      ensures r.Success? ==> (r.value.current.None? <==> fill.quantity == Net(s))
      ensures r.Success? && r.value.current.Some? ==> CursorAt(r.value, c.current.value.id, u, s + [p], false)
      ensures family != DELIVERY ==> r.Success? && lots == old(lots)
      ensures family == DELIVERY && OwnLotOnly(old(lots), u, c.current.value.id, s) ==>
                r.Success? && lots == old(lots)[c.current.value.id := LotOf(u, s + [p])]
      ensures family == DELIVERY && r.Success? ==>
                exists t :: ExitPasses(old(lots), u, c.current.value.id, fill.quantity, fill.quantity == Net(s), t) &&
                            lots == Decremented(old(lots), t, fill.quantity)
      ensures r.Failure? ==> r.error == Inconsistent && family == DELIVERY &&
                             ExitRefused(old(lots), u, c.current.value.id, fill.quantity, fill.quantity == Net(s))
    {
      var id := c.current.value.id;
      ghost var lots0 := lots;
      if family == DELIVERY {
        var ok := DecrementLotOnExit(u.user, u.instrument, fill.quantity);
        if OwnLotOnly(lots0, u, id, s) {
          DecrementFindsOwnLot(lots0, u, id, s, p);
        }
        if !ok {
          return Failure(Inconsistent);
        }
      }
      var next := UpdateTradeOnExit(u, fill, c, s, p);
      if next.current.None? && family == DELIVERY {
        var ok := AssertLotClosed(id);
        if !ok {
          return Failure(Inconsistent);
        }
      }
      r := Success(next);
    }

    /** The only write to a fill row: trade and role together.  The schema refuses ENTRY on a row that
        carries an exit type. */
    method AssignTrade(fill: FillId, trade: TradeId, role: Role) returns (ok: bool)
      requires fill in fills
      modifies this`fills
      ensures !ok <==> role == ENTRY && old(fills)[fill].fill.exitTyped
      ensures fills == if ok then old(fills)[fill := old(fills)[fill].(trade := Some(trade), role := Some(role))]
                       else old(fills)
    {
      ok := !(fills[fill].fill.exitTyped && role != EXIT);
      if ok {
        fills := fills[fill := fills[fill].(trade := Some(trade), role := Some(role))];
      }
    }

    /** A fill on a flat position. */
    method ProcessFlat(u: Unit, family: Family, instrumentType: InstrumentType, fill: Fill, c: Cursor,
                       result: RunResult, ghost p: Processed)
      returns (r: Result<(Cursor, RunResult), EngineError>)
      requires TablesOk(View()) && CursorOk(View(), u, c, p.startsRun) && c.current.None?
      requires FamilyFor(u.product) == Some(family)
      requires p.fill == fill && p.opensAs == RunType(u, instrumentType) && Acceptable(View(), u, p)
      modifies this`trades, this`fills, this`lots, this`nextTrade, this`history, this`ids
      ensures r.Success? ==> StepDone(old(View()), View(), u, p, result, r.value)
      ensures r.Failure? <==> ProvisionalTradeType(family, instrumentType).None? || fill.exitTyped
      ensures r.Failure? ==>
                r.error == if ProvisionalTradeType(family, instrumentType).None? then DataError else EntryTyped(fill.id)
    {
      hide TablesOk, Row, LotOf, Clean, ExitTypesOk, Segments, QtyOn, Flat, InUnit, Position, Stepped, LotsKept;
      ghost var s := View();
      var direction := DirectionForFirstFill(fill.side);
      var role := RoleFor(direction, fill.side);
      var outcome := OpenTrade(u, family, instrumentType, fill, p);
      if outcome.Failure? {
        return Failure(outcome.error);
      }
      var (id, snapshot) := outcome.value;
      var allowed := AssignTrade(fill.id, id, role);
      if !allowed {
        return Failure(EntryTyped(fill.id));
      }
      UntypedIsOk(s, u, p);
      history, ids := history[u := s.Hist(u) + [p]], ids[u := s.Ids(u) + [id]];
      var next := Cursor(c.running + Signed(fill), Some(snapshot), fill.quantity, fill.quantity * fill.price, []);
      var counted := RunResult(result.fillsProcessed + 1, result.tradesOpened + 1, result.tradesClosed,
                               if family == DELIVERY then result.lotsCreated + 1 else result.lotsCreated,
                               result.lotsUpdated, Some(id));
      FlatStepDone(s, View(), u, p, result, next);
      r := Success((next, counted));
    }

    /** The two ways a fill can change an open trade, its lot and the run's state. */
    method ApplyToOpen(u: Unit, family: Family, fill: Fill, role: Role, c: Cursor, ghost s: History, ghost p: Processed)
      returns (r: Result<Cursor, EngineError>)
      requires FamilyFor(u.product) == Some(family)
      requires c.current.Some? && CursorAt(c, c.current.value.id, u, s, p.startsRun)
      requires p.fill == fill && |s| > 0 && Net(s) > 0 && (role == ENTRY <==> fill.side == EntrySide(s))
      requires role == ENTRY || fill.quantity <= Net(s)
      requires c.current.value.id in trades && trades[c.current.value.id] == Row(u, s)
      modifies this`trades, this`lots
      ensures r.Success? ==> trades == old(trades)[c.current.value.id := Row(u, s + [p])]
      ensures r.Success? ==> r.value.running == c.running && (r.value.current.None? <==> Net(s + [p]) == 0)
      ensures r.Success? && r.value.current.Some? ==> CursorAt(r.value, c.current.value.id, u, s + [p], false)
      ensures family != DELIVERY ==> r.Success? && lots == old(lots)
      ensures family == DELIVERY && OwnLotOnly(old(lots), u, c.current.value.id, s) ==>
                r.Success? && lots == old(lots)[c.current.value.id := LotOf(u, s + [p])]
      ensures family == DELIVERY && r.Success? ==> LotMovedAt(old(lots), lots, u, c.current.value.id, s, p)
      ensures r.Failure? ==>
                r.error == Inconsistent && family == DELIVERY && LotFaultAt(old(lots), u, c.current.value.id, s, p)
    {
      hide Row, LotOf, CursorAt, QtyOn, ExitRefused, ExitPasses, LotScaled;
      NetSnoc(s, p);
      if role == ENTRY {
        ghost var lots0, id := lots, c.current.value.id;
        r := ScaleIn(u, family, fill, c, s, p);
        if r.Success? {
          StillOpen(r.value, id, u, s + [p]);
        }
      } else {
        r := ApplyExit(u, family, fill, c, s, p);
      }
    }

    /** A fill on an open trade. */
    method ProcessOpen(u: Unit, family: Family, fill: Fill, c: Cursor, result: RunResult, ghost p: Processed)
      returns (r: Result<(Cursor, RunResult), EngineError>)
      requires TablesOk(View()) && CursorOk(View(), u, c, p.startsRun) && c.current.Some?
      requires FamilyFor(u.product) == Some(family)
      requires p.fill == fill && Acceptable(View(), u, p)
      modifies this`trades, this`fills, this`lots, this`history, this`ids
      ensures r.Success? ==> StepDone(old(View()), View(), u, p, result, r.value) && View().Ids(u) == old(View()).Ids(u)
      ensures r.Failure? ==> (r.error == Inconsistent && LotFault(old(View()), u, p) && !LotsReady(old(View()), u)) ||
                             (r.error == EntryTyped(fill.id) && !ExitTypesOk(old(View()).Hist(u) + [p]))
    {
      hide TablesOk, Clean, ExitTypesOk, Segments, Row, LotOf, QtyOn, Net, CursorAt, CursorOk, Flat, InUnit, LotsMatch,
           NoForeignOpenLot, Stepped, StepDone, OwnLotOnly, LotFaultAt, LotMovedAt, Accumulate, Position;
      ghost var s := View();
      OpenTradeFacts(s, u, c, p);
      ghost var open, id := Last(Segments(s.Hist(u))), Last(s.Ids(u));
      var current := c.current.value;
      var role := RoleFor(current.direction, fill.side);
      var outcome := ApplyToOpen(u, family, fill, role, c, open, p);
      if LotsReady(s, u) && family == DELIVERY {
        OpenTradeOwnsItsLot(s, u);
      }
      if outcome.Failure? {
        return Failure(outcome.error);
      }
      var allowed := AssignTrade(fill.id, current.id, role);
      OpenExitTypes(s, u, p);
      if !allowed {
        return Failure(EntryTyped(fill.id));
      }
      history, ids := history[u := s.Hist(u) + [p]], ids[u := s.Ids(u)];
      var next := outcome.value.(running := c.running + Signed(fill));
      if next.current.Some? {
        RunningIsApart(outcome.value, id, u, open + [p], next.running);
      }
      var counted := result.(fillsProcessed := result.fillsProcessed + 1,
                             tradesClosed := result.tradesClosed + if next.current.None? then 1 else 0,
                             lotsUpdated := result.lotsUpdated + if family == DELIVERY then 1 else 0);
      OpenStepDone(s, View(), u, p, result, next);
      r := Success((next, counted));
    }

    /** One iteration of the run's loop. */
    method ProcessFill(u: Unit, family: Family, instrumentType: InstrumentType, fill: Fill, c: Cursor,
                       result: RunResult, ghost p: Processed)
      returns (r: Result<(Cursor, RunResult), EngineError>)
      requires TablesOk(View()) && CursorOk(View(), u, c, p.startsRun)
      requires FamilyFor(u.product) == Some(family)
      requires p.fill == fill && p.opensAs == RunType(u, instrumentType) && FillInUnit(u, fill)
      requires fill.id in fills && fills[fill.id] == FillRow(fill, None, None)
      modifies this`trades, this`fills, this`lots, this`nextTrade, this`history, this`ids
      ensures r.Success? ==> StepDone(old(View()), View(), u, p, result, r.value) &&
                             OpensTyped(old(View()), View(), u, instrumentType)
      ensures r.Failure? ==> StepFailed(old(View()), u, family, instrumentType, p, r.error)
    {
      hide TablesOk, Clean, ExitTypesOk, Segments, Row, CursorAt, Flat, LotsReady, StepDone;
      // The fill was fetched by product type, so its family is the unit's (E2 cannot arise here).
      assert FamilyFor(fill.product) == Some(family);
      var newPosition := c.running + Signed(fill);
      if Crosses(c.running, newPosition) {
        CrossingIsUnclean(View(), u, p);
        return Failure(CrossingZero(fill.id));
      }
      NotCrossingIsClean(View(), u, p);
      if c.current.None? {
        FlatPosition(View(), u);
        if fill.exitTyped {
          TypedOnFlatIsNot(View(), u, p);
        }
        r := ProcessFlat(u, family, instrumentType, fill, c, result, p);
      } else {
        r := ProcessOpen(u, family, fill, c, result, p);
      }
    }

    /** One reconstruction run for a processing unit. */
    method Run(u: Unit, instrumentType: InstrumentType)
      returns (r: Result<RunResult, EngineError>, ghost fetched: seq<Fill>)
      requires TablesOk(View())
      modifies this
      ensures excluded == old(excluded)
      ensures r.Success? ==> RunDone(old(View()), View(), excluded, u, instrumentType, fetched, r.value)
      ensures r.Failure? ==> RunFailed(old(View()), excluded, u, instrumentType, fetched, r.error)
    {
      hide TablesOk, Accepted, Segments, Flat, CursorOk, IsFetch, SoFar, AdjacentPairsClear, RunDone, RunFailed, Row,
           Mark, RunType;
      ghost var s := View();
      fetched := [];
      if FamilyFor(u.product).None? {
        UnknownProductFails(s, excluded, u, instrumentType);
        return Failure(DataError), fetched;
      }
      var family := FamilyFor(u.product).value;
      var open := GetOpenTrade(u, family);
      var fills := GetUnprocessedFills(u);
      fetched := fills;
      if fills == [] {
        IdleRun(s, excluded, u, instrumentType);
        return Success(NOTHING_DONE), fetched;
      }
      var pair := CheckAmbiguousOrdering(fills);
      if pair.Some? {
        AmbiguousFails(s, excluded, u, instrumentType, fills, pair.value.0, pair.value.1);
        return Failure(Ambiguous(pair.value.0, pair.value.1)), fetched;
      }
      var c := Resume(u, open);
      var result := NOTHING_DONE.(affected := if open.Some? then Some(open.value.id) else None);
      RunStart(s, u, RunType(u, instrumentType), result);
      r := ProcessFills(u, family, instrumentType, fills, c, result, s);
      if r.Success? {
        BusyRun(s, View(), excluded, u, instrumentType, fills, r.value);
      }
    }

    /** A run inside its caller's transaction: rolled back when it fails. */
    method RunInTransaction(u: Unit, instrumentType: InstrumentType)
      returns (r: Result<RunResult, EngineError>, ghost fetched: seq<Fill>)
      requires TablesOk(View())
      modifies this
      ensures TablesOk(View()) && excluded == old(excluded)
      ensures r.Success? ==> RunDone(old(View()), View(), excluded, u, instrumentType, fetched, r.value)
      ensures r.Failure? ==> View() == old(View()) && RunFailed(View(), excluded, u, instrumentType, fetched, r.error)
    {
      hide TablesOk, RunFailed;
      var trades0, fills0, lots0, next0 := trades, fills, lots, nextTrade;
      ghost var history0, ids0 := history, ids;
      r, fetched := Run(u, instrumentType);
      if r.Failure? {
        trades, fills, lots, nextTrade := trades0, fills0, lots0, next0;
        history, ids := history0, ids0;
      }
    }

    /** Once a run has succeeded there is nothing left to do: an immediate second run changes nothing. */
    method RunAgain(u: Unit, instrumentType: InstrumentType) returns (first: Result<RunResult, EngineError>,
                                                                      second: Result<RunResult, EngineError>)
      requires TablesOk(View())
      modifies this
      ensures first.Success? ==> second == Success(NOTHING_DONE)
      ensures first.Success? ==>
                exists fetched :: RunDone(old(View()), View(), excluded, u, instrumentType, fetched, first.value)
    {
      hide TablesOk, RunDone, RunFailed;
      ghost var s, fetched, again;
      s := View();
      first, fetched := RunInTransaction(u, instrumentType);
      ghost var done := View();
      second, again := RunInTransaction(u, instrumentType);
      if first.Success? {
        SecondRunFindsNothing(s, done, View(), excluded, u, instrumentType, fetched, first.value, again, second);
      }
    }

    /** The run's loop over the fetched fills. */
    method ProcessFills(u: Unit, family: Family, instrumentType: InstrumentType, fetched: seq<Fill>,
                        resumed: Cursor, counted: RunResult, ghost s: Tables)
      returns (r: Result<RunResult, EngineError>)
      requires TablesOk(View()) && s == View() && FamilyFor(u.product) == Some(family)
      requires CursorOk(s, u, resumed, true) && SoFar(s, s, u, RunType(u, instrumentType), [], counted)
      requires IsFetch(s.fills, excluded, u, fetched)
      modifies this`trades, this`fills, this`lots, this`nextTrade, this`history, this`ids
      ensures r.Success? ==> TablesOk(View()) && SoFar(s, View(), u, RunType(u, instrumentType), fetched, r.value) &&
                             Accepted(s.Hist(u) + Mark(fetched, RunType(u, instrumentType))) &&
                             OpensTyped(s, View(), u, instrumentType) &&
                             Reaches(s, View(), u, RunType(u, instrumentType), fetched, |fetched|)
      ensures r.Failure? ==> RunFailed(s, excluded, u, instrumentType, fetched, r.error)
    {
      hide TablesOk, Accepted, Segments, CursorOk, LotsReady, StepDone, StepFailed, IsFetch, SoFar, RunFailed,
           FillInUnit, Tally, RunType, Reaches;
      ghost var t := RunType(u, instrumentType);
      var c, result := resumed, counted;
      var i := 0;
      assert fetched[..0] == [];
      ReachesStart(s, u, t, fetched);
      while i < |fetched|
        invariant 0 <= i <= |fetched|
        invariant TablesOk(View()) && CursorOk(View(), u, c, i == 0)
        invariant SoFar(s, View(), u, t, fetched[..i], result) && OpensTyped(s, View(), u, instrumentType)
        invariant Reaches(s, View(), u, t, fetched, i)
      {
        ghost var mid, p := View(), Processed(fetched[i], i == 0, t);
        NextFillIsReady(s, mid, excluded, u, t, fetched, i, result);
        var outcome := ProcessFill(u, family, instrumentType, fetched[i], c, result, p);
        if outcome.Failure? {
          FailureOfStep(s, mid, excluded, u, instrumentType, fetched, i, result, outcome.error);
          return Failure(outcome.error);
        }
        StepTaken(s, mid, View(), u, t, fetched, i, result, outcome.value);
        c, result := outcome.value.0, outcome.value.1;
        i := i + 1;
      }
      assert fetched[..i] == fetched;
      RunIsAccepted(s, View(), u, t, fetched, result);
      r := Success(result);
    }

    /** The state a run starts from: rebuilt from the open trade row, or flat. */
    method Resume(u: Unit, open: Option<Snapshot>) returns (c: Cursor)
      requires TablesOk(View())
      requires open.None? <==> Flat(Segments(View().Hist(u)))
      requires open.Some? ==> Segments(View().Hist(u)) != [] && View().Ids(u) != [] &&
                              open.value == SnapshotOf(Last(View().Ids(u)), Row(u, Last(Segments(View().Hist(u)))))
      ensures CursorOk(View(), u, c, true)
    {
      SegmentsPosition(View().Hist(u));
      if open.None? {
        if Segments(View().Hist(u)) != [] {
          PositionOfSegment(Last(Segments(View().Hist(u))));
        }
        c := Cursor(0, None, 0, 0, []);
      } else {
        var trade := open.value;
        ghost var s := Last(Segments(View().Hist(u)));
        PositionOfSegment(s);
        OpenTradeStart(View(), u);
        var running := if trade.direction == LONG then trade.net else -trade.net;
        var entryQty := trade.totalEntry;
        var entryValue := trade.averageEntry * trade.totalEntry;
        var exitFills := [];
        if trade.status == PARTIAL {
          exitFills := GetExitFills(trade.id);
          ExitFillsSums(u, s, trade.id, trades, fills, exitFills);
        } else {
          SumsOfSide(s, Opposite(EntrySide(s)));
          NoQtyNoValue(s, Opposite(EntrySide(s)));
        }
        c := Cursor(running, open, entryQty, entryValue, exitFills);
      }
    }
  }

  lemma RunningIsApart(c: Cursor, id: TradeId, u: Unit, s: History, running: int)
    requires CursorAt(c, id, u, s, false)
    ensures CursorAt(c.(running := running), id, u, s, false)
  {
  }

  lemma OpenTradeFacts(s: Tables, u: Unit, c: Cursor, p: Processed)
    requires TablesOk(s) && Acceptable(s, u, p) && CursorOk(s, u, c, p.startsRun) && c.current.Some?
    ensures Segments(s.Hist(u)) != [] && !Flat(Segments(s.Hist(u))) && s.Ids(u) != []
    ensures c.running == Position(s.Hist(u))
    ensures CursorAt(c, Last(s.Ids(u)), u, Last(Segments(s.Hist(u))), p.startsRun)
    ensures var open, id := Last(Segments(s.Hist(u))), Last(s.Ids(u));
            && |open| > 0 && Net(open) > 0 && id in s.trades && s.trades[id] == Row(u, open)
            && (p.fill.side == EntrySide(open) || p.fill.quantity <= Net(open))
            && c.current.value.id == id && c.current.value.direction == DirectionForFirstFill(EntrySide(open))
            && EntrySide(open + [p]) == EntrySide(open)
            && Net(open + [p]) ==
               Net(open) + (if p.fill.side == EntrySide(open) then p.fill.quantity else -(p.fill.quantity as int))
  {
    NetSnoc(Last(Segments(s.Hist(u))), p);
    OpenTradeStart(s, u);
    UnitAlwaysOk(s, u);
    CleanSnoc(s.Hist(u), p);
  }

  lemma OpenStepDone(s: Tables, s': Tables, u: Unit, p: Processed, before: RunResult, next: Cursor)
    requires ExitTypesOk(s.Hist(u) + [p])
    requires TablesOk(s) && Acceptable(s, u, p)
    requires Segments(s.Hist(u)) != [] && !Flat(Segments(s.Hist(u))) && s.Ids(u) != []
    requires Booked(s, s', u, p, Last(Segments(s.Hist(u))) + [p], s.Ids(u)) && s'.nextTrade == s.nextTrade
    requires u.product != CNC ==> s'.lots == s.lots
    requires u.product == CNC && LotsReady(s, u) ==>
               s'.lots == s.lots[Last(s.Ids(u)) := LotOf(u, Last(Segments(s.Hist(u))) + [p])]
    requires |Last(Segments(s.Hist(u)))| > 0
    requires u.product == CNC ==> LotMovedAt(s.lots, s'.lots, u, Last(s.Ids(u)), Last(Segments(s.Hist(u))), p)
    requires next.running == Position(s.Hist(u)) + Signed(p.fill)
    requires next.current.None? <==> Net(Last(Segments(s.Hist(u))) + [p]) == 0
    requires next.current.Some? ==> CursorAt(next, Last(s.Ids(u)), u, Last(Segments(s.Hist(u))) + [p], false)
    ensures StepDone(s, s', u, p, before,
                     (next, before.(fillsProcessed := before.fillsProcessed + 1,
                                    tradesClosed := before.tradesClosed + if next.current.None? then 1 else 0,
                                    lotsUpdated := before.lotsUpdated + if u.product == CNC then 1 else 0)))
  {
    hide ExitTypesOk, TablesOk, TradesOk, TradeOk, Clean, Segments, Row, LotOf, Accumulate, QtyOn, ValueOn, LotsFor,
         OpenLotsWithin, CursorAt, Position, LotMovedAt;
    ContinuingKeepsTables(s, s', u, p);
    assert Stepped(s, s', u, p) by {
      UnitAlwaysOk(s', u);
    }
    OpenCursor(s, s', u, p, next);
    assert LotsKept(s, s', u) by {
      if u.product == CNC && LotsReady(s, u) {
        UnitAlwaysOk(s, u);
        ContinuingLots(s, s', u, p);
      }
    }
  }

  lemma OpenCursor(s: Tables, s': Tables, u: Unit, p: Processed, next: Cursor)
    requires Segments(s.Hist(u)) != [] && s.Ids(u) != [] && s'.Ids(u) == s.Ids(u) && s'.Hist(u) == s.Hist(u) + [p]
    requires Segments(s'.Hist(u)) == Front(Segments(s.Hist(u))) + [Last(Segments(s.Hist(u))) + [p]]
    requires next.running == Position(s.Hist(u)) + Signed(p.fill)
    requires next.current.None? <==> Net(Last(Segments(s.Hist(u))) + [p]) == 0
    requires next.current.Some? ==> CursorAt(next, Last(s.Ids(u)), u, Last(Segments(s.Hist(u))) + [p], false)
    ensures CursorOk(s', u, next, false)
    ensures Position(s'.Hist(u)) == 0 <==> next.current.None?
  {
    hide Row, Accumulate, QtyOn, ValueOn, CursorAt;
    Snoc(s.Hist(u), p);
    Snoc(Front(Segments(s.Hist(u))), Last(Segments(s.Hist(u))) + [p]);
    SegmentsPosition(s'.Hist(u));
    PositionOfSegment(Last(Segments(s.Hist(u))) + [p]);
  }

  /** The delivery unit's lots follow when its open trade takes one more fill. */
  lemma ContinuingLots(s: Tables, s': Tables, u: Unit, p: Processed)
    requires UnitOk(s, u) && LotsMatch(s, u) && NoForeignOpenLot(s, u)
    requires Segments(s.Hist(u)) != [] && s.Ids(u) != [] && s'.Ids(u) == s.Ids(u)
    requires Segments(s'.Hist(u)) == Front(Segments(s.Hist(u))) + [Last(Segments(s.Hist(u))) + [p]]
    requires s'.lots == s.lots[Last(s.Ids(u)) := LotOf(u, Last(Segments(s.Hist(u))) + [p])]
    ensures LotsMatch(s', u) && NoForeignOpenLot(s', u)
  {
    var segments := Segments(s.Hist(u));
    assert segments == Front(segments) + [Last(segments)];
    LotsGrow(u, Front(segments), Last(segments), s.Ids(u), p, s.lots);
  }

  lemma StillOpen(c: Cursor, id: TradeId, u: Unit, s: History)
    requires CursorAt(c, id, u, s, false)
    ensures c.current.Some?
  {
  }

  /** The engine's scale-in arithmetic gives the columns and accumulators of the grown segment. */
  lemma ScaledIn(c: Cursor, u: Unit, s: History, p: Processed)
    requires c.current.Some? && CursorAt(c, c.current.value.id, u, s, p.startsRun)
    requires |s| > 0 && Net(s) > 0 && p.fill.side == EntrySide(s)
    ensures c.entryQty + p.fill.quantity > 0
    ensures var current, qty := c.current.value, c.entryQty + p.fill.quantity;
            var value := c.entryValue + p.fill.quantity * p.fill.price;
            var average, status := RoundDiv(value, qty), if current.totalExit > 0 then PARTIAL else OPEN;
            var totalEntry, net := current.totalEntry + p.fill.quantity, current.net + p.fill.quantity;
            && Row(u, s + [p]) ==
               Row(u, s).(totalEntry := totalEntry, net := net, averageEntry := average, status := status)
            && LotOf(u, s + [p]) == LotOf(u, s).(original := LotOf(u, s).original + p.fill.quantity,
                                                 remaining := LotOf(u, s).remaining + p.fill.quantity, cost := average)
            && CursorAt(c.(entryQty := qty, entryValue := value,
                           current := Some(current.(status := status, totalEntry := totalEntry, net := net,
                                                    averageEntry := average))),
                        current.id, u, s + [p], false)
  {
    hide Accumulate, QtyOn, ValueOn, LastExitAt, RoundDiv;
    RowScaledIn(u, s, p);
    LotScaledIn(u, s, p);
    NetSnoc(s, p);
    SnocAccumulate(s, p, EntrySide(s));
    SnocAccumulate(s, p, Opposite(EntrySide(s)));
  }

  /** Why one fill may be refused. */
  ghost predicate StepFailed(s: Tables, u: Unit, family: Family, instrumentType: InstrumentType, p: Processed,
                             error: EngineError) {
    match error
    case CrossingZero(f) => f == p.fill.id && !Clean(s.Hist(u) + [p])
    case DataError => ProvisionalTradeType(family, instrumentType).None? && Position(s.Hist(u)) == 0
    case Inconsistent => LotFault(s, u, p) && !LotsReady(s, u)
    case EntryTyped(f) => f == p.fill.id && Clean(s.Hist(u) + [p]) && !ExitTypesOk(s.Hist(u) + [p])
    case Ambiguous(_, _) => false
  }

  /** A fill without an exit type, or one that exits, leaves the exit types in order. */
  lemma ExitTypesSnoc(s: Tables, u: Unit, p: Processed)
    requires TablesOk(s)
    ensures ExitTypesOk(s.Hist(u) + [p]) <==> !(p.fill.exitTyped && Enters(Position(s.Hist(u)), p.fill))
  {
    UnitAlwaysOk(s, u);
    Snoc(s.Hist(u), p);
  }

  lemma UntypedIsOk(s: Tables, u: Unit, p: Processed)
    requires TablesOk(s) && !p.fill.exitTyped
    ensures ExitTypesOk(s.Hist(u) + [p])
  {
    hide TablesOk, ExitTypesOk;
    ExitTypesSnoc(s, u, p);
  }

  lemma TypedOnFlatIsNot(s: Tables, u: Unit, p: Processed)
    requires TablesOk(s) && Flat(Segments(s.Hist(u))) && p.fill.exitTyped
    ensures !ExitTypesOk(s.Hist(u) + [p])
  {
    hide TablesOk, ExitTypesOk, Segments;
    FlatPosition(s, u);
    ExitTypesSnoc(s, u, p);
  }

  /** On an open trade, playing ENTRY is being on its entry side. */
  lemma OpenExitTypes(s: Tables, u: Unit, p: Processed)
    requires TablesOk(s) && Segments(s.Hist(u)) != [] && !Flat(Segments(s.Hist(u)))
    ensures var open := Last(Segments(s.Hist(u)));
            |open| > 0 && (ExitTypesOk(s.Hist(u) + [p]) <==> !(p.fill.exitTyped && p.fill.side == EntrySide(open)))
  {
    var open := Last(Segments(s.Hist(u)));
    SegmentsPosition(s.Hist(u));
    PositionOfSegment(open);
    UnitAlwaysOk(s, u);
    CleanTrades(s.Hist(u));
    ExitTypesSnoc(s, u, p);
  }

  lemma FlatPosition(s: Tables, u: Unit)
    requires Flat(Segments(s.Hist(u)))
    ensures Position(s.Hist(u)) == 0
  {
    SegmentsPosition(s.Hist(u));
    if Segments(s.Hist(u)) != [] {
      PositionOfSegment(Last(Segments(s.Hist(u))));
    }
  }

  lemma CrossingIsUnclean(s: Tables, u: Unit, p: Processed)
    requires Crosses(Position(s.Hist(u)), Position(s.Hist(u)) + Signed(p.fill))
    ensures !Clean(s.Hist(u) + [p])
  {
    Snoc(s.Hist(u), p);
  }

  lemma NotCrossingIsClean(s: Tables, u: Unit, p: Processed)
    requires TablesOk(s) && !Crosses(Position(s.Hist(u)), Position(s.Hist(u)) + Signed(p.fill))
    ensures Clean(s.Hist(u) + [p])
  {
    hide TablesOk, TradesOk, Segments;
    UnitAlwaysOk(s, u);
    Snoc(s.Hist(u), p);
  }

  lemma UnknownProductFails(s: Tables, excluded: set<FillId>, u: Unit, instrumentType: InstrumentType)
    requires FamilyFor(u.product).None?
    ensures RunFailed(s, excluded, u, instrumentType, [], DataError)
  {
  }

  lemma AmbiguousFails(s: Tables, excluded: set<FillId>, u: Unit, instrumentType: InstrumentType,
                       fetched: seq<Fill>, a: FillId, b: FillId)
    requires FamilyFor(u.product).Some? && IsFetch(s.fills, excluded, u, fetched)
    requires exists i :: 0 <= i < |fetched| - 1 && AmbiguousPair(fetched[i], fetched[i + 1]) &&
                         a == fetched[i].id && b == fetched[i + 1].id
    ensures RunFailed(s, excluded, u, instrumentType, fetched, Ambiguous(a, b))
  {
  }

  lemma IdleRun(s: Tables, excluded: set<FillId>, u: Unit, instrumentType: InstrumentType)
    requires TablesOk(s) && FamilyFor(u.product).Some? && IsFetch(s.fills, excluded, u, [])
    ensures RunDone(s, s, excluded, u, instrumentType, [], NOTHING_DONE)
  {
    hide TablesOk, IsFetch;
    UnitAlwaysOk(s, u);
    assert s.Hist(u) + Mark([], RunType(u, instrumentType)) == s.Hist(u);
  }

  lemma BusyRun(s: Tables, s': Tables, excluded: set<FillId>, u: Unit, instrumentType: InstrumentType,
                fetched: seq<Fill>, result: RunResult)
    requires FamilyFor(u.product).Some? && TablesOk(s') && fetched != []
    requires IsFetch(s.fills, excluded, u, fetched) && AdjacentPairsClear(fetched)
    requires Accepted(s.Hist(u) + Mark(fetched, RunType(u, instrumentType)))
    requires SoFar(s, s', u, RunType(u, instrumentType), fetched, result) && OpensTyped(s, s', u, instrumentType)
    requires Reaches(s, s', u, RunType(u, instrumentType), fetched, |fetched|)
    ensures RunDone(s, s', excluded, u, instrumentType, fetched, result)
  {
    hide TablesOk, IsFetch, AdjacentPairsClear, Accepted, SoFar, Mark, RunType, OpensTyped, Reaches;
  }

  lemma NothingMarked(h: History, t: TradeType)
    ensures h + Mark([], t) == h
  {
  }

  lemma NothingAssigned(s: Tables, u: Unit)
    ensures FillsAssigned(s.fills, s.fills, []) && LotsKept(s, s, u)
  {
    hide LotsReady;
  }

  lemma RunStart(s: Tables, u: Unit, t: TradeType, result: RunResult)
    requires TablesOk(s)
    requires var none := Flat(Segments(s.Hist(u))) || s.Ids(u) == [];
             result == NOTHING_DONE.(affected := if none then None else Some(Last(s.Ids(u))))
    ensures SoFar(s, s, u, t, [], result)
  {
    hide TablesOk, FillsAssigned, LotsKept, Segments, Flat, Mark, ZeroCount;
    NothingMarked(s.Hist(u), t);
    NothingAssigned(s, u);
    OpenHasId(s, u);
  }

  lemma OpenHasId(s: Tables, u: Unit)
    requires TablesOk(s)
    ensures Flat(Segments(s.Hist(u))) || s.Ids(u) != []
  {
    if !Flat(Segments(s.Hist(u))) {
      LastTradeIsOpen(s, u);
    }
  }

  lemma StepDoneParts(s: Tables, s': Tables, u: Unit, p: Processed, before: RunResult, after: (Cursor, RunResult))
    requires StepDone(s, s', u, p, before, after)
    ensures Stepped(s, s', u, p) && CursorOk(s', u, after.0, false) && LotsKept(s, s', u) && TablesOk(s')
    ensures StepTo(s, s', u, p)
    ensures s'.Ids(u) != [] && after.1 == Tally(before, s, s', u)
  {
    hide TablesOk, CursorOk, LotsKept, LotMoved, Tally;
  }

  lemma LotsStayReady(s: Tables, s': Tables, u: Unit)
    requires LotsKept(s, s', u)
    ensures LotsReady(s, u) ==> LotsReady(s', u)
  {
    hide LotsMatch, NoForeignOpenLot, OtherLotsSame;
  }

  /** Where a run stands when it takes fill i. */
  lemma FailurePoint(s: Tables, mid: Tables, u: Unit, t: TradeType, fetched: seq<Fill>, i: nat, result: RunResult)
    requires i < |fetched| && TablesOk(mid) && SoFar(s, mid, u, t, fetched[..i], result)
    ensures mid.Hist(u) == s.Hist(u) + Mark(fetched[..i], t) && Accepted(mid.Hist(u))
    ensures s.Hist(u) + Mark(fetched[..i + 1], t) == mid.Hist(u) + [Processed(fetched[i], i == 0, t)]
    ensures LotsReady(s, u) ==> LotsReady(mid, u)
  {
    hide TablesOk, FillsAssigned, Counted, Mark, Accepted, TradesOk, Segments, LastFillIn, LotsReady, LotsKept;
    UnitAlwaysOk(mid, u);
    LotsStayReady(s, mid, u);
    MarkSnoc(fetched[..i], fetched[i], t);
    assert fetched[..i] + [fetched[i]] == fetched[..i + 1];
  }

  lemma FailureOfStep(s: Tables, mid: Tables, excluded: set<FillId>, u: Unit, instrumentType: InstrumentType,
                      fetched: seq<Fill>, i: nat, result: RunResult, error: EngineError)
    requires FamilyFor(u.product).Some? && IsFetch(s.fills, excluded, u, fetched) && i < |fetched|
    requires TablesOk(mid) && SoFar(s, mid, u, RunType(u, instrumentType), fetched[..i], result)
    requires Reaches(s, mid, u, RunType(u, instrumentType), fetched, i)
    requires StepFailed(mid, u, FamilyFor(u.product).value, instrumentType,
                        Processed(fetched[i], i == 0, RunType(u, instrumentType)), error)
    ensures RunFailed(s, excluded, u, instrumentType, fetched, error)
  {
    hide TablesOk, IsFetch, LotsReady, LotFault, SoFar, Mark, Accepted, Clean, ExitTypesOk, RunType, Reaches;
    var t := RunType(u, instrumentType);
    FailurePoint(s, mid, u, t, fetched, i, result);
    match error
    case DataError =>
      assert OpensTrade(s.Hist(u), fetched, t, i);
    case CrossingZero(_) =>
      assert FirstCrossing(s.Hist(u), fetched, t, i);
      CrossingSpoilsTheRun(s.Hist(u), fetched, t, i);
    case EntryTyped(_) =>
      assert FirstTypedEntry(s.Hist(u), fetched, t, i);
      TypedEntrySpoilsTheRun(s.Hist(u), fetched, t, i);
    case Inconsistent =>
      assert StopsAtLots(s, u, t, fetched, i);
    case Ambiguous(_, _) =>
  }

  lemma NextFillIsReady(s: Tables, mid: Tables, excluded: set<FillId>, u: Unit, t: TradeType, fetched: seq<Fill>,
                        i: nat,
                        result: RunResult)
    requires TablesOk(s) && IsFetch(s.fills, excluded, u, fetched) && i < |fetched|
    requires SoFar(s, mid, u, t, fetched[..i], result)
    ensures FillInUnit(u, fetched[i]) && fetched[i].id in mid.fills
    ensures mid.fills[fetched[i].id] == FillRow(fetched[i], None, None)
  {
    hide TablesOk, IsFetch, SoFar, FillsAssigned, FillInUnit;
    SoFarFills(s, mid, u, t, fetched[..i], result);
    NextIsUnassigned(s, excluded, u, fetched, i, mid.fills);
  }

  lemma StepTaken(s: Tables, mid: Tables, s': Tables, u: Unit, t: TradeType, fetched: seq<Fill>, i: nat,
                  result: RunResult, after: (Cursor, RunResult))
    requires TablesOk(mid) && i < |fetched| && SoFar(s, mid, u, t, fetched[..i], result)
    requires fetched[i].id in mid.fills && mid.fills[fetched[i].id].fill == fetched[i]
    requires StepDone(mid, s', u, Processed(fetched[i], i == 0, t), result, after)
    requires Reaches(s, mid, u, t, fetched, i)
    ensures TablesOk(s') && CursorOk(s', u, after.0, false) && SoFar(s, s', u, t, fetched[..i + 1], after.1)
    ensures Reaches(s, s', u, t, fetched, i + 1)
  {
    hide TablesOk, CursorOk, SoFar, StepDone, Stepped, StepTo, LotsKept, Tally, Reaches;
    ReachesOn(s, mid, s', u, t, fetched, i, result, after);
    var done := fetched[..i];
    assert (done == []) == (i == 0) && fetched[..i + 1] == done + [fetched[i]];
    StepDoneParts(mid, s', u, Processed(fetched[i], i == 0, t), result, after);
    SoFarStep(s, mid, s', u, t, done, fetched[i], result);
  }

  lemma ReachesOn(s: Tables, mid: Tables, s': Tables, u: Unit, t: TradeType, fetched: seq<Fill>, i: nat,
                  result: RunResult, after: (Cursor, RunResult))
    requires i < |fetched| && Reaches(s, mid, u, t, fetched, i)
    requires StepDone(mid, s', u, Processed(fetched[i], i == 0, t), result, after)
    ensures Reaches(s, s', u, t, fetched, i + 1)
  {
    hide StepDone, StepTo, Reaches;
    StepDoneParts(mid, s', u, Processed(fetched[i], i == 0, t), result, after);
    ReachesNext(s, mid, s', u, t, fetched, i);
  }

  lemma SoFarFills(s: Tables, s': Tables, u: Unit, t: TradeType, done: seq<Fill>, result: RunResult)
    requires SoFar(s, s', u, t, done, result)
    ensures FillsAssigned(s.fills, s'.fills, done)
  {
  }

  lemma RunIsAccepted(s: Tables, s': Tables, u: Unit, t: TradeType, done: seq<Fill>, result: RunResult)
    requires TablesOk(s') && SoFar(s, s', u, t, done, result)
    ensures Accepted(s.Hist(u) + Mark(done, t))
  {
    UnitAlwaysOk(s', u);
  }

  lemma FlatStepDone(s: Tables, s': Tables, u: Unit, p: Processed, before: RunResult, next: Cursor)
    requires ExitTypesOk(s.Hist(u) + [p])
    requires TablesOk(s) && Acceptable(s, u, p) && Flat(Segments(s.Hist(u)))
    requires Booked(s, s', u, p, [p], s.Ids(u) + [s.nextTrade]) && s'.nextTrade == s.nextTrade + 1
    requires s'.lots == if u.product == CNC then s.lots[s.nextTrade := LotOf(u, [p])] else s.lots
    requires next == Cursor(Position(s.Hist(u)) + Signed(p.fill), Some(SnapshotOf(s.nextTrade, Row(u, [p]))),
                            p.fill.quantity, p.fill.quantity * p.fill.price, [])
    ensures StepDone(s, s', u, p, before,
                     (next, RunResult(before.fillsProcessed + 1, before.tradesOpened + 1, before.tradesClosed,
                                      if u.product == CNC then before.lotsCreated + 1 else before.lotsCreated,
                                      before.lotsUpdated, Some(s.nextTrade))))
  {
    hide ExitTypesOk, TablesOk, Row, LotOf, Clean, Segments, QtyOn, Position, InUnit, LotsMatch, NoForeignOpenLot,
         CursorOk;
    OpeningKeepsTables(s, s', u, p);
    Snoc(s.Ids(u), s.nextTrade);
    FlatCursor(s, s', u, p, next);
    FlatLots(s, s', u, p);
  }

  lemma FlatLots(s: Tables, s': Tables, u: Unit, p: Processed)
    requires TablesOk(s)
    requires s'.Ids(u) == s.Ids(u) + [s.nextTrade]
    requires Segments(s'.Hist(u)) == Segments(s.Hist(u)) + [[p]]
    requires s'.lots == if u.product == CNC then s.lots[s.nextTrade := LotOf(u, [p])] else s.lots
    ensures LotsKept(s, s', u)
  {
    hide TablesOk, LotOf, Segments;
    if u.product == CNC && LotsReady(s, u) {
      FreshForUnit(s, u);
      LotsOpen(u, Segments(s.Hist(u)), s.Ids(u), p, s.nextTrade, s.lots);
    }
  }

  lemma FreshForUnit(s: Tables, u: Unit)
    requires TablesOk(s)
    ensures s.nextTrade !in s.Ids(u)
  {
    forall k | 0 <= k < |s.Ids(u)| ensures s.Ids(u)[k] != s.nextTrade {
      IdBelongs(s, u, k);
    }
  }

  lemma FlatCursor(s: Tables, s': Tables, u: Unit, p: Processed, next: Cursor)
    requires Segments(s'.Hist(u)) == Segments(s.Hist(u)) + [[p]]
    requires s'.Hist(u) == s.Hist(u) + [p] && s'.Ids(u) == s.Ids(u) + [s.nextTrade]
    requires next == Cursor(Position(s.Hist(u)) + Signed(p.fill), Some(SnapshotOf(s.nextTrade, Row(u, [p]))),
                            p.fill.quantity, p.fill.quantity * p.fill.price, [])
    ensures CursorOk(s', u, next, false) && Position(s'.Hist(u)) != 0
  {
    Snoc(s.Hist(u), p);
    Snoc(s.Ids(u), s.nextTrade);
    Snoc(Segments(s.Hist(u)), [p]);
    OneFillTrade(p);
    RowOpened(u, p);
    SegmentsPosition(s'.Hist(u));
    PositionOfSegment([p]);
  }

  lemma CursorAfterPartialExit(c: Cursor, id: TradeId, u: Unit, s: History, p: Processed)
    requires CursorAt(c, id, u, s, p.startsRun)
    requires p.fill.side != EntrySide(s) && p.fill.quantity < Net(s)
    ensures CursorAt(c.(exitFills := c.exitFills + [p.fill], current := Some(SnapshotOf(id, Row(u, s + [p])))),
                     id, u, s + [p], false)
  {
    NetSnoc(s, p);
    SnocAccumulate(s, p, EntrySide(s));
    SnocAccumulate(s, p, Opposite(EntrySide(s)));
    Snoc(c.exitFills, p.fill);
  }

  lemma DecrementFindsOwnLot(lots: map<TradeId, LotRow>, u: Unit, id: TradeId, s: History, p: Processed)
    requires OwnLotOnly(lots, u, id, s) && p.fill.side != EntrySide(s) && p.fill.quantity <= Net(s)
    ensures OpenLot(lots, u.user, u.instrument, id) && lots[id].remaining >= p.fill.quantity
    ensures forall t :: IsOldestOpenLot(lots, u.user, u.instrument, t) ==> t == id
    ensures Decremented(lots, id, p.fill.quantity) == lots[id := LotOf(u, s + [p])]
    ensures LotOf(u, s + [p]).remaining == Net(s) - p.fill.quantity
    ensures Net(s) == p.fill.quantity ==> LotOf(u, s + [p]).status == LotClosed
  {
    LotExited(u, s, p);
  }

  lemma SecondRunFindsNothing(s: Tables, done: Tables, after: Tables, excluded: set<FillId>, u: Unit,
                              instrumentType: InstrumentType, fetched: seq<Fill>, result: RunResult,
                              again: seq<Fill>, second: Result<RunResult, EngineError>)
    requires TablesOk(s) && RunDone(s, done, excluded, u, instrumentType, fetched, result)
    requires second.Success? ==> RunDone(done, after, excluded, u, instrumentType, again, second.value)
    requires second.Failure? ==> RunFailed(done, excluded, u, instrumentType, again, second.error)
    ensures second.Success? && after == done && second.value == NOTHING_DONE
  {
    hide Reaches, TablesOk, Accepted, Cause, SoFar, AdjacentPairsClear, Mark, Unprocessed;
    forall i ensures !Unprocessed(done.fills, excluded, u, i) {
      NothingLeft(s, done, excluded, u, instrumentType, fetched, result, i);
    }
    HasMember(again);
  }
}
