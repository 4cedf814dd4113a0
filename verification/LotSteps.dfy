/** Tax lots stay in lockstep with their trades through every fill of a delivery unit. */
module LotSteps {
  import opened Sequences
  import opened TradeTypes
  import opened Ledger
  import opened Store
  import opened Queries

  /** The trade's lot is in step with it and is the only open lot the exit lookup can find. */
  ghost predicate OwnLotOnly(lots: map<TradeId, LotRow>, u: Unit, id: TradeId, s: History) {
    && |s| > 0 && id in lots && lots[id] == LotOf(u, s)
    && forall t :: OpenLot(lots, u.user, u.instrument, t) ==> t == id
  }

  lemma OpenLotIsLast(u: Unit, segments: seq<History>, ids: seq<TradeId>, lots: map<TradeId, LotRow>, t: TradeId)
    requires TradesInOrder(segments) && LotsFor(u, segments, ids, lots) && t in ids
    requires OpenLot(lots, u.user, u.instrument, t)
    ensures t == Last(ids)
  {
    var k :| 0 <= k < |ids| && ids[k] == t;
    assert lots[t] == LotOf(u, segments[k]);
    OpenSegmentIsLast(segments, k);
  }

  lemma OpenTradeOwnsItsLot(s: Tables, u: Unit)
    requires TablesOk(s) && LotsMatch(s, u) && NoForeignOpenLot(s, u)
    requires Segments(s.Hist(u)) != [] && s.Ids(u) != []
    ensures OwnLotOnly(s.lots, u, Last(s.Ids(u)), Last(Segments(s.Hist(u))))
  {
    UnitAlwaysOk(s, u);
    CleanTrades(s.Hist(u));
    forall t | OpenLot(s.lots, u.user, u.instrument, t) ensures t == Last(s.Ids(u)) {
      OpenLotIsLast(u, Segments(s.Hist(u)), s.Ids(u), s.lots, t);
    }
  }

  lemma LotsOpen(u: Unit, segments: seq<History>, ids: seq<TradeId>, p: Processed, id: TradeId,
                 lots: map<TradeId, LotRow>)
    requires LotsFor(u, segments, ids, lots) && OpenLotsWithin(u, ids, lots) && id !in ids
    ensures LotsFor(u, segments + [[p]], ids + [id], lots[id := LotOf(u, [p])])
    ensures OpenLotsWithin(u, ids + [id], lots[id := LotOf(u, [p])])
  {
    var lots' := lots[id := LotOf(u, [p])];
    forall t | OpenLot(lots', u.user, u.instrument, t) ensures t in ids + [id] {
      assert t != id ==> OpenLot(lots, u.user, u.instrument, t);
    }
  }

  lemma LotsGrow(u: Unit, earlier: seq<History>, open: History, ids: seq<TradeId>, p: Processed,
                 lots: map<TradeId, LotRow>)
    requires LotsFor(u, earlier + [open], ids, lots) && OpenLotsWithin(u, ids, lots) && DistinctIds(ids)
    ensures |ids| > 0 && LotsFor(u, earlier + [open + [p]], ids, lots[Last(ids) := LotOf(u, open + [p])])
    ensures OpenLotsWithin(u, ids, lots[Last(ids) := LotOf(u, open + [p])])
  {
    var n := |ids| - 1;
    var segments, segments', lots' := earlier + [open], earlier + [open + [p]], lots[ids[n] := LotOf(u, open + [p])];
    forall k | 0 <= k < n
      ensures |segments'[k]| > 0 && ids[k] in lots' && lots'[ids[k]] == LotOf(u, segments'[k])
    {
      assert ids[k] != ids[n] && segments'[k] == segments[k];
    }
    forall t | OpenLot(lots', u.user, u.instrument, t) ensures t in ids {
      assert t != ids[n] ==> OpenLot(lots, u.user, u.instrument, t);
    }
  }

  function Decremented(lots: map<TradeId, LotRow>, t: TradeId, quantity: int): map<TradeId, LotRow>
    requires t in lots
  {
    var remaining := lots[t].remaining - quantity;
    lots[t := lots[t].(remaining := remaining, status := if remaining == 0 then LotClosed else LotPartiallyClosed)]
  }

  /** What is asserted of a trade's lot when the trade closes. */
  predicate LotSettled(lots: map<TradeId, LotRow>, id: TradeId) {
    id in lots ==> lots[id].remaining == 0 && lots[id].status == LotClosed
  }

  /** An exit of the trade passes the lot checks with lot t as the one looked up. */
  ghost predicate ExitPasses(lots: map<TradeId, LotRow>, u: Unit, id: TradeId, quantity: int, closes: bool,
                             t: TradeId) {
    && IsOldestOpenLot(lots, u.user, u.instrument, t) && lots[t].remaining >= quantity
    && (closes ==> LotSettled(Decremented(lots, t, quantity), id))
  }

  /** There is no lot to look up, or one that may be looked up fails the exit. */
  ghost predicate ExitRefused(lots: map<TradeId, LotRow>, u: Unit, id: TradeId, quantity: int, closes: bool) {
    || (forall t :: !OpenLot(lots, u.user, u.instrument, t))
    || (exists t :: IsOldestOpenLot(lots, u.user, u.instrument, t) && !ExitPasses(lots, u, id, quantity, closes, t))
  }

  /** The lot columns after a scale-in; a lot out of step with its trade stays out of step. */
  ghost predicate LotScaled(before: map<TradeId, LotRow>, after: map<TradeId, LotRow>, u: Unit, id: TradeId,
                            s: History, p: Processed)
  {
    && id in before && |s| > 0
    && after == before[id := before[id].(original := before[id].original + p.fill.quantity,
                                         remaining := before[id].remaining + p.fill.quantity,
                                         cost := Row(u, s + [p]).averageEntry)]
  }

  /** What makes a fill on an open delivery trade fail its lot checks (E4). */
  ghost predicate LotFault(s: Tables, u: Unit, p: Processed) {
    && u.product == CNC && Segments(s.Hist(u)) != [] && s.Ids(u) != [] && |Last(Segments(s.Hist(u)))| > 0
    && LotFaultAt(s.lots, u, Last(s.Ids(u)), Last(Segments(s.Hist(u))), p)
  }

  ghost predicate LotFaultAt(lots: map<TradeId, LotRow>, u: Unit, id: TradeId, open: History, p: Processed)
    requires |open| > 0
  {
    if p.fill.side == EntrySide(open) then id !in lots
    else ExitRefused(lots, u, id, p.fill.quantity, p.fill.quantity == Net(open))
  }

  /** How the lots move with one accepted fill on an open delivery trade, in step with it or not. */
  ghost predicate LotMovedAt(before: map<TradeId, LotRow>, after: map<TradeId, LotRow>, u: Unit, id: TradeId,
                             open: History, p: Processed)
    requires |open| > 0
  {
    if p.fill.side == EntrySide(open) then LotScaled(before, after, u, id, open, p)
    else exists t :: ExitPasses(before, u, id, p.fill.quantity, p.fill.quantity == Net(open), t) &&
                     after == Decremented(before, t, p.fill.quantity)
  }

  /** How the lots move with one accepted fill of the unit. */
  ghost predicate LotMoved(s: Tables, s': Tables, u: Unit, p: Processed) {
    if u.product != CNC then s'.lots == s.lots
    else if Flat(Segments(s.Hist(u))) then
      s'.Ids(u) != [] && s'.lots == s.lots[Last(s'.Ids(u)) := LotOf(u, [p])]
    else
      && Segments(s.Hist(u)) != [] && s.Ids(u) != [] && |Last(Segments(s.Hist(u)))| > 0
      && LotMovedAt(s.lots, s'.lots, u, Last(s.Ids(u)), Last(Segments(s.Hist(u))), p)
  }

  /** The lots a close needs to find: its own one open, holding exactly what is sold and strictly the oldest;
      or its own one settled by other exits, and enough in every oldest open lot. */
  ghost predicate CloseFindsItsLot(lots: map<TradeId, LotRow>, u: Unit, own: TradeId, quantity: int) {
    if OpenLot(lots, u.user, u.instrument, own) then
      && lots[own].remaining == quantity
      && forall o :: OpenLot(lots, u.user, u.instrument, o) && o != own ==>
             lots[own].purchaseDate < lots[o].purchaseDate
    else
      && LotSettled(lots, own) && (exists t :: OpenLot(lots, u.user, u.instrument, t))
      && forall t :: IsOldestOpenLot(lots, u.user, u.instrument, t) ==> lots[t].remaining >= quantity
  }

  /** The exact condition for a close to pass both lot checks (E4) whichever oldest open lot the lookup
      returns, for any lots of any accounts. */
  lemma CloseIsAcceptedIff(lots: map<TradeId, LotRow>, u: Unit, own: TradeId, quantity: int)
    requires quantity > 0
    ensures !ExitRefused(lots, u, own, quantity, true) <==> CloseFindsItsLot(lots, u, own, quantity)
  {
    if t :| OpenLot(lots, u.user, u.instrument, t) {
      var oldest := SomeOldestLot(lots, u.user, u.instrument, t);
      if OpenLot(lots, u.user, u.instrument, own) {
        LookupFindsOwnLotIff(lots, u.user, u.instrument, own);
      }
    }
  }

  lemma SomeOldestLot(lots: map<TradeId, LotRow>, user: UserId, instrument: InstrumentId, t: TradeId)
    returns (oldest: TradeId)
    requires OpenLot(lots, user, instrument, t)
    ensures IsOldestOpenLot(lots, user, instrument, oldest)
  {
    var pool := set o | o in lots && OpenLot(lots, user, instrument, o);
    assert t in pool;
    oldest := OldestLot(lots, pool);
  }
}
