/** The engine and the calculator joined: what stored gross P&L is worth against the cash that the
    fills of a closed trade actually moved. */
module CashFlow {
  import opened TradeTypes
  import opened FixedPoint
  import opened Ledger
  import opened EntryAverage
  import opened Store
  import opened Queries
  import opened Pnl

  /** The P&L snapshot of a closed trade row. */
  function SnapshotForPnl(row: TradeRow, plannedRisk: Option<int>): ClosedTrade
    requires row.averageExit.Some?
  {
    ClosedTrade(row.direction, row.averageEntry, row.averageExit.value, row.totalEntry, plannedRisk)
  }

  /** Money received less money paid over the fills of a segment, in units of 10^-8. */
  function NetCash(s: History): int {
    ValueOn(s, SELL) - ValueOn(s, BUY)
  }

  lemma GrossAgainstCash(entryAvg: int, exitAvg: int, q: int, entryValue: int, exitValue: int, k: nat, gross: int)
    requires q > 0
    requires 2 * Abs(entryAvg * q - entryValue) <= (k + 1) * q
    requires 2 * Abs(exitValue - exitAvg * q) <= q
    requires gross == RoundDiv((exitAvg - entryAvg) * q, TICK_IN_E8)
    ensures 2 * Abs(gross * TICK_IN_E8 - (exitValue - entryValue)) <= (k + 2) * q + 10_000
  {
    assert (exitAvg - entryAvg) * q == exitAvg * q - entryAvg * q;
    assert (k + 2) * q == (k + 1) * q + q;
  }

  lemma ShortGross(trade: ClosedTrade)
    requires trade.direction == SHORT
    ensures RoundDiv(ComputeGrossPnl(trade), TICK_IN_E8) ==
              -RoundDiv((trade.averageExit - trade.averageEntry) * trade.quantity, TICK_IN_E8)
  {
    var n := (trade.averageExit - trade.averageEntry) * trade.quantity;
    assert ComputeGrossPnl(trade) == -n;
    RoundDivNegate(n, TICK_IN_E8);
  }

  /** For a trade of Q quantity ticks opened in one run and fed ENTRY fills by k resumed runs, stored
      gross P&L differs from the cash flow of its fills by at most (k/2 + 1) price ticks per unit of
      quantity plus half a tick; k = 0 is the single-run bound. */
  lemma StoredGrossNearCash(u: Unit, s: History, plannedRisk: Option<int>, cs: ChargeSchedule)
    requires IsTrade(s) && Net(s) == 0
    ensures EntryRuns(s, EntrySide(s)) >= 1
    ensures var k := EntryRuns(s, EntrySide(s)) - 1;
            2 * Abs(ComputePnl(SnapshotForPnl(Row(u, s), plannedRisk), cs).gross * 10_000 - NetCash(s))
              <= (k + 2) * EntryQty(s) + 10_000
    ensures ComputePnl(SnapshotForPnl(Row(u, s), plannedRisk), cs).rMultiple.None?
            <==> plannedRisk.None? || plannedRisk.value == 0
  {
    hide Accumulate, QtyOn, ValueOn, EntryRuns, ComputeCharges, RoundDiv;
    var side, row := EntrySide(s), Row(u, s);
    var k := EntryRuns(s, side) - 1;
    AverageEntryDrift(s);
    EntryQtyPositive(s);
    var gross := RoundDiv((row.averageExit.value - row.averageEntry) * EntryQty(s), TICK_IN_E8);
    GrossAgainstCash(row.averageEntry, row.averageExit.value, EntryQty(s), ValueOn(s, side),
                     ValueOn(s, Opposite(side)), k, gross);
    var trade := SnapshotForPnl(row, plannedRisk);
    if side == SELL {
      ShortGross(trade);
    }
  }

  /** The same for every closed trade row of every reachable database. */
  lemma ClosedRowNearCash(s: Tables, t: TradeId, plannedRisk: Option<int>, cs: ChargeSchedule) returns (fills: History)
    requires TablesOk(s) && t in s.trades && s.trades[t].status == CLOSED
    ensures TradeOk(UnitOfRow(s.trades[t]), fills, t, s.trades, s.fills)
    ensures s.trades[t].averageExit.Some? && |fills| > 0 && EntryRuns(fills, EntrySide(fills)) >= 1
    ensures 2 * Abs(ComputePnl(SnapshotForPnl(s.trades[t], plannedRisk), cs).gross * 10_000 - NetCash(fills))
              <= (EntryRuns(fills, EntrySide(fills)) + 1) * s.trades[t].totalEntry + 10_000
  {
    var u := UnitOfRow(s.trades[t]);
    var k := OwnedTrade(s, u, t);
    fills := Segments(s.Hist(u))[k];
    StoredGrossNearCash(u, fills, plannedRisk, cs);
  }
}
