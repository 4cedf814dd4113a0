/** How a trade row and its tax lot change with one more fill: the engine's incremental updates
    against the rows computed afresh from the segment. */
module RowSteps {
  import opened Sequences
  import opened TradeTypes
  import opened FixedPoint
  import opened Ledger

  /** The engine's in-memory view of an open trade. */
  datatype Snapshot = Snapshot(id: TradeId, direction: Direction, status: Status, tradeDate: int, firstFillAt: int,
                               totalEntry: int, totalExit: int, net: int, averageEntry: int, tradeType: TradeType)

  function SnapshotOf(id: TradeId, row: TradeRow): Snapshot {
    Snapshot(id, row.direction, row.status, row.tradeDate, row.firstFillAt,
             row.totalEntry, row.totalExit, row.net, row.averageEntry, row.tradeType)
  }

  lemma RowOpened(u: Unit, p: Processed)
    ensures Row(u, [p]) ==
              TradeRow(u.user, u.account, u.instrument, p.opensAs, DirectionForFirstFill(p.fill.side), OPEN,
                       p.fill.tradeDate, p.fill.timestamp, None,
                       p.fill.quantity, 0, p.fill.quantity, p.fill.price, None)
    ensures LotOf(u, [p]) ==
              LotRow(u.user, u.instrument, p.fill.tradeDate, p.fill.quantity, p.fill.quantity, p.fill.price, LotOpen)
    ensures Accumulate([p], p.fill.side) == Accumulators(p.fill.quantity, p.fill.quantity * p.fill.price, p.fill.price)
    ensures ValueOn([p], Opposite(p.fill.side)) == 0
  {
    var none: History := [];
    OneFillTrade(p);
    Snoc(none, p);
    assert none + [p] == [p];
    assert LastExitAt([p], p.fill.side) == LastExitAt(none, p.fill.side);
    assert Accumulate([p], p.fill.side) == AfterFill(Accumulate(none, p.fill.side), p, p.fill.side);
    RoundDivExact(p.fill.price, p.fill.quantity);
    assert p.fill.quantity * p.fill.price == p.fill.price * p.fill.quantity;
  }

  lemma SnocAccumulate(s: History, p: Processed, side: Side)
    ensures Accumulate(s + [p], side) == AfterFill(Accumulate(s, side), p, side)
    ensures ValueOn(s + [p], side) ==
              ValueOn(s, side) + if p.fill.side == side then p.fill.quantity * p.fill.price else 0
    ensures LastExitAt(s + [p], side) == if p.fill.side != side then Some(p.fill.timestamp) else LastExitAt(s, side)
  {
    Snoc(s, p);
  }

  lemma RowScaledIn(u: Unit, s: History, p: Processed)
    requires |s| > 0 && Net(s) > 0 && p.fill.side == EntrySide(s)
    ensures Row(u, s + [p]) ==
              Row(u, s).(totalEntry := EntryQty(s) + p.fill.quantity, net := Net(s) + p.fill.quantity,
                         averageEntry := AfterFill(Accumulate(s, EntrySide(s)), p, EntrySide(s)).average,
                         status := if ExitQty(s) > 0 then PARTIAL else OPEN)
  {
    hide QtyOn, ValueOn, Accumulate, LastExitAt, RoundDiv;
    NetSnoc(s, p);
    SnocAccumulate(s, p, EntrySide(s));
    assert (s + [p])[0] == s[0];
  }

  lemma RowPartlyExited(u: Unit, s: History, p: Processed)
    requires |s| > 0 && p.fill.side != EntrySide(s) && p.fill.quantity < Net(s)
    ensures Row(u, s + [p]) ==
              Row(u, s).(status := PARTIAL, lastFillAt := Some(p.fill.timestamp),
                         totalExit := ExitQty(s) + p.fill.quantity, net := Net(s) - p.fill.quantity)
  {
    hide QtyOn, ValueOn, Accumulate, LastExitAt, RoundDiv;
    NetSnoc(s, p);
    SnocAccumulate(s, p, EntrySide(s));
    assert (s + [p])[0] == s[0];
  }

  lemma RowClosed(u: Unit, s: History, p: Processed)
    requires |s| > 0 && p.fill.side != EntrySide(s) && p.fill.quantity == Net(s)
    ensures Row(u, s + [p]) ==
              Row(u, s).(status := CLOSED, lastFillAt := Some(p.fill.timestamp),
                         totalExit := ExitQty(s) + p.fill.quantity, net := 0,
                         tradeType := FinalizeTradeType(s[0].opensAs, s[0].fill.tradeDate, p.fill.tradeDate),
                         averageExit := Some(RoundDiv(
                           ValueOn(s, Opposite(EntrySide(s))) + p.fill.quantity * p.fill.price,
                           ExitQty(s) + p.fill.quantity)))
  {
    hide QtyOn, ValueOn, Accumulate, LastExitAt, RoundDiv;
    NetSnoc(s, p);
    SnocAccumulate(s, p, EntrySide(s));
    SnocAccumulate(s, p, Opposite(EntrySide(s)));
    assert (s + [p])[0] == s[0] && Last(s + [p]) == p;
  }

  lemma LotScaledIn(u: Unit, s: History, p: Processed)
    requires |s| > 0 && Net(s) > 0 && p.fill.side == EntrySide(s)
    ensures LotOf(u, s + [p]) ==
              LotOf(u, s).(original := EntryQty(s) + p.fill.quantity, remaining := Net(s) + p.fill.quantity,
                           cost := AfterFill(Accumulate(s, EntrySide(s)), p, EntrySide(s)).average)
  {
    hide QtyOn, ValueOn, Accumulate, LastExitAt, RoundDiv;
    NetSnoc(s, p);
    SnocAccumulate(s, p, EntrySide(s));
    assert (s + [p])[0] == s[0];
  }

  lemma LotExited(u: Unit, s: History, p: Processed)
    requires |s| > 0 && p.fill.side != EntrySide(s) && p.fill.quantity <= Net(s)
    ensures LotOf(u, s + [p]) ==
              LotOf(u, s).(remaining := Net(s) - p.fill.quantity,
                           status := if Net(s) == p.fill.quantity then LotClosed else LotPartiallyClosed)
  {
    hide QtyOn, ValueOn, Accumulate, LastExitAt, RoundDiv;
    NetSnoc(s, p);
    SnocAccumulate(s, p, EntrySide(s));
    assert (s + [p])[0] == s[0];
  }

  // ---------- sums over exit fills ----------

  function QtyOf(fills: seq<Fill>): (qty: int)
    ensures qty >= |fills|
  {
    if fills == [] then 0 else QtyOf(Front(fills)) + Last(fills).quantity
  }

  function ValueOf(fills: seq<Fill>): int {
    if fills == [] then 0 else ValueOf(Front(fills)) + Last(fills).quantity * Last(fills).price
  }

  lemma {:induction false} SumsConcat(a: seq<Fill>, b: seq<Fill>)
    ensures QtyOf(a + b) == QtyOf(a) + QtyOf(b) && ValueOf(a + b) == ValueOf(a) + ValueOf(b)
  {
    if b == [] {
      assert a + b == a;
    } else {
      assert Front(a + b) == a + Front(b) && Last(a + b) == Last(b);
      SumsConcat(a, Front(b));
    }
  }

  lemma SumsOne(f: Fill)
    ensures QtyOf([f]) == f.quantity && ValueOf([f]) == f.quantity * f.price
  {
    assert Front([f]) == [];
  }

  lemma SumsWithout(x: seq<Fill>, f: Fill, y: seq<Fill>)
    ensures QtyOf(x + [f] + y) == QtyOf(x + y) + f.quantity
    ensures ValueOf(x + [f] + y) == ValueOf(x + y) + f.quantity * f.price
  {
    SumsConcat(x, y);
    SumsConcat(x + [f], y);
    SumsConcat(x, [f]);
    SumsOne(f);
  }

  /** The sums do not depend on the order in which the rows are read. */
  lemma {:induction false} SumsPermute(a: seq<Fill>, b: seq<Fill>)
    requires multiset(a) == multiset(b)
    ensures QtyOf(a) == QtyOf(b) && ValueOf(a) == ValueOf(b)
  {
    if a == [] {
      assert |multiset(b)| == 0;
    } else {
      var f := Last(a);
      assert a == Front(a) + [f];
      assert f in multiset(a) && f in multiset(b);
      var x, y := SplitAt(b, f);
      assert multiset(Front(a)) == multiset(a) - multiset{f};
      SumsPermute(Front(a), x + y);
      SumsWithout(x, f, y);
    }
  }

  /** The fills of one side of a segment, in order. */
  function FillsOn(s: History, side: Side): seq<Fill> {
    if s == [] then []
    else FillsOn(Front(s), side) + if Last(s).fill.side == side then [Last(s).fill] else []
  }

  lemma {:induction false} SumsOfSide(s: History, side: Side)
    ensures QtyOf(FillsOn(s, side)) == QtyOn(s, side) && ValueOf(FillsOn(s, side)) == ValueOn(s, side)
  {
    if s != [] {
      SumsOfSide(Front(s), side);
      SumsConcat(FillsOn(Front(s), side), [Last(s).fill]);
      SumsOne(Last(s).fill);
      assert FillsOn(Front(s), side) + [] == FillsOn(Front(s), side);
    }
  }

  lemma {:induction false} FillsOnMembers(s: History, side: Side)
    ensures forall f :: f in FillsOn(s, side) <==> f.side == side && exists j :: 0 <= j < |s| && s[j].fill == f
  {
    if s != [] {
      FillsOnMembers(Front(s), side);
      assert s == Front(s) + [Last(s)];
      forall f ensures f in FillsOn(s, side) <==> f.side == side && exists j :: 0 <= j < |s| && s[j].fill == f {
        if f == Last(s).fill {
          assert Last(s).fill == f;
        }
        if j :| 0 <= j < |s| && s[j].fill == f && j < |s| - 1 {
          assert Front(s)[j].fill == f;
        }
        if j :| 0 <= j < |Front(s)| && Front(s)[j].fill == f {
          assert s[j].fill == f;
        }
      }
    }
  }
}
