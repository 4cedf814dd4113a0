/** The P&L calculator: gross P&L, seven rounded charge components, net P&L and R-multiple of a
    closed trade.  Prices, quantities and money are ticks of 10^-4, rates are units of 10^-8, so a
    turnover is in units of 10^-8 and a rate times a turnover in units of 10^-16. */
module Pnl {
  import opened TradeTypes
  import opened FixedPoint

  const TICK_IN_E8 := 10_000
  const TICK_IN_E16 := 1_000_000_000_000
  const TICK_IN_E24 := 100_000_000_000_000_000_000
  const R_UNITS := 1_000_000

  datatype Brokerage = NoBrokerage | FlatPerOrder(amount: int) | PercentCap(rate: int, cap: int)

  datatype ChargeSchedule = ChargeSchedule(brokerage: Brokerage, sttBuy: int, sttSell: int, exchange: int,
                                           sebi: int, stampDuty: int, gst: int, ipft: int)

  datatype ClosedTrade = ClosedTrade(direction: Direction, averageEntry: int, averageExit: int,
                                     quantity: int, plannedRisk: Option<int>)

  datatype Charges = Charges(brokerage: int, stt: int, exchange: int, sebi: int, stampDuty: int,
                             gst: int, ipft: int, total: int)

  /** The charge components before rounding; gst in units of 10^-24, the others of 10^-16. */
  datatype RawCharges = RawCharges(brokerage: int, stt: int, exchange: int, sebi: int, stampDuty: int, gst: int,
                                   ipft: int)

  datatype PnlResult = PnlResult(gross: int, net: int, rMultiple: Option<int>, charges: Charges)

  function Min(a: int, b: int): int {
    if a <= b then a else b
  }

  function EntryTurnover(trade: ClosedTrade): int {
    trade.averageEntry * trade.quantity
  }

  function ExitTurnover(trade: ClosedTrade): int {
    trade.averageExit * trade.quantity
  }

  function BrokeragePerSide(turnover: int, brokerage: Brokerage): int {
    match brokerage
    case NoBrokerage => 0
    case FlatPerOrder(amount) => amount * TICK_IN_E16
    case PercentCap(rate, cap) => Min(rate * turnover, cap * TICK_IN_E16)
  }

  function ComputeGrossPnl(trade: ClosedTrade): int {
    if trade.direction == LONG then (trade.averageExit - trade.averageEntry) * trade.quantity
    else (trade.averageEntry - trade.averageExit) * trade.quantity
  }

  function ComputeRaw(entry: int, exit: int, cs: ChargeSchedule): RawCharges {
    var brokerage := BrokeragePerSide(entry, cs.brokerage) + BrokeragePerSide(exit, cs.brokerage);
    var exchange, sebi := cs.exchange * (entry + exit), cs.sebi * (entry + exit);
    RawCharges(brokerage, cs.sttBuy * entry + cs.sttSell * exit, exchange, sebi, cs.stampDuty * entry,
               cs.gst * (brokerage + exchange + sebi), cs.ipft * (entry + exit))
  }

  /** Each component is rounded once; the total is summed from the rounded components. */
  function RoundCharges(raw: RawCharges): Charges {
    var brokerage, stt := RoundDiv(raw.brokerage, TICK_IN_E16), RoundDiv(raw.stt, TICK_IN_E16);
    var exchange, sebi := RoundDiv(raw.exchange, TICK_IN_E16), RoundDiv(raw.sebi, TICK_IN_E16);
    var stamp, gst, ipft := RoundDiv(raw.stampDuty, TICK_IN_E16), RoundDiv(raw.gst, TICK_IN_E24),
        RoundDiv(raw.ipft, TICK_IN_E16);
    Charges(brokerage, stt, exchange, sebi, stamp, gst, ipft, brokerage + stt + exchange + sebi + stamp + gst + ipft)
  }

  function ComputeCharges(trade: ClosedTrade, cs: ChargeSchedule): Charges {
    RoundCharges(ComputeRaw(EntryTurnover(trade), ExitTurnover(trade), cs))
  }

  function ComputeRMultiple(net: int, plannedRisk: Option<int>): Option<int> {
    match plannedRisk
    case None => None
    case Some(risk) => if risk == 0 then None
                       else if risk > 0 then Some(RoundDiv(net * R_UNITS, risk))
                       else Some(RoundDiv(-net * R_UNITS, -risk))
  }

  function ComputePnl(trade: ClosedTrade, cs: ChargeSchedule): PnlResult {
    var gross := RoundDiv(ComputeGrossPnl(trade), TICK_IN_E8);
    var charges := ComputeCharges(trade, cs);
    var net := gross - charges.total;
    PnlResult(gross, net, ComputeRMultiple(net, trade.plannedRisk), charges)
  }

  // ---------- charges ----------

  ghost predicate NonNegativeTerms(cs: ChargeSchedule) {
    && cs.sttBuy >= 0 && cs.sttSell >= 0 && cs.exchange >= 0 && cs.sebi >= 0
    && cs.stampDuty >= 0 && cs.gst >= 0 && cs.ipft >= 0
    && NonNegativeBrokerage(cs.brokerage)
  }

  ghost predicate NonNegativeBrokerage(brokerage: Brokerage) {
    match brokerage
    case NoBrokerage => true
    case FlatPerOrder(amount) => amount >= 0
    case PercentCap(rate, cap) => rate >= 0 && cap >= 0
  }

  ghost predicate RawAtMost(a: RawCharges, b: RawCharges) {
    && 0 <= a.brokerage <= b.brokerage && 0 <= a.stt <= b.stt && 0 <= a.exchange <= b.exchange
    && 0 <= a.sebi <= b.sebi && 0 <= a.stampDuty <= b.stampDuty && 0 <= a.gst <= b.gst && 0 <= a.ipft <= b.ipft
  }

  lemma BrokerageMonotone(t: int, t': int, brokerage: Brokerage)
    requires 0 <= t <= t'
    requires NonNegativeBrokerage(brokerage)
    ensures 0 <= BrokeragePerSide(t, brokerage) <= BrokeragePerSide(t', brokerage)
  {
    if brokerage.PercentCap? {
      MulMonotone(brokerage.rate, brokerage.rate, t, t');
    }
  }

  lemma RawMonotone(entry: int, exit: int, entry': int, exit': int, cs: ChargeSchedule)
    requires NonNegativeTerms(cs) && 0 <= entry <= entry' && 0 <= exit <= exit'
    ensures RawAtMost(ComputeRaw(entry, exit, cs), ComputeRaw(entry', exit', cs))
  {
    var a, b := ComputeRaw(entry, exit, cs), ComputeRaw(entry', exit', cs);
    BrokerageMonotone(entry, entry', cs.brokerage);
    BrokerageMonotone(exit, exit', cs.brokerage);
    MulMonotone(cs.sttBuy, cs.sttBuy, entry, entry');
    MulMonotone(cs.sttSell, cs.sttSell, exit, exit');
    MulMonotone(cs.exchange, cs.exchange, entry + exit, entry' + exit');
    MulMonotone(cs.sebi, cs.sebi, entry + exit, entry' + exit');
    MulMonotone(cs.stampDuty, cs.stampDuty, entry, entry');
    MulMonotone(cs.ipft, cs.ipft, entry + exit, entry' + exit');
    MulMonotone(cs.gst, cs.gst, a.brokerage + a.exchange + a.sebi, b.brokerage + b.exchange + b.sebi);
  }

  lemma RoundNonNegative(n: int, d: int)
    requires d > 0 && n >= 0
    ensures RoundDiv(n, d) >= 0
  {
    RoundDivMonotone(0, n, d);
    RoundDivExact(0, d);
  }

  lemma RoundedMonotone(a: RawCharges, b: RawCharges)
    requires RawAtMost(a, b)
    ensures RoundCharges(a).total <= RoundCharges(b).total
  {
    RoundDivMonotone(a.brokerage, b.brokerage, TICK_IN_E16);
    RoundDivMonotone(a.stt, b.stt, TICK_IN_E16);
    RoundDivMonotone(a.exchange, b.exchange, TICK_IN_E16);
    RoundDivMonotone(a.sebi, b.sebi, TICK_IN_E16);
    RoundDivMonotone(a.stampDuty, b.stampDuty, TICK_IN_E16);
    RoundDivMonotone(a.gst, b.gst, TICK_IN_E24);
    RoundDivMonotone(a.ipft, b.ipft, TICK_IN_E16);
  }

  ghost predicate AllNonNegative(c: Charges) {
    c.brokerage >= 0 && c.stt >= 0 && c.exchange >= 0 && c.sebi >= 0 && c.stampDuty >= 0 && c.gst >= 0 && c.ipft >= 0
  }

  /** With non-negative rates no component is negative. */
  lemma ChargesNonNegative(trade: ClosedTrade, cs: ChargeSchedule)
    requires NonNegativeTerms(cs) && trade.averageEntry >= 0 && trade.averageExit >= 0 && trade.quantity >= 0
    ensures AllNonNegative(ComputeCharges(trade, cs))
    ensures ComputePnl(trade, cs).net <= ComputePnl(trade, cs).gross
  {
    var entry, exit := EntryTurnover(trade), ExitTurnover(trade);
    MulMonotone(trade.averageEntry, trade.averageEntry, trade.quantity, trade.quantity);
    MulMonotone(trade.averageExit, trade.averageExit, trade.quantity, trade.quantity);
    RawMonotone(entry, exit, entry, exit, cs);
    var raw := ComputeRaw(entry, exit, cs);
    RoundNonNegative(raw.brokerage, TICK_IN_E16);
    RoundNonNegative(raw.stt, TICK_IN_E16);
    RoundNonNegative(raw.exchange, TICK_IN_E16);
    RoundNonNegative(raw.sebi, TICK_IN_E16);
    RoundNonNegative(raw.stampDuty, TICK_IN_E16);
    RoundNonNegative(raw.gst, TICK_IN_E24);
    RoundNonNegative(raw.ipft, TICK_IN_E16);
  }

  /** A larger trade is never charged less: the total is monotone in quantity and in both average
      prices, through the percentage cap and through rounding. */
  lemma TotalChargesMonotone(a: ClosedTrade, b: ClosedTrade, cs: ChargeSchedule)
    requires NonNegativeTerms(cs)
    requires 0 <= a.averageEntry <= b.averageEntry && 0 <= a.averageExit <= b.averageExit
             && 0 <= a.quantity <= b.quantity
    ensures ComputeCharges(a, cs).total <= ComputeCharges(b, cs).total
  {
    MulMonotone(a.averageEntry, b.averageEntry, a.quantity, b.quantity);
    MulMonotone(a.averageExit, b.averageExit, a.quantity, b.quantity);
    RawMonotone(EntryTurnover(a), ExitTurnover(a), EntryTurnover(b), ExitTurnover(b), cs);
    RoundedMonotone(ComputeRaw(EntryTurnover(a), ExitTurnover(a), cs),
                    ComputeRaw(EntryTurnover(b), ExitTurnover(b), cs));
  }

  // ---------- what is charged, without the calculator ----------

  /** What a schedule asks for one order of this turnover: nothing, a flat amount, or the lesser of a
      percentage and a cap.  In units of 10^-16. */
  ghost predicate IsLevy(brokerage: Brokerage, turnover: int, levy: int) {
    match brokerage
    case NoBrokerage => levy == 0
    case FlatPerOrder(amount) => levy == amount * 1_000_000_000_000
    case PercentCap(rate, cap) =>
      && levy <= rate * turnover && levy <= cap * 1_000_000_000_000
      && (levy == rate * turnover || levy == cap * 1_000_000_000_000)
  }

  lemma LevyIsUnique(brokerage: Brokerage, turnover: int, levy: int)
    ensures IsLevy(brokerage, turnover, levy) <==> levy == BrokeragePerSide(turnover, brokerage)
  {
  }

  /** stored is the tick nearest to an amount given in units of 10^-16, and the one farther from zero on a tie. */
  ghost predicate NearTick(stored: int, amount: int) {
    Nearest(stored, amount, 1_000_000_000_000)
  }

  ghost predicate Nearest(stored: int, amount: int, tick: int) {
    && 2 * Abs(stored * tick - amount) <= tick
    && (2 * Abs(stored * tick - amount) == tick ==> Abs(stored * tick) > Abs(amount))
  }

  /** Every component is the nearest tick to its own rate on its own base: both turnovers for exchange, SEBI and
      IPFT, the entry leg for stamp duty, each leg at its own rate for STT, and brokerage, exchange and SEBI
      before rounding for GST.  The total is their sum. */
  lemma ChargesAreLevied(trade: ClosedTrade, cs: ChargeSchedule, entryLevy: int, exitLevy: int)
    requires IsLevy(cs.brokerage, trade.averageEntry * trade.quantity, entryLevy)
    requires IsLevy(cs.brokerage, trade.averageExit * trade.quantity, exitLevy)
    ensures var c := ComputeCharges(trade, cs);
            var entry, exit := trade.averageEntry * trade.quantity, trade.averageExit * trade.quantity;
            && NearTick(c.brokerage, entryLevy + exitLevy) && NearTick(c.stt, cs.sttBuy * entry + cs.sttSell * exit)
            && NearTick(c.exchange, cs.exchange * (entry + exit)) && NearTick(c.sebi, cs.sebi * (entry + exit))
            && NearTick(c.stampDuty, cs.stampDuty * entry) && NearTick(c.ipft, cs.ipft * (entry + exit))
            && Nearest(c.gst,
                       cs.gst * (entryLevy + exitLevy + cs.exchange * (entry + exit) + cs.sebi * (entry + exit)),
                       100_000_000_000_000_000_000)
            && c.total == c.brokerage + c.stt + c.exchange + c.sebi + c.stampDuty + c.gst + c.ipft
  {
    hide RoundDiv;
    LevyIsUnique(cs.brokerage, EntryTurnover(trade), entryLevy);
    LevyIsUnique(cs.brokerage, ExitTurnover(trade), exitLevy);
  }

  /** The stored brokerage of a trade, case by case of its schedule; a capped order pays the cap. */
  lemma BrokerageCharged(trade: ClosedTrade, cs: ChargeSchedule)
    ensures var stored := ComputeCharges(trade, cs).brokerage;
            var entry, exit := trade.averageEntry * trade.quantity, trade.averageExit * trade.quantity;
            match cs.brokerage
            case NoBrokerage => stored == 0
            case FlatPerOrder(amount) => stored == 2 * amount
            case PercentCap(rate, cap) =>
              var capped := cap * 1_000_000_000_000;
              && stored <= 2 * cap
              && (rate * entry >= capped && rate * exit >= capped ==> stored == 2 * cap)
              && (rate * entry >= capped >= rate * exit ==> NearTick(stored, capped + rate * exit))
              && (rate * entry <= capped <= rate * exit ==> NearTick(stored, rate * entry + capped))
              && (rate * entry <= capped && rate * exit <= capped ==> NearTick(stored, rate * (entry + exit)))
  {
    hide RoundDiv;
    var entry, exit := EntryTurnover(trade), ExitTurnover(trade);
    var levied := BrokeragePerSide(entry, cs.brokerage) + BrokeragePerSide(exit, cs.brokerage);
    assert ComputeCharges(trade, cs).brokerage == RoundDiv(levied, 1_000_000_000_000);
    match cs.brokerage
    case NoBrokerage => RoundDivExact(0, 1_000_000_000_000);
    case FlatPerOrder(amount) => RoundDivExact(2 * amount, 1_000_000_000_000);
    case PercentCap(rate, cap) =>
      RoundDivExact(2 * cap, 1_000_000_000_000);
      RoundDivMonotone(levied, 2 * cap * 1_000_000_000_000, 1_000_000_000_000);
      assert rate * (entry + exit) == rate * entry + rate * exit;
  }

  /** Stored gross P&L is the nearest tick to what was sold for less what was bought for. */
  lemma GrossIsSoldLessBought(trade: ClosedTrade, cs: ChargeSchedule)
    ensures var entry, exit := trade.averageEntry * trade.quantity, trade.averageExit * trade.quantity;
            Nearest(ComputePnl(trade, cs).gross, if trade.direction == LONG then exit - entry else entry - exit, 10_000)
  {
    hide RoundDiv, ComputeCharges, ComputeRMultiple;
    assert (trade.averageExit - trade.averageEntry) * trade.quantity ==
           trade.averageExit * trade.quantity - trade.averageEntry * trade.quantity;
    assert (trade.averageEntry - trade.averageExit) * trade.quantity ==
           trade.averageEntry * trade.quantity - trade.averageExit * trade.quantity;
  }

  /** The stored total, and so the gap between gross and net P&L, is within seven half ticks of the
      unrounded charges. */
  lemma TotalChargesError(trade: ClosedTrade, cs: ChargeSchedule, entryLevy: int, exitLevy: int)
    requires IsLevy(cs.brokerage, trade.averageEntry * trade.quantity, entryLevy)
    requires IsLevy(cs.brokerage, trade.averageExit * trade.quantity, exitLevy)
    ensures ComputePnl(trade, cs).gross - ComputePnl(trade, cs).net == ComputeCharges(trade, cs).total
    ensures var entry, exit := trade.averageEntry * trade.quantity, trade.averageExit * trade.quantity;
            var levied := entryLevy + exitLevy;
            var onBoth := (cs.exchange + cs.sebi) * (entry + exit);
            2 * Abs(ComputeCharges(trade, cs).total * 100_000_000_000_000_000_000 -
                    ((levied + onBoth + cs.ipft * (entry + exit) + cs.sttBuy * entry + cs.sttSell * exit +
                      cs.stampDuty * entry) * 100_000_000 + cs.gst * (levied + onBoth)))
              <= 7 * 100_000_000_000_000_000_000
  {
    hide RoundDiv, ComputeCharges, IsLevy, NearTick, Nearest, ComputeGrossPnl, ComputeRMultiple;
    ChargesAreLevied(trade, cs, entryLevy, exitLevy);
    var c, entry, exit := ComputeCharges(trade, cs), trade.averageEntry * trade.quantity,
        trade.averageExit * trade.quantity;
    var exchange, sebi := cs.exchange * (entry + exit), cs.sebi * (entry + exit);
    assert (cs.exchange + cs.sebi) * (entry + exit) == exchange + sebi;
    SevenErrors(c, RawCharges(entryLevy + exitLevy, cs.sttBuy * entry + cs.sttSell * exit, exchange, sebi,
                              cs.stampDuty * entry, cs.gst * (entryLevy + exitLevy + exchange + sebi),
                              cs.ipft * (entry + exit)));
  }

  lemma SevenErrors(c: Charges, raw: RawCharges)
    requires NearTick(c.brokerage, raw.brokerage) && NearTick(c.stt, raw.stt) && NearTick(c.exchange, raw.exchange)
    requires NearTick(c.sebi, raw.sebi) && NearTick(c.stampDuty, raw.stampDuty) && NearTick(c.ipft, raw.ipft)
    requires Nearest(c.gst, raw.gst, 100_000_000_000_000_000_000)
    requires c.total == c.brokerage + c.stt + c.exchange + c.sebi + c.stampDuty + c.gst + c.ipft
    ensures 2 * Abs(c.total * 100_000_000_000_000_000_000 -
                    ((raw.brokerage + raw.stt + raw.exchange + raw.sebi + raw.stampDuty + raw.ipft) * 100_000_000 +
                     raw.gst)) <= 7 * 100_000_000_000_000_000_000
  {
    var errors := [ErrorOf(c.brokerage, raw.brokerage), ErrorOf(c.stt, raw.stt), ErrorOf(c.exchange, raw.exchange),
                   ErrorOf(c.sebi, raw.sebi), ErrorOf(c.stampDuty, raw.stampDuty), ErrorOf(c.ipft, raw.ipft)];
    SixErrors(errors[0], errors[1], errors[2], errors[3], errors[4], errors[5],
              c.gst * 100_000_000_000_000_000_000 - raw.gst);
  }

  /** The rounding error of one component, in units of 10^-16. */
  function ErrorOf(stored: int, amount: int): (e: int)
    requires NearTick(stored, amount)
    ensures -1_000_000_000_000 <= 2 * e <= 1_000_000_000_000
  {
    stored * 1_000_000_000_000 - amount
  }

  lemma SixErrors(a: int, b: int, c: int, d: int, e: int, f: int, g: int)
    requires -1_000_000_000_000 <= 2 * a <= 1_000_000_000_000 && -1_000_000_000_000 <= 2 * b <= 1_000_000_000_000
    requires -1_000_000_000_000 <= 2 * c <= 1_000_000_000_000 && -1_000_000_000_000 <= 2 * d <= 1_000_000_000_000
    requires -1_000_000_000_000 <= 2 * e <= 1_000_000_000_000 && -1_000_000_000_000 <= 2 * f <= 1_000_000_000_000
    requires -100_000_000_000_000_000_000 <= 2 * g <= 100_000_000_000_000_000_000
    ensures 2 * Abs((a + b + c + d + e + f) * 100_000_000 + g) <= 7 * 100_000_000_000_000_000_000
  {
  }

  /** The schedule charges stamp duty on the buy side; the code charges it on the entry leg.  The two
      bases agree exactly for LONG trades and for trades whose two averages are equal. */
  lemma StampDutyOnBuySideIff(trade: ClosedTrade, cs: ChargeSchedule)
    requires cs.stampDuty > 0 && trade.quantity > 0
    ensures var buyTurnover := if trade.direction == LONG then EntryTurnover(trade) else ExitTurnover(trade);
            ComputeRaw(EntryTurnover(trade), ExitTurnover(trade), cs).stampDuty == cs.stampDuty * buyTurnover
            <==> trade.direction == LONG || trade.averageEntry == trade.averageExit
  {
    var d := trade.averageEntry - trade.averageExit;
    assert cs.stampDuty * EntryTurnover(trade) - cs.stampDuty * ExitTurnover(trade) ==
           cs.stampDuty * (d * trade.quantity) by {
      assert EntryTurnover(trade) - ExitTurnover(trade) == d * trade.quantity;
    }
    if d != 0 {
      ProductNonZero(d, trade.quantity);
      ProductNonZero(cs.stampDuty, d * trade.quantity);
    }
  }

  /** STT has a buy rate and a sell rate; the code applies them to the entry and the exit leg.  That is
      the STT on what was bought and sold exactly for LONG trades, equal averages or equal rates. */
  lemma SttOnTradedSidesIff(trade: ClosedTrade, cs: ChargeSchedule)
    requires trade.quantity > 0
    ensures var (bought, sold) := if trade.direction == LONG then (EntryTurnover(trade), ExitTurnover(trade))
                                  else (ExitTurnover(trade), EntryTurnover(trade));
            ComputeRaw(EntryTurnover(trade), ExitTurnover(trade), cs).stt == cs.sttBuy * bought + cs.sttSell * sold
            <==> trade.direction == LONG || trade.averageEntry == trade.averageExit || cs.sttBuy == cs.sttSell
  {
    var d, e, x := trade.averageEntry - trade.averageExit, EntryTurnover(trade), ExitTurnover(trade);
    var gap := (cs.sttBuy - cs.sttSell) * (d * trade.quantity);
    assert gap == (cs.sttBuy * e + cs.sttSell * x) - (cs.sttBuy * x + cs.sttSell * e) by {
      assert e - x == d * trade.quantity;
      assert gap == cs.sttBuy * (e - x) - cs.sttSell * (e - x);
    }
    if d != 0 && cs.sttBuy != cs.sttSell {
      ProductNonZero(d, trade.quantity);
      ProductNonZero(cs.sttBuy - cs.sttSell, d * trade.quantity);
    }
  }

  /** A short sold at 100 ticks and bought back at 90: stamp duty falls on the 100 it sold for, and the
      sell rate of STT on the 90 it bought for. */
  lemma ShortTradeExample()
    ensures var trade := ClosedTrade(SHORT, 100, 90, 1, None);
            var cs := ChargeSchedule(NoBrokerage, 0, 2, 0, 0, 1, 0, 0);
            var raw := ComputeRaw(EntryTurnover(trade), ExitTurnover(trade), cs);
            && raw.stampDuty != cs.stampDuty * ExitTurnover(trade)
            && raw.stt != cs.sttBuy * ExitTurnover(trade) + cs.sttSell * EntryTurnover(trade)
  {
    hide RoundDiv, BrokeragePerSide;
    var trade := ClosedTrade(SHORT, 100, 90, 1, None);
    assert EntryTurnover(trade) == 100 && ExitTurnover(trade) == 90;
  }

  /** Reversing a trade's legs changes STT and stamp duty only: every other component is levied on
      both legs alike. */
  lemma ReversedLegs(entry: int, exit: int, cs: ChargeSchedule)
    ensures var raw, reversed := ComputeRaw(entry, exit, cs), ComputeRaw(exit, entry, cs);
            && reversed == raw.(stt := reversed.stt, stampDuty := reversed.stampDuty)
            && raw.stt + reversed.stt == (cs.sttBuy + cs.sttSell) * (entry + exit)
            && raw.stampDuty + reversed.stampDuty == cs.stampDuty * (entry + exit)
  {
    assert (cs.sttBuy + cs.sttSell) * (entry + exit) ==
           cs.sttBuy * entry + cs.sttSell * exit + cs.sttBuy * exit + cs.sttSell * entry;
  }

  lemma ProductNonZero(a: int, b: int)
    requires a != 0 && b != 0
    ensures a * b != 0
  {
  }

  // ---------- R-multiple ----------

  /** Absent exactly without a usable risk; otherwise the nearest stored multiple of the risk, and
      never of the opposite sign to the net P&L when the risk is positive. */
  lemma RMultipleSign(net: int, plannedRisk: Option<int>)
    ensures ComputeRMultiple(net, plannedRisk).None? <==> plannedRisk.None? || plannedRisk.value == 0
    ensures plannedRisk.Some? && plannedRisk.value != 0 ==>
              var r, risk := ComputeRMultiple(net, plannedRisk).value, plannedRisk.value;
              2 * Abs(r * risk - net * 1_000_000) <= Abs(risk)
    ensures plannedRisk.Some? && plannedRisk.value > 0 ==>
              var r := ComputeRMultiple(net, plannedRisk).value;
              (net >= 0 ==> r >= 0) && (net <= 0 ==> r <= 0)
  {
    hide RoundDiv;
    if plannedRisk.Some? && plannedRisk.value < 0 {
      var r := RoundDiv(-net * R_UNITS, -plannedRisk.value);
      assert r * -plannedRisk.value == -(r * plannedRisk.value);
    }
    if plannedRisk.Some? && plannedRisk.value > 0 {
      RoundDivExact(0, plannedRisk.value);
      if net >= 0 {
        RoundDivMonotone(0, net * R_UNITS, plannedRisk.value);
      }
      if net <= 0 {
        RoundDivMonotone(net * R_UNITS, 0, plannedRisk.value);
      }
    }
  }
}
