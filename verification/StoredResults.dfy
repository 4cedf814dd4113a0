/** The calculator and the analytics joined: statistics over stored P&L results. */
module StoredResults {
  import opened TradeTypes
  import opened FixedPoint
  import opened Pnl
  import Expectancy

  /** One closed trade with the schedule it is charged by. */
  datatype Closed = Closed(trade: ClosedTrade, schedule: ChargeSchedule)

  /** A stored result as the analytics queries see it: money in rupees, R as a number. */
  function PointOf(c: Closed): Expectancy.Point {
    var pnl := ComputePnl(c.trade, c.schedule);
    Expectancy.Point(pnl.net as real / 10000.0,
                     match pnl.rMultiple case None => None case Some(r) => Some(r as real / R_UNITS as real))
  }

  function PointsOf(closed: seq<Closed>): (points: seq<Expectancy.Point>)
    ensures |points| == |closed| && forall i :: 0 <= i < |closed| ==> points[i] == PointOf(closed[i])
  {
    seq(|closed|, i requires 0 <= i < |closed| => PointOf(closed[i]))
  }

  lemma ScaledSign(n: int, d: real)
    requires d > 0.0
    ensures (n >= 0 <==> n as real / d >= 0.0) && (n <= 0 <==> n as real / d <= 0.0)
  {
    var q := n as real / d;
    assert q * d == n as real;
  }

  /** Whatever the trades and schedules, stored R-multiples are signed as the statistics need them,
      so long as no planned risk is negative. */
  lemma StoredPointsAreSigned(closed: seq<Closed>)
    requires forall i :: 0 <= i < |closed| && closed[i].trade.plannedRisk.Some? ==>
              closed[i].trade.plannedRisk.value >= 0
    ensures Expectancy.Signed(PointsOf(closed))
  {
    hide ComputePnl;
    forall i | 0 <= i < |closed| && PointsOf(closed)[i].r.Some?
      ensures var p := PointsOf(closed)[i];
              (p.netPnl >= 0.0 ==> p.r.value >= 0.0) && (p.netPnl <= 0.0 ==> p.r.value <= 0.0)
    {
      StoredPointIsSigned(closed[i]);
    }
  }

  lemma StoredPointIsSigned(c: Closed)
    requires c.trade.plannedRisk.Some? ==> c.trade.plannedRisk.value >= 0
    ensures var p := PointOf(c);
            p.r.Some? ==> (p.netPnl >= 0.0 ==> p.r.value >= 0.0) && (p.netPnl <= 0.0 ==> p.r.value <= 0.0)
  {
    hide ComputeCharges, RoundDiv, ComputeGrossPnl;
    var pnl := ComputePnl(c.trade, c.schedule);
    RMultipleSign(pnl.net, c.trade.plannedRisk);
    ScaledSign(pnl.net, 10000.0);
    if pnl.rMultiple.Some? {
      ScaledSign(pnl.rMultiple.value, R_UNITS as real);
    }
  }

  function Distance(x: real, y: real): real {
    if x < y then y - x else x - y
  }

  /** A stored R-multiple times the planned risk is the net P&L, to within half of its sixth decimal. */
  lemma StoredPointIsMultiple(c: Closed)
    requires c.trade.plannedRisk.Some? && c.trade.plannedRisk.value > 0
    ensures var p, risk := PointOf(c), c.trade.plannedRisk.value as real / 10000.0;
            p.r.Some? && 2.0 * Distance(p.r.value * risk, p.netPnl) * 1000000.0 <= risk
  {
    hide ComputePnl, ComputeRMultiple, Distance;
    var pnl, risk := ComputePnl(c.trade, c.schedule), c.trade.plannedRisk.value;
    MultipleOfNet(c);
    RMultipleSign(pnl.net, c.trade.plannedRisk);
    MultipleInRupees(pnl.rMultiple.value, risk, pnl.net);
  }

  lemma MultipleOfNet(c: Closed)
    ensures var pnl := ComputePnl(c.trade, c.schedule);
            pnl.rMultiple == ComputeRMultiple(pnl.net, c.trade.plannedRisk)
  {
    hide ComputeCharges, RoundDiv, ComputeGrossPnl, ComputeRMultiple;
  }

  lemma MultipleInRupees(r: int, risk: int, net: int)
    requires risk > 0 && 2 * Abs(r * risk - net * 1_000_000) <= risk
    ensures 2.0 * Distance(r as real / 1000000.0 * (risk as real / 10000.0), net as real / 10000.0) * 1000000.0
              <= risk as real / 10000.0
  {
    var product := r * risk;
    assert product as real == r as real * risk as real;
    assert r as real / 1000000.0 * (risk as real / 10000.0) == product as real / 10000000000.0;
    var gap := product - net * 1_000_000;
    assert -risk <= 2 * gap <= risk;
    assert product as real / 10000000000.0 - net as real / 10000.0 == gap as real / 10000000000.0;
  }

  /** Over any stored trades the expectancy formula, each rolling window and the Kelly fraction are
      plain means of stored R-multiples, and Kelly never exceeds 1. */
  lemma StatisticsOfStoredTrades(closed: seq<Closed>)
    requires forall i :: 0 <= i < |closed| && closed[i].trade.plannedRisk.Some? ==>
              closed[i].trade.plannedRisk.value >= 0
    ensures var points := PointsOf(closed); var decided := Expectancy.DecidedRs(points);
            && Expectancy.RollingExpR(points) == (if decided == [] then None else Some(Expectancy.Mean(decided)))
            && var kelly := Expectancy.GetKellyFraction(Expectancy.GetKellyInputs(points)).kelly;
               kelly.Some? ==> decided != [] && Expectancy.PositiveRs(points) != [] && kelly.value <= 1.0 &&
                               kelly.value == Expectancy.Mean(decided) / Expectancy.Mean(Expectancy.PositiveRs(points))
  {
    hide PointOf, Expectancy.Mean, Expectancy.RollingExpR, Expectancy.GetKellyFraction, Expectancy.GetKellyInputs,
         Expectancy.Signed;
    StoredPointsAreSigned(closed);
    Expectancy.RollingIsMean(PointsOf(closed));
    Expectancy.KellyAtMostOne(PointsOf(closed));
  }
}
