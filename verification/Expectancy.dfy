/** Expectancy in R, its rolling form, and the Kelly fraction, against plain means. */
module Expectancy {
  import opened Sequences
  import opened TradeTypes

  datatype ExpectancyResult = ExpectancyResult(expectancyR: Option<real>, avgWin: Option<real>, avgLoss: Option<real>,
                                               coverage: nat, insufficientSample: bool)

  /** One closed trade as the analytics queries see it. */
  datatype Point = Point(netPnl: real, r: Option<real>)

  datatype RollingPoint = RollingPoint(tradeIndex: nat, expR: Option<real>, expInr: real)

  datatype KellyInputs = KellyInputs(tradesWithR: nat, winCount: nat, lossCount: nat, avgWin: Option<real>,
                                     avgLoss: Option<real>, avgPositive: Option<real>)

  datatype KellyResult = KellyResult(kelly: Option<real>, halfKelly: Option<real>, insufficientSample: bool)

  const MIN_SAMPLE := 30

  function Abs(x: real): real {
    if x < 0.0 then -x else x
  }

  function Mean(s: seq<real>): real
    requires s != []
  {
    Sum(s) / (|s| as real)
  }

  /** avg_r_win, avg_r_loss and the two rates combined into expectancy_r. */
  function Combine(winCount: nat, lossCount: nat, avgWin: Option<real>, absAvgLoss: Option<real>): real
    requires winCount + lossCount > 0
  {
    var n := (winCount + lossCount) as real;
    match (avgWin, absAvgLoss)
    case (Some(w), Some(l)) => (winCount as real) / n * w - (lossCount as real) / n * l
    case (Some(w), None) => w
    case (None, Some(l)) => -l
    case (None, None) => 0.0
  }

  function ComputeExpectancy(wins: seq<real>, losses: seq<real>): ExpectancyResult {
    var coverage := |wins| + |losses|;
    if coverage == 0 then ExpectancyResult(None, None, None, 0, true)
    else
      var avgWin := if wins == [] then None else Some(Mean(wins));
      var avgLoss := if losses == [] then None else Some(Abs(Mean(losses)));
      ExpectancyResult(Some(Combine(|wins|, |losses|, avgWin, avgLoss)), avgWin, avgLoss, coverage,
                       coverage < MIN_SAMPLE)
  }

  lemma ShareOfMean(count: real, n: real, total: real)
    requires count > 0.0 && n > 0.0
    ensures count / n * (total / count) == total / n
  {
    var mean := total / count;
    assert mean * count == total;
    assert (count / n * mean) * n == count * mean;
  }

  lemma DivideSum(a: real, b: real, n: real)
    requires n > 0.0
    ensures a / n + b / n == (a + b) / n && a / n - b / n == (a - b) / n
  {
  }

  lemma EqualQuotients(a: real, b: real, n: real)
    requires n > 0.0
    ensures a / n == b / n <==> a == b
  {
    assert a / n * n == a && b / n * n == b;
  }

  lemma AbsQuotient(total: real, n: real)
    requires n > 0.0
    ensures Abs(total / n) == Abs(total) / n
  {
    assert (total / n) * n == total;
    assert (-total) / n == -(total / n);
  }

  function MeanOrNone(total: real, count: nat): Option<real> {
    if count == 0 then None else Some(total / (count as real))
  }

  /** The combination of two averages is one quotient over the joint count. */
  lemma CombineIsQuotient(w: nat, l: nat, win: real, loss: real)
    requires w + l > 0 && (w == 0 ==> win == 0.0) && (l == 0 ==> loss == 0.0)
    ensures Combine(w, l, MeanOrNone(win, w), MeanOrNone(loss, l)) == (win - loss) / ((w + l) as real)
  {
    var n := (w + l) as real;
    if w > 0 && l > 0 {
      ShareOfMean(w as real, n, win);
      ShareOfMean(l as real, n, loss);
      DivideSum(win, loss, n);
    } else if w == 0 {
      DivideSum(0.0, loss, n);
    }
  }

  lemma ExpectancyIsQuotient(wins: seq<real>, losses: seq<real>)
    requires |wins| + |losses| > 0
    ensures ComputeExpectancy(wins, losses).expectancyR ==
              Some((Sum(wins) - Abs(Sum(losses))) / ((|wins| + |losses|) as real))
  {
    CombineIsQuotient(|wins|, |losses|, Sum(wins), Abs(Sum(losses)));
    if losses != [] {
      AbsQuotient(Sum(losses), |losses| as real);
    }
  }

  /** The two reported averages, taken back over their counts, give the sums they came from. */
  lemma AveragesShareTheSums(wins: seq<real>, losses: seq<real>)
    ensures var e := ComputeExpectancy(wins, losses);
            && e.coverage == |wins| + |losses| && (e.insufficientSample <==> e.coverage < 30)
            && (e.avgWin.Some? <==> wins != []) && (e.avgLoss.Some? <==> losses != [])
            && (wins != [] ==> e.avgWin.value * (|wins| as real) == Sum(wins))
            && (losses != [] ==> e.avgLoss.value * (|losses| as real) == Abs(Sum(losses)))
  {
    hide Sum, Combine;
    if losses != [] {
      AbsQuotient(Sum(losses), |losses| as real);
    }
  }

  /** The win-rate/loss-rate formula is the plain mean of all R values exactly when the loss R values
      do not sum to more than zero, as they do not when each has the sign of its trade. */
  lemma ExpectancyIsMeanIff(wins: seq<real>, losses: seq<real>)
    requires |wins| + |losses| > 0
    ensures ComputeExpectancy(wins, losses).expectancyR == Some(Mean(wins + losses)) <==> Sum(losses) <= 0.0
  {
    hide Sum, ComputeExpectancy;
    ExpectancyIsQuotient(wins, losses);
    SumConcat(wins, losses);
    EqualQuotients(Sum(wins) - Abs(Sum(losses)), Sum(wins) + Sum(losses), (|wins| + |losses|) as real);
  }

  /** Sharpe and Sortino take their mean over the same concatenated list. */
  function MeanR(all: seq<real>): Option<real> {
    if |all| < MIN_SAMPLE then None else Some(Mean(all))
  }

  lemma SharpeMeanIsExpectancy(wins: seq<real>, losses: seq<real>)
    requires Sum(losses) <= 0.0
    ensures MeanR(wins + losses).Some? ==> ComputeExpectancy(wins, losses).expectancyR == MeanR(wins + losses)
    ensures MeanR(wins + losses).None? <==> ComputeExpectancy(wins, losses).insufficientSample
  {
    if |wins| + |losses| > 0 {
      ExpectancyIsMeanIff(wins, losses);
    }
  }

  // ---------- splitting trades by sign ----------

  function WinRs(points: seq<Point>): seq<real> {
    if points == [] then []
    else
      var p, before := Last(points), WinRs(Front(points));
      if p.r.Some? && p.netPnl > 0.0 then before + [p.r.value] else before
  }

  function LossRs(points: seq<Point>): seq<real> {
    if points == [] then []
    else
      var p, before := Last(points), LossRs(Front(points));
      if p.r.Some? && p.netPnl < 0.0 then before + [p.r.value] else before
  }

  /** The R values of decided trades, in order. */
  function DecidedRs(points: seq<Point>): seq<real> {
    if points == [] then []
    else
      var p, before := Last(points), DecidedRs(Front(points));
      if p.r.Some? && p.netPnl != 0.0 then before + [p.r.value] else before
  }

  /** Every R-multiple has the sign of its trade's net P&L, or is zero. */
  ghost predicate Signed(points: seq<Point>) {
    forall i :: 0 <= i < |points| && points[i].r.Some? ==>
      (points[i].netPnl >= 0.0 ==> points[i].r.value >= 0.0) && (points[i].netPnl <= 0.0 ==> points[i].r.value <= 0.0)
  }

  lemma SumOne(x: real)
    ensures Sum([x]) == x && Sum([]) == 0.0
  {
    assert [x][..0] == [];
  }

  lemma {:induction false} SplitSums(points: seq<Point>)
    ensures Sum(WinRs(points)) + Sum(LossRs(points)) == Sum(DecidedRs(points))
    ensures |WinRs(points)| + |LossRs(points)| == |DecidedRs(points)|
  {
    if points != [] {
      var front, p := Front(points), Last(points);
      SplitSums(front);
      if p.r.Some? {
        SumOne(p.r.value);
        SumConcat(WinRs(front), [p.r.value]);
        SumConcat(LossRs(front), [p.r.value]);
        SumConcat(DecidedRs(front), [p.r.value]);
      }
    }
  }

  lemma {:induction false} SignedSums(points: seq<Point>)
    requires Signed(points)
    ensures Sum(LossRs(points)) <= 0.0 <= Sum(WinRs(points))
  {
    if points != [] {
      var front, p := Front(points), Last(points);
      SignedSums(front);
      if p.r.Some? {
        SumOne(p.r.value);
        SumConcat(WinRs(front), [p.r.value]);
        SumConcat(LossRs(front), [p.r.value]);
      }
    }
  }

  // ---------- rolling expectancy ----------

  function RollingExpR(window: seq<Point>): Option<real> {
    if WinRs(window) == [] && LossRs(window) == [] then None
    else ComputeExpectancy(WinRs(window), LossRs(window)).expectancyR
  }

  function PnlsOf(points: seq<Point>): (l: seq<real>)
    ensures |l| == |points| && forall i :: 0 <= i < |points| ==> l[i] == points[i].netPnl
  {
    seq(|points|, i requires 0 <= i < |points| => points[i].netPnl)
  }

  /** The entry for the window that ends with trade number i (counting from 1). */
  ghost predicate WindowEntry(points: seq<Point>, window: nat, i: nat, e: RollingPoint) {
    && 0 < window <= i <= |points|
    && e.tradeIndex == i && e.expInr == Mean(PnlsOf(points[i - window..i]))
    && e.expR == RollingExpR(points[i - window..i])
  }

  method ComputeRollingExpectancy(points: seq<Point>, window: nat)
    returns (data: seq<RollingPoint>, insufficientSample: bool)
    requires window > 0
    ensures insufficientSample <==> |points| < window
    ensures |data| == if insufficientSample then 0 else |points| - window + 1
    ensures forall k :: 0 <= k < |data| ==> WindowEntry(points, window, window + k, data[k])
  {
    hide RollingExpR, Mean, PnlsOf;
    if |points| < window {
      return [], true;
    }
    data := [];
    var i := window;
    while i < |points| + 1
      invariant window <= i <= |points| + 1
      invariant |data| == i - window
      invariant forall k :: 0 <= k < |data| ==> WindowEntry(points, window, window + k, data[k])
    {
      var slice := points[i - window..i];
      data := data + [RollingPoint(i, RollingExpR(slice), Mean(PnlsOf(slice)))];
      i := i + 1;
    }
    insufficientSample := false;
  }

  /** With signed R-multiples every window's figure is the mean R of its decided trades, absent
      exactly when there are none. */
  lemma RollingIsMean(window: seq<Point>)
    requires Signed(window)
    ensures RollingExpR(window) == if DecidedRs(window) == [] then None else Some(Mean(DecidedRs(window)))
  {
    SplitSums(window);
    SignedSums(window);
    if DecidedRs(window) != [] {
      ExpectancyIsMeanIff(WinRs(window), LossRs(window));
      SumConcat(WinRs(window), LossRs(window));
    }
  }

  // ---------- Kelly ----------

  function PositiveRs(points: seq<Point>): seq<real> {
    if points == [] then []
    else
      var p, before := Last(points), PositiveRs(Front(points));
      if p.r.Some? && p.r.value > 0.0 then before + [p.r.value] else before
  }

  function RCount(points: seq<Point>): nat {
    if points == [] then 0 else RCount(Front(points)) + if Last(points).r.Some? then 1 else 0
  }

  /** The sample is the trades that have an R-multiple. */
  lemma {:induction false} RCountIsSample(points: seq<Point>)
    ensures RCount(points) == |set i: nat | i < |points| && points[i].r.Some?|
  {
    var sample := set i: nat | i < |points| && points[i].r.Some?;
    if points != [] {
      var before := set i: nat | i < |Front(points)| && Front(points)[i].r.Some?;
      RCountIsSample(Front(points));
      assert sample == before + if Last(points).r.Some? then {|points| - 1} else {};
    } else {
      assert sample == {};
    }
  }

  function SqlAvg(s: seq<real>): Option<real> {
    if s == [] then None else Some(Mean(s))
  }

  /** The aggregate query behind the Kelly fraction. */
  function GetKellyInputs(points: seq<Point>): KellyInputs {
    KellyInputs(RCount(points), |WinRs(points)|, |LossRs(points)|, SqlAvg(WinRs(points)), SqlAvg(LossRs(points)),
                SqlAvg(PositiveRs(points)))
  }

  function GetKellyFraction(inputs: KellyInputs): KellyResult {
    var none := KellyResult(None, None, true);
    if inputs.tradesWithR < MIN_SAMPLE then none
    else if inputs.avgPositive.None? || inputs.avgPositive.value <= 0.0 then none
    else if inputs.winCount + inputs.lossCount == 0 then none
    else
      var absLoss := if inputs.avgLoss.Some? then Some(Abs(inputs.avgLoss.value)) else None;
      var kelly := Combine(inputs.winCount, inputs.lossCount, inputs.avgWin, absLoss) / inputs.avgPositive.value;
      KellyResult(Some(kelly), Some(kelly / 2.0), false)
  }

  function AboveZero(s: seq<real>): seq<real> {
    if s == [] then [] else AboveZero(Front(s)) + if Last(s) > 0.0 then [Last(s)] else []
  }

  /** The positive R values are those of the wins, in order, breakeven R left out. */
  lemma {:induction false} PositiveAreWins(points: seq<Point>)
    requires Signed(points)
    ensures PositiveRs(points) == AboveZero(WinRs(points))
  {
    if points != [] {
      var front, p := Front(points), Last(points);
      PositiveAreWins(front);
      if p.r.Some? {
        Snoc(WinRs(front), p.r.value);
      }
    }
  }

  lemma {:induction false} PositiveSums(points: seq<Point>)
    requires Signed(points)
    ensures Sum(PositiveRs(points)) == Sum(WinRs(points)) && |PositiveRs(points)| <= |WinRs(points)|
    ensures PositiveRs(points) != [] ==> Sum(PositiveRs(points)) > 0.0
    ensures Sum(PositiveRs(points)) >= 0.0
  {
    if points != [] {
      var front, p := Front(points), Last(points);
      PositiveSums(front);
      if p.r.Some? {
        SumOne(p.r.value);
        SumConcat(WinRs(front), [p.r.value]);
        SumConcat(PositiveRs(front), [p.r.value]);
      }
    }
  }

  lemma KellyBound(wins: real, losses: real, n: real, positives: real)
    requires wins > 0.0 && losses >= 0.0 && 0.0 < positives <= n
    ensures (wins - losses) / n / (wins / positives) <= 1.0
  {
    var top, bottom := (wins - losses) / n, wins / positives;
    assert top * n == wins - losses && bottom * positives == wins;
    assert bottom > 0.0;
    assert bottom * n >= bottom * positives;
    LessByFactor(top, bottom, n);
    QuotientAtMostOne(top, bottom);
  }

  lemma LessByFactor(a: real, b: real, n: real)
    requires n > 0.0 && a * n <= b * n
    ensures a <= b
  {
  }

  lemma QuotientAtMostOne(a: real, b: real)
    requires b > 0.0 && a <= b
    ensures a / b <= 1.0
  {
  }

  lemma KellyByCount(points: seq<Point>)
    requires Signed(points)
    ensures var k := GetKellyFraction(GetKellyInputs(points));
            && (k.kelly.None? <==> k.insufficientSample)
            && (k.insufficientSample <==> RCount(points) < MIN_SAMPLE || PositiveRs(points) == [])
            && (!k.insufficientSample ==>
                  DecidedRs(points) != [] && PositiveRs(points) != [] && k.kelly.value <= 1.0 &&
                  k.halfKelly.value * 2.0 == k.kelly.value &&
                  k.kelly.value == Mean(DecidedRs(points)) / Mean(PositiveRs(points)))
  {
    hide Sum, WinRs, LossRs, PositiveRs, DecidedRs, Combine, RCount;
    PositiveSums(points);
    SplitSums(points);
    SignedSums(points);
    var wins, losses, positives := WinRs(points), LossRs(points), PositiveRs(points);
    if positives != [] && RCount(points) >= MIN_SAMPLE {
      MeanPositive(positives);
      KellyIsExpectancy(points);
      ExpectancyIsMeanIff(wins, losses);
      ExpectancyIsQuotient(wins, losses);
      SumConcat(wins, losses);
      KellyBound(Sum(wins), Abs(Sum(losses)), (|wins| + |losses|) as real, |positives| as real);
    }
  }

  /** With signed R-multiples a full Kelly fraction never exceeds 1, and it is the mean R of the
      decided trades over the mean of the positive ones. */
  lemma KellyAtMostOne(points: seq<Point>)
    requires Signed(points)
    ensures var k := GetKellyFraction(GetKellyInputs(points));
            var sample := set i: nat | i < |points| && points[i].r.Some?;
            && (k.kelly.None? <==> k.insufficientSample)
            && (k.insufficientSample <==> |sample| < 30 || PositiveRs(points) == [])
            && (!k.insufficientSample ==>
                  DecidedRs(points) != [] && PositiveRs(points) != [] && k.kelly.value <= 1.0 &&
                  k.halfKelly.value * 2.0 == k.kelly.value &&
                  k.kelly.value == Mean(DecidedRs(points)) / Mean(PositiveRs(points)))
  {
    hide Signed, GetKellyFraction, GetKellyInputs, Mean, PositiveRs, DecidedRs, RCount;
    RCountIsSample(points);
    KellyByCount(points);
  }

  lemma KellyIsExpectancy(points: seq<Point>)
    requires |WinRs(points)| + |LossRs(points)| > 0 && RCount(points) >= MIN_SAMPLE
    requires PositiveRs(points) != [] && Mean(PositiveRs(points)) > 0.0
    ensures GetKellyFraction(GetKellyInputs(points)).kelly ==
              Some(ComputeExpectancy(WinRs(points), LossRs(points)).expectancyR.value / Mean(PositiveRs(points)))
  {
  }

  lemma MeanPositive(s: seq<real>)
    requires s != [] && Sum(s) > 0.0
    ensures Mean(s) > 0.0
  {
  }
}
