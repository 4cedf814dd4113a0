/** Drawdown statistics of an equity curve: one pass against prefix maxima. */
module Drawdown {
  import opened Sequences
  import opened TradeTypes

  datatype DrawdownStats = DrawdownStats(maxPct: Option<real>, maxInr: Option<real>, avgPct: Option<real>,
                                         currentPct: Option<real>, currentInr: Option<real>)

  /** The highest point up to and including i. */
  function Peak(curve: seq<real>, i: nat): real
    requires i < |curve|
  {
    if i == 0 then curve[0] else if curve[i] > Peak(curve, i - 1) then curve[i] else Peak(curve, i - 1)
  }

  lemma {:induction false} PeakIsPrefixMaximum(curve: seq<real>, i: nat)
    requires i < |curve|
    ensures forall j :: 0 <= j <= i ==> curve[j] <= Peak(curve, i)
    ensures exists j :: 0 <= j <= i && curve[j] == Peak(curve, i)
  {
    if i > 0 {
      PeakIsPrefixMaximum(curve, i - 1);
      if curve[i] <= Peak(curve, i - 1) {
        var j :| 0 <= j <= i - 1 && curve[j] == Peak(curve, i - 1);
        assert curve[j] == Peak(curve, i);
      }
    } else {
      assert curve[0] == Peak(curve, i);
    }
  }

  /** Below a positive peak. */
  predicate Under(curve: seq<real>, i: nat)
    requires i < |curve|
  {
    Peak(curve, i) > 0.0 && curve[i] < Peak(curve, i)
  }

  function Drop(curve: seq<real>, i: nat): real
    requires i < |curve|
  {
    Peak(curve, i) - curve[i]
  }

  /** How far a value lies below a peak, as a percentage of the peak. */
  function PctBelow(peak: real, cum: real): real
    requires peak > 0.0
  {
    (peak - cum) / peak * 100.0
  }

  function DropPct(curve: seq<real>, i: nat): real
    requires i < |curve|
  {
    if Peak(curve, i) > 0.0 then PctBelow(Peak(curve, i), curve[i]) else 0.0
  }

  /** A percentage drop is the share of the peak that has been given back. */
  lemma DropPctIsShareOfPeak(curve: seq<real>, i: nat)
    requires i < |curve|
    ensures if Peak(curve, i) > 0.0 then DropPct(curve, i) * Peak(curve, i) == 100.0 * (Peak(curve, i) - curve[i])
            else DropPct(curve, i) == 0.0
  {
    hide Peak;
    if Peak(curve, i) > 0.0 {
      ShareOfPeak(Peak(curve, i) - curve[i], Peak(curve, i));
    }
  }

  lemma DropPctSign(curve: seq<real>, i: nat)
    requires i < |curve|
    ensures DropPct(curve, i) >= 0.0 && (DropPct(curve, i) > 0.0 <==> Under(curve, i))
  {
    PeakIsPrefixMaximum(curve, i);
    if Peak(curve, i) > 0.0 {
      var d, p := Drop(curve, i), Peak(curve, i);
      assert d > 0.0 ==> d / p > 0.0;
      assert d == 0.0 ==> d / p == 0.0;
    }
  }

  function UnderCount(curve: seq<real>, n: nat): nat
    requires n <= |curve|
  {
    if n == 0 then 0 else UnderCount(curve, n - 1) + if Under(curve, n - 1) then 1 else 0
  }

  function PctSum(curve: seq<real>, n: nat): real
    requires n <= |curve|
  {
    if n == 0 then 0.0 else PctSum(curve, n - 1) + if Under(curve, n - 1) then DropPct(curve, n - 1) else 0.0
  }

  /** m is the first of the first n points whose percentage drop is the largest. */
  ghost predicate FirstWorst(curve: seq<real>, n: nat, m: nat) {
    && m < n <= |curve| && Under(curve, m)
    && (forall j :: 0 <= j < n ==> DropPct(curve, j) <= DropPct(curve, m))
    && (forall j :: 0 <= j < m ==> DropPct(curve, j) < DropPct(curve, m))
  }

  ghost predicate NoneUnder(curve: seq<real>, n: nat)
    requires n <= |curve|
  {
    forall j :: 0 <= j < n ==> !Under(curve, j)
  }

  /** The running maximum after i points. */
  ghost predicate WorstSoFar(curve: seq<real>, i: nat, maxPct: Option<real>, maxInr: real) {
    i <= |curve| &&
    match maxPct
    case None => NoneUnder(curve, i)
    case Some(pct) => exists m :: FirstWorst(curve, i, m) && pct == DropPct(curve, m) && maxInr == Drop(curve, m)
  }

  ghost predicate PctsSoFar(curve: seq<real>, i: nat, pcts: seq<real>) {
    i <= |curve| && |pcts| == UnderCount(curve, i) && Sum(pcts) == PctSum(curve, i)
  }

  lemma WorstStep(curve: seq<real>, i: nat, maxPct: Option<real>, maxInr: real)
    requires i < |curve| && WorstSoFar(curve, i, maxPct, maxInr)
    ensures if DropPct(curve, i) > (if maxPct.Some? then maxPct.value else 0.0)
            then WorstSoFar(curve, i + 1, Some(DropPct(curve, i)), Drop(curve, i))
            else WorstSoFar(curve, i + 1, maxPct, maxInr)
  {
    hide DropPct, Drop, Peak;
    DropPctSign(curve, i);
    match maxPct
    case None =>
      forall j | 0 <= j < i ensures DropPct(curve, j) <= 0.0 {
        DropPctSign(curve, j);
      }
      if DropPct(curve, i) > 0.0 {
        assert FirstWorst(curve, i + 1, i);
      }
    case Some(pct) =>
      var m :| FirstWorst(curve, i, m) && pct == DropPct(curve, m) && maxInr == Drop(curve, m);
      DropPctSign(curve, m);
      assert FirstWorst(curve, i + 1, if DropPct(curve, i) > pct then i else m);
  }

  lemma PctsStep(curve: seq<real>, i: nat, pcts: seq<real>)
    requires i < |curve| && PctsSoFar(curve, i, pcts)
    ensures PctsSoFar(curve, i + 1, if DropPct(curve, i) > 0.0 then pcts + [DropPct(curve, i)] else pcts)
  {
    hide DropPct, Drop, Peak;
    DropPctSign(curve, i);
    Snoc(pcts, DropPct(curve, i));
  }

  lemma {:induction false} NoneUnderIffCountZero(curve: seq<real>, n: nat)
    requires n <= |curve|
    ensures UnderCount(curve, n) == 0 <==> NoneUnder(curve, n)
  {
    if n > 0 {
      NoneUnderIffCountZero(curve, n - 1);
    }
  }

  lemma WorstIsUnder(curve: seq<real>, i: nat, maxPct: Option<real>, maxInr: real)
    requires WorstSoFar(curve, i, maxPct, maxInr)
    ensures maxPct.None? <==> NoneUnder(curve, i)
  {
  }

  method ComputeDrawdownStats(curve: seq<real>) returns (r: DrawdownStats)
    ensures curve == [] ==> r == DrawdownStats(None, None, None, None, None)
    ensures r.maxPct.None? <==> NoneUnder(curve, |curve|)
    ensures r.maxInr.None? <==> r.maxPct.None?
    ensures r.avgPct.None? <==> r.maxPct.None?
    ensures r.maxPct.Some? ==> exists m :: FirstWorst(curve, |curve|, m) &&
                                           r.maxPct.value == DropPct(curve, m) && r.maxInr.value == Drop(curve, m)
    ensures r.avgPct.Some? ==> UnderCount(curve, |curve|) > 0 &&
                               r.avgPct.value == PctSum(curve, |curve|) / (UnderCount(curve, |curve|) as real)
    ensures curve != [] ==> r.currentPct == Some(DropPct(curve, |curve| - 1)) &&
                            r.currentInr == Some(if Under(curve, |curve| - 1) then Drop(curve, |curve| - 1) else 0.0)
  {
    if curve == [] {
      return DrawdownStats(None, None, None, None, None);
    }
    hide UnderCount, PctSum, Sum, NoneUnder, FirstWorst, WorstSoFar, PctsSoFar, Peak, Drop, DropPct,
         PctBelow, Under;
    var peak := curve[0];
    var maxInr: real := 0.0;
    var maxPct: Option<real> := None;
    var pcts: seq<real> := [];
    NothingSeen(curve);
    PeakStep(curve, 0);
    var i := 0;
    while i < |curve|
      invariant 0 <= i <= |curve|
      invariant peak == if i == 0 then curve[0] else Peak(curve, i - 1)
      invariant WorstSoFar(curve, i, maxPct, maxInr) && PctsSoFar(curve, i, pcts)
    {
      var cum := curve[i];
      if cum > peak {
        peak := cum;
      }
      PeakStep(curve, i);
      DropAt(curve, i);
      WorstStep(curve, i, maxPct, maxInr);
      PctsStep(curve, i, pcts);
      WorstNonNegative(curve, i, maxPct, maxInr);
      if peak > 0.0 {
        var pct := PctBelow(peak, cum);
        if pct > if maxPct.Some? then maxPct.value else 0.0 {
          maxPct, maxInr := Some(pct), peak - cum;
        }
        if pct > 0.0 {
          pcts := pcts + [pct];
        }
      }
      i := i + 1;
    }
    var lastPct, lastInr := 0.0, 0.0;
    DropPctSign(curve, |curve| - 1);
    DropAt(curve, |curve| - 1);
    UnderAt(curve, |curve| - 1);
    if peak > 0.0 && Last(curve) < peak {
      lastPct, lastInr := PctBelow(peak, Last(curve)), peak - Last(curve);
    }
    WorstIsUnder(curve, |curve|, maxPct, maxInr);
    NoneUnderIffCountZero(curve, |curve|);
    WorstAndPcts(curve, maxPct, maxInr, pcts);
    var avg := if pcts != [] then Some(Sum(pcts) / (|pcts| as real)) else None;
    r := DrawdownStats(maxPct, if maxPct.Some? then Some(maxInr) else None, avg, Some(lastPct), Some(lastInr));
  }

  lemma PeakStep(curve: seq<real>, i: nat)
    requires i < |curve|
    ensures var before := if i == 0 then curve[0] else Peak(curve, i - 1);
            Peak(curve, i) == if curve[i] > before then curve[i] else before
  {
  }

  lemma DropAt(curve: seq<real>, i: nat)
    requires i < |curve|
    ensures Drop(curve, i) == Peak(curve, i) - curve[i]
    ensures DropPct(curve, i) ==
              if Peak(curve, i) > 0.0 then PctBelow(Peak(curve, i), curve[i]) else 0.0
  {
  }

  lemma UnderAt(curve: seq<real>, i: nat)
    requires i < |curve|
    ensures Under(curve, i) <==> Peak(curve, i) > 0.0 && curve[i] < Peak(curve, i)
  {
  }

  /** What the loop's invariants say once every point has been seen. */
  lemma WorstAndPcts(curve: seq<real>, maxPct: Option<real>, maxInr: real, pcts: seq<real>)
    requires WorstSoFar(curve, |curve|, maxPct, maxInr) && PctsSoFar(curve, |curve|, pcts)
    ensures |pcts| == UnderCount(curve, |curve|) && Sum(pcts) == PctSum(curve, |curve|)
    ensures maxPct.Some? ==> exists m :: FirstWorst(curve, |curve|, m) &&
                                         maxPct.value == DropPct(curve, m) && maxInr == Drop(curve, m)
  {
    hide Drop, DropPct, FirstWorst, UnderCount, PctSum, Sum;
  }

  lemma NothingSeen(curve: seq<real>)
    ensures WorstSoFar(curve, 0, None, 0.0) && PctsSoFar(curve, 0, [])
  {
  }

  lemma WorstNonNegative(curve: seq<real>, i: nat, maxPct: Option<real>, maxInr: real)
    requires WorstSoFar(curve, i, maxPct, maxInr)
    ensures maxPct.Some? ==> maxPct.value > 0.0
  {
    if maxPct.Some? {
      var m :| FirstWorst(curve, i, m) && maxPct.value == DropPct(curve, m);
      DropPctSign(curve, m);
    }
  }

  lemma {:induction false} PctSumBounded(curve: seq<real>, n: nat, worst: real)
    requires n <= |curve| && worst >= 0.0
    requires forall j :: 0 <= j < n ==> DropPct(curve, j) <= worst
    ensures 0.0 <= PctSum(curve, n) <= (UnderCount(curve, n) as real) * worst
  {
    if n > 0 {
      PctSumBounded(curve, n - 1, worst);
      DropPctSign(curve, n - 1);
    }
  }

  /** The average and the current drawdown never exceed the maximum. */
  lemma AverageAndCurrentWithinMaximum(curve: seq<real>, m: nat)
    requires FirstWorst(curve, |curve|, m)
    ensures UnderCount(curve, |curve|) > 0 ==>
              0.0 <= PctSum(curve, |curve|) / (UnderCount(curve, |curve|) as real) <= DropPct(curve, m)
    ensures DropPct(curve, |curve| - 1) <= DropPct(curve, m)
  {
    DropPctSign(curve, m);
    PctSumBounded(curve, |curve|, DropPct(curve, m));
    if UnderCount(curve, |curve|) > 0 {
      var total, n, worst := PctSum(curve, |curve|), UnderCount(curve, |curve|) as real, DropPct(curve, m);
      QuotientBounded(total, n, worst);
    }
  }

  lemma QuotientBounded(x: real, n: real, hi: real)
    requires n > 0.0 && 0.0 <= x <= n * hi
    ensures 0.0 <= x / n <= hi
  {
    var q := x / n;
    assert q * n == x;
    assert (hi - q) * n == n * hi - x;
    if q > hi {
      NegativeProduct(hi - q, n);
      assert false;
    }
    if q < 0.0 {
      NegativeProduct(q, n);
      assert false;
    }
  }

  lemma NegativeProduct(a: real, n: real)
    requires a < 0.0 && n > 0.0
    ensures a * n < 0.0
  {
  }

  lemma {:induction false} PeakNeverFalls(curve: seq<real>, i: nat, j: nat)
    requires i <= j < |curve|
    ensures Peak(curve, i) <= Peak(curve, j)
    decreases j
  {
    if i < j {
      PeakNeverFalls(curve, i, j - 1);
    }
  }

  /** Under no higher a peak, a smaller percentage is a smaller drop. */
  lemma DropOfPct(curve: seq<real>, j: nat, m: nat)
    requires j < |curve| && m < |curve| && 0.0 < Peak(curve, j) <= Peak(curve, m)
             && DropPct(curve, j) <= DropPct(curve, m)
    ensures Drop(curve, j) <= Drop(curve, m)
  {
    hide Peak;
    DropPctSign(curve, m);
    ShareOfPeak(Drop(curve, j), Peak(curve, j));
    ShareOfPeak(Drop(curve, m), Peak(curve, m));
    SmallerShare(DropPct(curve, j), DropPct(curve, m), Peak(curve, j), Peak(curve, m));
  }

  lemma ShareOfPeak(drop: real, peak: real)
    requires peak > 0.0
    ensures (drop / peak * 100.0) * peak == 100.0 * drop
  {
    assert drop / peak * peak == drop;
  }

  lemma SmallerShare(p: real, q: real, peak: real, higher: real)
    requires 0.0 <= q && p <= q && 0.0 < peak <= higher
    ensures p * peak <= q * higher
  {
    NonNegativeProduct(q - p, peak);
    NonNegativeProduct(q, higher - peak);
    assert q * higher - p * peak == (q - p) * peak + q * (higher - peak);
  }

  lemma NonNegativeProduct(a: real, b: real)
    requires a >= 0.0 && b >= 0.0
    ensures a * b >= 0.0
  {
  }

  ghost predicate LargestDrop(curve: seq<real>, m: nat)
    requires m < |curve|
  {
    forall j :: 0 <= j < |curve| && Under(curve, j) ==> Drop(curve, j) <= Drop(curve, m)
  }

  /** The stored rupee figure is the largest drop exactly when nothing that falls from a later, higher
      peak falls further: earlier points and points under the same peak never do. */
  lemma StoredDropIsLargestIff(curve: seq<real>, m: nat)
    requires FirstWorst(curve, |curve|, m)
    ensures LargestDrop(curve, m) <==>
              forall j :: m < j < |curve| && Peak(curve, j) > Peak(curve, m) ==> Drop(curve, j) <= Drop(curve, m)
  {
    hide DropPct, Drop, Peak;
    forall j | 0 <= j < |curve| && Under(curve, j) && Peak(curve, j) <= Peak(curve, m)
      ensures Drop(curve, j) <= Drop(curve, m)
    {
      DropOfPct(curve, j, m);
    }
    forall j | 0 <= j <= m ensures Peak(curve, j) <= Peak(curve, m) {
      PeakNeverFalls(curve, j, m);
    }
    forall j | m < j < |curve| && !Under(curve, j) && Peak(curve, j) > Peak(curve, m)
      ensures Drop(curve, j) <= Drop(curve, m)
    {
      NotUnderNoDrop(curve, j);
      NotUnderNoDrop(curve, m);
    }
  }

  lemma NotUnderNoDrop(curve: seq<real>, j: nat)
    requires j < |curve| && Peak(curve, j) > 0.0
    ensures Drop(curve, j) >= 0.0 && (!Under(curve, j) ==> Drop(curve, j) == 0.0)
  {
    PeakIsPrefixMaximum(curve, j);
  }

  /** Something a caller can check: no new peak after the worst point. */
  lemma NoLaterPeakSuffices(curve: seq<real>, m: nat)
    requires FirstWorst(curve, |curve|, m) && Peak(curve, |curve| - 1) == Peak(curve, m)
    ensures LargestDrop(curve, m)
  {
    hide DropPct, Drop, Peak;
    forall j | m < j < |curve| ensures Peak(curve, j) <= Peak(curve, m) {
      PeakNeverFalls(curve, j, |curve| - 1);
    }
    StoredDropIsLargestIff(curve, m);
  }

  /** The stored rupee figure belongs to the worst percentage, so it need not be the largest rupee
      drop: 100, 50, 1000, 600 stores 50 while the curve later falls by 400. */
  lemma WorstPctIsNotLargestDrop()
    ensures var curve := [100.0, 50.0, 1000.0, 600.0];
            FirstWorst(curve, 4, 1) && Drop(curve, 1) == 50.0 && Drop(curve, 3) == 400.0
  {
    var curve := [100.0, 50.0, 1000.0, 600.0];
    assert Peak(curve, 0) == 100.0 && Peak(curve, 1) == 100.0;
    assert Peak(curve, 2) == 1000.0 && Peak(curve, 3) == 1000.0;
    assert DropPct(curve, 0) == 0.0 && DropPct(curve, 1) == 50.0 && DropPct(curve, 2) == 0.0
           && DropPct(curve, 3) == 40.0;
  }
}
