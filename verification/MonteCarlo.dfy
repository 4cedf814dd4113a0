/** Monte Carlo over resampled R-multiples: each simulation stops at ruin; the sorted outcomes are
    read at fixed percentiles. */
module MonteCarlo {
  import opened Sequences
  import opened TradeTypes
  import Streaks

  datatype Outcome = Outcome(finalR: real, maxDrawdown: real, maxLosses: nat, ruined: bool)

  datatype MonteCarloResult = MonteCarloResult(simulations: nat, trades: nat, medianFinalR: real, p5FinalR: real,
                                               p95FinalR: real, p5MaxDrawdown: real, p1MaxDrawdown: real,
                                               worstMaxDrawdown: real, riskOfRuinPct: real, p95MaxLosses: real)

  /** The errors an empty simulation list runs into: it has no element to index. */
  datatype SimulationError = IndexError

  // ---------- one simulation ----------

  function Cumulative(sim: seq<real>, n: nat): real
    requires n <= |sim|
  {
    if n == 0 then 0.0 else Cumulative(sim, n - 1) + sim[n - 1]
  }

  /** Ruin is reached by the first n trades. */
  ghost predicate RuinedBy(sim: seq<real>, n: nat, threshold: real)
    requires n <= |sim|
  {
    exists i: nat :: 0 < i <= n && Cumulative(sim, i) <= threshold
  }

  /** The running peak, never below zero. */
  function PeakR(sim: seq<real>, n: nat): (p: real)
    requires n <= |sim|
    ensures p >= 0.0
  {
    if n == 0 then 0.0
    else if Cumulative(sim, n) > PeakR(sim, n - 1) then Cumulative(sim, n) else PeakR(sim, n - 1)
  }

  /** The peak is the largest of zero and all sums so far, reached by one of them. */
  lemma {:induction false} PeakRIsMaximum(sim: seq<real>, n: nat)
    requires n <= |sim|
    ensures forall i :: 0 <= i <= n ==> Sum(sim[..i]) <= PeakR(sim, n)
    ensures exists i :: 0 <= i <= n && Sum(sim[..i]) == PeakR(sim, n)
  {
    CumulativeIsSum(sim, n);
    if n > 0 {
      PeakRIsMaximum(sim, n - 1);
      if PeakR(sim, n) == PeakR(sim, n - 1) {
        var i :| 0 <= i <= n - 1 && Sum(sim[..i]) == PeakR(sim, n - 1);
        assert Sum(sim[..i]) == PeakR(sim, n);
      }
    }
  }

  lemma {:induction false} CumulativeIsSum(sim: seq<real>, n: nat)
    requires n <= |sim|
    ensures Cumulative(sim, n) == Sum(sim[..n])
  {
    if n > 0 {
      CumulativeIsSum(sim, n - 1);
      assert sim[..n] == sim[..n - 1] + [sim[n - 1]];
      Snoc(sim[..n - 1], sim[n - 1]);
    }
  }

  /** A drawdown is the share of the peak that has been given back, in percent. */
  lemma DrawdownIsShareOfPeak(sim: seq<real>, n: nat)
    requires 0 < n <= |sim|
    ensures if PeakR(sim, n) > 0.0
            then DrawdownAt(sim, n) * PeakR(sim, n) == 100.0 * (PeakR(sim, n) - Sum(sim[..n]))
            else DrawdownAt(sim, n) == 0.0
  {
    hide PeakR;
    CumulativeIsSum(sim, n);
    ShareOf(PeakR(sim, n) - Cumulative(sim, n), PeakR(sim, n));
  }

  lemma ShareOf(part: real, whole: real)
    ensures whole > 0.0 ==> (part / whole * 100.0) * whole == 100.0 * part
  {
    if whole > 0.0 {
      assert part / whole * whole == part;
    }
  }

  function DrawdownAt(sim: seq<real>, n: nat): real
    requires 0 < n <= |sim|
  {
    if PeakR(sim, n) > 0.0 then (PeakR(sim, n) - Cumulative(sim, n)) / PeakR(sim, n) * 100.0 else 0.0
  }

  /** The largest drawdown over the first n trades. */
  function MaxDrawdown(sim: seq<real>, n: nat): real
    requires n <= |sim|
  {
    if n == 0 then 0.0
    else if DrawdownAt(sim, n) > MaxDrawdown(sim, n - 1) then DrawdownAt(sim, n) else MaxDrawdown(sim, n - 1)
  }

  lemma {:induction false} MaxDrawdownIsMaximum(sim: seq<real>, n: nat)
    requires n <= |sim|
    ensures MaxDrawdown(sim, n) >= 0.0
    ensures forall i :: 0 < i <= n ==> DrawdownAt(sim, i) <= MaxDrawdown(sim, n)
    ensures MaxDrawdown(sim, n) == 0.0 || exists i :: 0 < i <= n && MaxDrawdown(sim, n) == DrawdownAt(sim, i)
  {
    hide DrawdownAt;
    if n > 0 {
      MaxDrawdownIsMaximum(sim, n - 1);
    }
  }

  /** The trade after which a simulation stops: the first that ruins, or the last. */
  function StopAt(sim: seq<real>, n: nat, threshold: real): (stop: nat)
    requires n <= |sim|
    ensures n <= stop <= |sim|
    decreases |sim| - n
  {
    if n == |sim| then n
    else if Cumulative(sim, n + 1) <= threshold then n + 1
    else StopAt(sim, n + 1, threshold)
  }

  lemma {:induction false} StopIsFirstRuin(sim: seq<real>, n: nat, threshold: real)
    requires n < |sim| && !RuinedBy(sim, n, threshold)
    ensures var stop := StopAt(sim, n, threshold);
            && stop > n && !RuinedBy(sim, stop - 1, threshold)
            && (RuinedBy(sim, |sim|, threshold) <==> Cumulative(sim, stop) <= threshold)
            && (stop < |sim| ==> RuinedBy(sim, |sim|, threshold))
    decreases |sim| - n
  {
    if Cumulative(sim, n + 1) <= threshold {
      assert RuinedBy(sim, |sim|, threshold);
    } else if n + 1 < |sim| {
      StopIsFirstRuin(sim, n + 1, threshold);
    }
  }

  /** What one simulation must report. */
  function OutcomeOf(sim: seq<real>, threshold: real): Outcome {
    var stop := StopAt(sim, 0, threshold);
    Outcome(Cumulative(sim, stop), MaxDrawdown(sim, stop), Streaks.Longest(sim[..stop], Streaks.Loss),
            stop > 0 && Cumulative(sim, stop) <= threshold)
  }

  /** A simulation is ruined exactly when some prefix of it reaches the threshold, and exactly when
      its recorded final R is at or below the threshold. */
  lemma RuinedIffFinal(sim: seq<real>, threshold: real)
    requires sim != []
    ensures var o := OutcomeOf(sim, threshold);
            (o.ruined <==> RuinedBy(sim, |sim|, threshold)) && (o.ruined <==> o.finalR <= threshold)
  {
    StopIsFirstRuin(sim, 0, threshold);
  }

  lemma LossStep(sim: seq<real>, n: nat)
    requires n < |sim|
    ensures Streaks.Current(sim[..n + 1], Streaks.Loss) ==
              if sim[n] < 0.0 then Streaks.Current(sim[..n], Streaks.Loss) + 1 else 0
    ensures Streaks.Longest(sim[..n + 1], Streaks.Loss) ==
              Streaks.Max(Streaks.Longest(sim[..n], Streaks.Loss), Streaks.Current(sim[..n + 1], Streaks.Loss))
  {
    assert sim[..n + 1][..n] == sim[..n];
  }

  method Simulate(sim: seq<real>, threshold: real) returns (o: Outcome)
    ensures o == OutcomeOf(sim, threshold)
  {
    var cum, peak, maxDd := 0.0, 0.0, 0.0;
    var losses, maxLosses := 0, 0;
    var n := 0;
    while n < |sim|
      invariant 0 <= n <= |sim|
      invariant cum == Cumulative(sim, n) && peak == PeakR(sim, n) && maxDd == MaxDrawdown(sim, n) >= 0.0
      invariant losses == Streaks.Current(sim[..n], Streaks.Loss)
                && maxLosses == Streaks.Longest(sim[..n], Streaks.Loss)
      invariant StopAt(sim, 0, threshold) == StopAt(sim, n, threshold)
      invariant n > 0 ==> cum > threshold
    {
      hide Streaks.Current, Streaks.Longest;
      var r := sim[n];
      LossStep(sim, n);
      cum := cum + r;
      if cum > peak {
        peak := cum;
      }
      if peak > 0.0 {
        var dd := (peak - cum) / peak * 100.0;
        if dd > maxDd {
          maxDd := dd;
        }
      }
      if r < 0.0 {
        losses := losses + 1;
        if losses > maxLosses {
          maxLosses := losses;
        }
      } else {
        losses := 0;
      }
      n := n + 1;
      if cum <= threshold {
        return Outcome(cum, maxDd, maxLosses, true);
      }
    }
    o := Outcome(cum, maxDd, maxLosses, false);
  }

  // ---------- sorting and percentiles ----------

  ghost predicate Sorted(s: seq<real>) {
    forall i, j :: 0 <= i < j < |s| ==> s[i] <= s[j]
  }

  function Insert(s: seq<real>, x: real): seq<real> {
    if s == [] || Last(s) <= x then s + [x] else Insert(Front(s), x) + [Last(s)]
  }

  /** list.sort() */
  function Sort(s: seq<real>): seq<real> {
    if s == [] then [] else Insert(Sort(Front(s)), Last(s))
  }

  lemma SortedSnoc(s: seq<real>, last: real)
    requires Sorted(s) && forall y :: y in multiset(s) ==> y <= last
    ensures Sorted(s + [last])
  {
    forall i | 0 <= i < |s| ensures s[i] <= last {
      assert s[i] in multiset(s);
    }
  }

  lemma {:induction false} InsertMultiset(s: seq<real>, x: real)
    ensures multiset(Insert(s, x)) == multiset(s) + multiset{x}
  {
    if s != [] && Last(s) > x {
      assert s == Front(s) + [Last(s)];
      InsertMultiset(Front(s), x);
    }
  }

  lemma {:induction false} InsertSorted(s: seq<real>, x: real)
    requires Sorted(s)
    ensures Sorted(Insert(s, x))
  {
    if s == [] || Last(s) <= x {
    } else {
      var front, last := Front(s), Last(s);
      InsertSorted(front, x);
      InsertMultiset(front, x);
      forall y | y in multiset(Insert(front, x)) ensures y <= last {
        assert y in multiset(front) || y == x;
      }
      SortedSnoc(Insert(front, x), last);
    }
  }

  lemma {:induction false} SortKeeps(s: seq<real>)
    ensures Sorted(Sort(s)) && multiset(Sort(s)) == multiset(s) && |Sort(s)| == |s|
  {
    if s != [] {
      assert s == Front(s) + [Last(s)];
      SortKeeps(Front(s));
      InsertSorted(Sort(Front(s)), Last(s));
      InsertMultiset(Sort(Front(s)), Last(s));
    }
    assert |Sort(s)| == |multiset(Sort(s))| == |multiset(s)| == |s|;
  }

  function PercentileIndex(n: nat, pct: nat): (i: nat)
    requires n > 0
    ensures i < n
  {
    if n * pct / 100 > n - 1 then n - 1 else n * pct / 100
  }

  function Percentile(sorted: seq<real>, pct: nat): real
    requires sorted != []
  {
    sorted[PercentileIndex(|sorted|, pct)]
  }

  lemma PercentileMonotone(sorted: seq<real>, p: nat, q: nat)
    requires sorted != [] && Sorted(sorted) && p <= q
    ensures Percentile(sorted, p) <= Percentile(sorted, q) <= Last(sorted)
  {
    var n := |sorted|;
    assert n * q - n * p == n * (q - p) >= 0;
    assert n * p / 100 <= n * q / 100;
  }

  function CountAtMost(s: seq<real>, x: real): nat {
    if s == [] then 0 else CountAtMost(Front(s), x) + if Last(s) <= x then 1 else 0
  }

  lemma {:induction false} CountAtMostSplit(a: seq<real>, y: real, b: seq<real>, x: real)
    ensures CountAtMost(a + [y] + b, x) == CountAtMost(a + b, x) + if y <= x then 1 else 0
  {
    if b == [] {
      assert a + [y] + b == a + [y] && a + b == a && (a + [y])[..|a|] == a;
    } else {
      var front, last := Front(b), Last(b);
      assert (a + [y] + b)[..|a| + |b|] == a + [y] + front && (a + b)[..|a| + |b| - 1] == a + front;
      CountAtMostSplit(a, y, front, x);
    }
  }

  lemma {:induction false} CountAtMostPermutes(s: seq<real>, t: seq<real>, x: real)
    requires multiset(s) == multiset(t)
    ensures CountAtMost(s, x) == CountAtMost(t, x)
  {
    if s == [] {
      assert |multiset(t)| == 0;
    } else {
      var y := Last(s);
      assert s == Front(s) + [y];
      assert y in multiset(s) && y in multiset(t);
      var a, b := SplitAt(t, y);
      assert multiset(Front(s)) == multiset(s) - multiset{y};
      CountAtMostPermutes(Front(s), a + b, x);
      CountAtMostSplit(a, y, b, x);
    }
  }

  /** In a sorted list the element at index k is at most x exactly when more than k elements are. */
  lemma {:induction false} SortedRank(s: seq<real>, k: nat, x: real)
    requires Sorted(s) && k < |s|
    ensures CountAtMost(s, x) <= |s|
    ensures s[k] <= x <==> CountAtMost(s, x) > k
  {
    var front := Front(s);
    if k < |s| - 1 {
      SortedRank(front, k, x);
    } else {
      AllAtMost(s, x);
    }
  }

  lemma {:induction false} AllAtMost(s: seq<real>, x: real)
    requires Sorted(s)
    ensures CountAtMost(s, x) <= |s|
    ensures s != [] ==> (Last(s) <= x <==> CountAtMost(s, x) == |s|)
  {
    if s != [] {
      AllAtMost(Front(s), x);
    }
  }

  /** x is the smallest entry that more than pct percent of all entries do not exceed. */
  ghost predicate AtRank(s: seq<real>, pct: nat, x: real) {
    && s != [] && x in s
    && 100 * CountAtMost(s, x) > |s| * pct
    && forall y :: y < x ==> 100 * CountAtMost(s, y) <= |s| * pct
  }

  lemma IndexBelow(n: nat, pct: nat, count: nat)
    requires n > 0 && pct < 100
    ensures count > PercentileIndex(n, pct) <==> 100 * count > n * pct
  {
    assert n * pct <= n * 99;
  }

  /** From 100 percent on the index is that of the largest entry. */
  lemma FullPercentile(s: seq<real>, pct: nat)
    requires s != [] && pct >= 100
    ensures |Sort(s)| == |s| && CountAtMost(s, Percentile(Sort(s), pct)) == |s|
  {
    hide Sort, CountAtMost;
    SortKeeps(s);
    assert |s| * pct >= |s| * 100;
    AllAtMost(Sort(s), Percentile(Sort(s), pct));
    CountAtMostPermutes(s, Sort(s), Percentile(Sort(s), pct));
  }

  lemma PercentileAtRank(s: seq<real>, pct: nat)
    requires s != [] && pct < 100
    ensures |Sort(s)| == |s| && AtRank(s, pct, Percentile(Sort(s), pct))
  {
    hide Sort, CountAtMost, PercentileIndex;
    SortKeeps(s);
    var sorted, index := Sort(s), PercentileIndex(|s|, pct);
    var x := sorted[index];
    assert x in multiset(sorted);
    SortedRank(sorted, index, x);
    CountAtMostPermutes(s, sorted, x);
    IndexBelow(|s|, pct, CountAtMost(s, x));
    forall y | y < x ensures 100 * CountAtMost(s, y) <= |s| * pct {
      SortedRank(sorted, index, y);
      CountAtMostPermutes(s, sorted, y);
      IndexBelow(|s|, pct, CountAtMost(s, y));
    }
  }

  // ---------- the whole run ----------

  /** The simulations that reach ruin. */
  ghost function RuinCount(sims: seq<seq<real>>, threshold: real): nat {
    if sims == [] then 0
    else RuinCount(Front(sims), threshold) +
         if RuinedBy(Last(sims), |Last(sims)|, threshold) then 1 else 0
  }

  /** random.choices(pool, k = n): any n draws from the pool. */
  ghost predicate IsResample(pool: seq<real>, sim: seq<real>) {
    |sim| == |pool| && forall r :: r in sim ==> r in pool
  }

  function FinalsOf(sims: seq<seq<real>>, threshold: real): (l: seq<real>)
    ensures |l| == |sims|
  {
    seq(|sims|, k requires 0 <= k < |sims| => OutcomeOf(sims[k], threshold).finalR)
  }

  function DrawdownsOf(sims: seq<seq<real>>, threshold: real): (l: seq<real>)
    ensures |l| == |sims|
  {
    seq(|sims|, k requires 0 <= k < |sims| => OutcomeOf(sims[k], threshold).maxDrawdown)
  }

  function LossesOf(sims: seq<seq<real>>, threshold: real): (l: seq<real>)
    ensures |l| == |sims|
  {
    seq(|sims|, k requires 0 <= k < |sims| => OutcomeOf(sims[k], threshold).maxLosses as real)
  }

  /** The recorded lists after some simulations. */
  ghost predicate Recorded(sims: seq<seq<real>>, threshold: real, finals: seq<real>, drawdowns: seq<real>,
                           losses: seq<real>) {
    finals == FinalsOf(sims, threshold) && drawdowns == DrawdownsOf(sims, threshold)
      && losses == LossesOf(sims, threshold)
  }

  lemma RecordedSnoc(sims: seq<seq<real>>, k: nat, threshold: real, finals: seq<real>, drawdowns: seq<real>,
                     losses: seq<real>)
    requires k < |sims| && Recorded(sims[..k], threshold, finals, drawdowns, losses)
    ensures var o := OutcomeOf(sims[k], threshold);
            Recorded(sims[..k + 1], threshold, finals + [o.finalR], drawdowns + [o.maxDrawdown],
                     losses + [o.maxLosses as real])
  {
    hide OutcomeOf;
  }

  lemma {:induction false} RuinCountIsRank(sims: seq<seq<real>>, threshold: real, finals: seq<real>)
    requires finals == FinalsOf(sims, threshold) && forall k :: 0 <= k < |sims| ==> sims[k] != []
    ensures RuinCount(sims, threshold) == CountAtMost(finals, threshold)
  {
    hide OutcomeOf, RuinedBy;
    if sims != [] {
      var n := |sims| - 1;
      assert finals[..n] == FinalsOf(sims[..n], threshold);
      RuinCountIsRank(sims[..n], threshold, finals[..n]);
      RuinedIffFinal(sims[n], threshold);
    }
  }

  /** The simulation loop. */
  method RunSimulations(sims: seq<seq<real>>, threshold: real)
    returns (finals: seq<real>, drawdowns: seq<real>, losses: seq<real>, ruins: nat)
    requires forall k :: 0 <= k < |sims| ==> sims[k] != []
    ensures Recorded(sims, threshold, finals, drawdowns, losses) && ruins == RuinCount(sims, threshold)
  {
    finals, drawdowns, losses, ruins := [], [], [], 0;
    var k := 0;
    while k < |sims|
      invariant 0 <= k <= |sims|
      invariant Recorded(sims[..k], threshold, finals, drawdowns, losses) && ruins == RuinCount(sims[..k], threshold)
    {
      hide OutcomeOf, RuinedBy, Recorded;
      var o := Simulate(sims[k], threshold);
      RuinedIffFinal(sims[k], threshold);
      assert sims[..k + 1][..k] == sims[..k];
      RecordedSnoc(sims, k, threshold, finals, drawdowns, losses);
      if o.ruined {
        ruins := ruins + 1;
      }
      finals, drawdowns, losses := finals + [o.finalR], drawdowns + [o.maxDrawdown], losses + [o.maxLosses as real];
      k := k + 1;
    }
    assert sims[..k] == sims;
  }

  function Summarize(trades: nat, ruins: nat, finals: seq<real>, drawdowns: seq<real>,
                     losses: seq<real>): MonteCarloResult
    requires |finals| == |drawdowns| == |losses| > 0
  {
    SortKeeps(finals);
    SortKeeps(drawdowns);
    SortKeeps(losses);
    var n, r, dd := |finals|, Sort(finals), Sort(drawdowns);
    MonteCarloResult(n, trades, Percentile(r, 50), Percentile(r, 5), Percentile(r, 95), Percentile(dd, 95),
                     Percentile(dd, 99), dd[n - 1], (ruins as real) / (n as real) * 100.0, Percentile(Sort(losses), 95))
  }

  /** Every possible resample is covered: the draws are an argument. */
  method ComputeMonteCarlo(rMultiples: seq<real>, sims: seq<seq<real>>, threshold: real)
    returns (r: Result<MonteCarloResult, SimulationError>)
    requires forall k :: 0 <= k < |sims| ==> IsResample(rMultiples, sims[k])
    ensures rMultiples == [] ==> r == Success(MonteCarloResult(0, 0, 0.0, 0.0, 0.0, 0.0, 0.0, 0.0, 0.0, 0.0))
    ensures rMultiples != [] ==> (r.Failure? <==> sims == [])
    ensures rMultiples != [] && r.Success? ==> r.value.trades == |rMultiples| && Promised(sims, threshold, r.value)
  {
    hide Promised, Percentile, Sort, RuinCount, Summarize;
    if rMultiples == [] {
      return Success(MonteCarloResult(0, 0, 0.0, 0.0, 0.0, 0.0, 0.0, 0.0, 0.0, 0.0));
    }
    var finals, drawdowns, losses, ruins := RunSimulations(sims, threshold);
    if sims == [] {
      return Failure(IndexError);
    }
    RanksPromised(|rMultiples|, sims, threshold, finals, drawdowns, losses);
    r := Success(Summarize(|rMultiples|, ruins, finals, drawdowns, losses));
  }

  /** The reported figures are the ranked entries of the simulations' outcomes; they are ordered, the
      worst drawdown is the worst of all simulations, and the 5th percentile final R is at or below
      the threshold exactly when more than floor(5n/100) simulations were ruined. */
  ghost predicate Promised(sims: seq<seq<real>>, threshold: real, v: MonteCarloResult) {
    var n, finals, drawdowns := |sims|, FinalsOf(sims, threshold), DrawdownsOf(sims, threshold);
    && n > 0 && v.simulations == n
    && AtRank(finals, 5, v.p5FinalR) && AtRank(finals, 50, v.medianFinalR) && AtRank(finals, 95, v.p95FinalR)
    && AtRank(drawdowns, 95, v.p5MaxDrawdown) && AtRank(drawdowns, 99, v.p1MaxDrawdown)
    && AtRank(LossesOf(sims, threshold), 95, v.p95MaxLosses)
    && v.p5FinalR <= v.medianFinalR <= v.p95FinalR
    && v.p5MaxDrawdown <= v.p1MaxDrawdown <= v.worstMaxDrawdown
    && v.worstMaxDrawdown in drawdowns && (forall k :: 0 <= k < n ==> drawdowns[k] <= v.worstMaxDrawdown)
    && v.riskOfRuinPct == (RuinCount(sims, threshold) as real) / (n as real) * 100.0
    && (v.p5FinalR <= threshold <==> RuinCount(sims, threshold) > 5 * n / 100)
  }

  lemma WorstIsLast(drawdowns: seq<real>)
    requires drawdowns != []
    ensures |Sort(drawdowns)| == |drawdowns|
    ensures var worst := Sort(drawdowns)[|drawdowns| - 1];
            worst in drawdowns && forall k :: 0 <= k < |drawdowns| ==> drawdowns[k] <= worst
  {
    SortKeeps(drawdowns);
    var sorted := Sort(drawdowns);
    assert Last(sorted) in multiset(sorted);
    forall k | 0 <= k < |drawdowns| ensures drawdowns[k] <= Last(sorted) {
      assert drawdowns[k] in multiset(sorted);
      var i :| 0 <= i < |sorted| && sorted[i] == drawdowns[k];
    }
  }

  lemma RanksPromised(trades: nat, sims: seq<seq<real>>, threshold: real, finals: seq<real>, drawdowns: seq<real>,
                      losses: seq<real>)
    requires sims != [] && Recorded(sims, threshold, finals, drawdowns, losses)
    requires forall k :: 0 <= k < |sims| ==> sims[k] != []
    ensures Promised(sims, threshold, Summarize(trades, RuinCount(sims, threshold), finals, drawdowns, losses))
    ensures Summarize(trades, RuinCount(sims, threshold), finals, drawdowns, losses).trades == trades
  {
    hide OutcomeOf, RuinCount, Sort, CountAtMost, PercentileIndex, AtRank, FinalsOf, DrawdownsOf, LossesOf;
    SortKeeps(finals);
    SortKeeps(drawdowns);
    PercentileAtRank(finals, 5);
    PercentileAtRank(finals, 50);
    PercentileAtRank(finals, 95);
    PercentileAtRank(drawdowns, 95);
    PercentileAtRank(drawdowns, 99);
    PercentileAtRank(losses, 95);
    PercentileMonotone(Sort(finals), 5, 50);
    PercentileMonotone(Sort(finals), 50, 95);
    PercentileMonotone(Sort(drawdowns), 95, 99);
    WorstIsLast(drawdowns);
    RuinCountIsRank(sims, threshold, finals);
    CountAtMostPermutes(finals, Sort(finals), threshold);
    FifthPercentileRank(Sort(finals), threshold);
  }

  lemma FifthPercentileRank(sorted: seq<real>, threshold: real)
    requires sorted != [] && Sorted(sorted)
    ensures Percentile(sorted, 5) <= threshold <==> CountAtMost(sorted, threshold) > 5 * |sorted| / 100
  {
    SortedRank(sorted, PercentileIndex(|sorted|, 5), threshold);
  }
}
