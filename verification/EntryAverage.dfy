/** How far the stored entry average may drift from the exact weighted mean of the ENTRY fills
    when a trade is built over several runs. */
module EntryAverage {
  import opened Sequences
  import opened TradeTypes
  import opened FixedPoint
  import opened Ledger

  /** A run has started since the last ENTRY fill of the segment. */
  predicate NewRun(s: History, side: Side) {
    s == [] || (Last(s).fill.side != side && (NewRun(Front(s), side) || Last(s).startsRun))
  }

  /** The number of runs that processed at least one ENTRY fill of the segment. */
  function EntryRuns(s: History, side: Side): nat {
    if s == [] then 0
    else EntryRuns(Front(s), side) +
         if Last(s).fill.side == side && (NewRun(Front(s), side) || Last(s).startsRun) then 1 else 0
  }

  /** One ENTRY fill on top of an accumulated value that is off by err. */
  lemma DriftStep(err: int, k: nat, qtyBefore: nat, qty: nat, value: int, average: int)
    requires qtyBefore <= qty && 2 * Abs(err) <= k * qtyBefore
    requires 2 * Abs(value - average * qty) <= qty
    ensures 2 * Abs(err) <= k * qty
    ensures 2 * Abs(average * qty - (value - err)) <= (k + 1) * qty
  {
    MulMonotone(k, k, qtyBefore, qty);
    assert (k + 1) * qty == k * qty + qty;
  }

  /** Twice the error of the accumulated value, and of average times quantity, against the exact value. */
  ghost predicate WithinDrift(acc: Accumulators, exact: int, runs: nat, rebuilt: bool) {
    && (rebuilt ==> acc.value == acc.average * acc.qty)
    && (!rebuilt ==> runs > 0 && 2 * Abs(acc.value - exact) <= (runs - 1) * acc.qty)
    && 2 * Abs(acc.average * acc.qty - exact) <= runs * acc.qty
  }

  lemma DriftPreserved(before: Accumulators, exact: int, runs: nat, rebuilt: bool, p: Processed, side: Side)
    requires WithinDrift(before, exact, runs, rebuilt)
    ensures var rebuilds, entry := rebuilt || p.startsRun, p.fill.side == side;
            WithinDrift(AfterFill(before, p, side), exact + if entry then p.fill.quantity * p.fill.price else 0,
                        runs + if entry && rebuilds then 1 else 0, !entry && rebuilds)
  {
    var rebuilds := rebuilt || p.startsRun;
    var base := if p.startsRun then before.average * before.qty else before.value;
    if p.fill.side == side {
      var acc, k := AfterFill(before, p, side), if rebuilds then runs else runs - 1;
      DriftStep(base - exact, k, before.qty, acc.qty, acc.value, acc.average);
    }
  }

  lemma NoDrift()
    ensures WithinDrift(Accumulators(0, 0, 0), 0, 0, true)
  {
  }

  lemma {:induction false} AccumulatedError(s: History, side: Side)
    ensures WithinDrift(Accumulate(s, side), ValueOn(s, side), EntryRuns(s, side), NewRun(s, side))
  {
    hide AfterFill, WithinDrift;
    if s == [] {
      NoDrift();
    } else {
      var front := Front(s);
      AccumulatedError(front, side);
      DriftPreserved(Accumulate(front, side), ValueOn(front, side), EntryRuns(front, side), NewRun(front, side),
                     Last(s), side);
    }
  }

  /** A stored entry average lies within (k + 1)/2 ticks of the exact weighted mean of all ENTRY
      fills, where k runs resumed the trade and processed an ENTRY fill; k = 0 gives half a tick. */
  lemma AverageEntryDrift(s: History)
    requires |s| > 0
    ensures EntryRuns(s, EntrySide(s)) >= 1
    ensures var side := EntrySide(s); var k := EntryRuns(s, side) - 1;
            2 * Abs(Accumulate(s, side).average * EntryQty(s) - ValueOn(s, side)) <= (k + 1) * EntryQty(s)
  {
    hide Accumulate, QtyOn, ValueOn, EntryRuns, NewRun, Abs;
    AccumulatedError(s, EntrySide(s));
    FirstFillIsAnEntryRun(s);
  }

  lemma {:induction false} FirstFillIsAnEntryRun(s: History)
    requires |s| > 0
    ensures EntryRuns(s, EntrySide(s)) >= 1
  {
    if |s| > 1 {
      FirstFillIsAnEntryRun(Front(s));
    } else {
      assert Front(s) == [];
    }
  }

  ghost predicate PricesWithin(acc: Accumulators, lo: int, hi: int) {
    lo * acc.qty <= acc.value <= hi * acc.qty && (acc.qty > 0 ==> lo <= acc.average <= hi)
  }

  lemma EntryKeepsBetween(before: Accumulators, base: int, qty: nat, price: int, lo: int, hi: int)
    requires qty > 0 && lo <= price <= hi && lo * before.qty <= base <= hi * before.qty
    ensures var value, n := base + qty * price, before.qty + qty;
            PricesWithin(Accumulators(n, value, RoundDiv(value, n)), lo, hi)
  {
    var value, n := base + qty * price, before.qty + qty;
    ScaleBetween(lo, price, hi, qty);
    assert lo * n == lo * before.qty + lo * qty;
    assert hi * n == hi * before.qty + hi * qty;
    RoundDivBetween(lo, value, hi, n);
  }

  lemma BetweenPreserved(before: Accumulators, p: Processed, side: Side, lo: int, hi: int)
    requires PricesWithin(before, lo, hi)
    requires p.fill.side == side ==> lo <= p.fill.price <= hi
    ensures PricesWithin(AfterFill(before, p, side), lo, hi)
  {
    var base := if p.startsRun then before.average * before.qty else before.value;
    if p.startsRun && before.qty > 0 {
      ScaleBetween(lo, before.average, hi, before.qty);
    }
    if p.fill.side == side {
      EntryKeepsBetween(before, base, p.fill.quantity, p.fill.price, lo, hi);
    }
  }

  /** Under any batching the stored average lies between the lowest and the highest ENTRY price. */
  lemma {:induction false} AverageEntryBetween(s: History, side: Side, lo: int, hi: int)
    requires forall i :: 0 <= i < |s| && s[i].fill.side == side ==> lo <= s[i].fill.price <= hi
    ensures PricesWithin(Accumulate(s, side), lo, hi)
  {
    if s != [] {
      AverageEntryBetween(Front(s), side, lo, hi);
      BetweenPreserved(Accumulate(Front(s), side), Last(s), side, lo, hi);
    }
  }

  lemma ScaleBetween(lo: int, x: int, hi: int, q: nat)
    requires lo <= x <= hi
    ensures lo * q <= x * q <= hi * q && x * q == q * x
  {
    assert (x - lo) * q >= 0 && (hi - x) * q >= 0;
    assert (x - lo) * q == x * q - lo * q && (hi - x) * q == hi * q - x * q;
  }

  // ---------- the written rule: the average is the rounded mean of all ENTRY fills ----------

  /** The rule for a segment. */
  predicate MeetsRule(s: History, side: Side) {
    QtyOn(s, side) > 0 ==> Accumulate(s, side).average == RoundDiv(ValueOn(s, side), QtyOn(s, side))
  }

  /** Wherever a run resumes, the quantity so far divides the value so far. */
  predicate ResumesLossless(s: History, side: Side) {
    s == [] || (ResumesLossless(Front(s), side) &&
                (Last(s).startsRun && QtyOn(Front(s), side) > 0 ==>
                   ValueOn(Front(s), side) % QtyOn(Front(s), side) == 0))
  }

  lemma {:induction false} RuleHoldsWithoutLoss(s: History, side: Side)
    requires ResumesLossless(s, side)
    ensures Accumulate(s, side).value == ValueOn(s, side) && MeetsRule(s, side)
  {
    if s != [] {
      var front, before := Front(s), Accumulate(Front(s), side);
      RuleHoldsWithoutLoss(front, side);
      if Last(s).startsRun && QtyOn(front, side) > 0 {
        ResumeIsExactIff(ValueOn(front, side), QtyOn(front, side));
      }
      if QtyOn(front, side) == 0 {
        NoQtyNoValue(front, side);
      }
    }
  }

  lemma {:induction false} OneRunIsLossless(s: History, side: Side)
    requires forall i :: 0 < i < |s| ==> !s[i].startsRun
    ensures ResumesLossless(s, side)
  {
    if s != [] {
      OneRunIsLossless(Front(s), side);
      if |s| == 1 {
        assert QtyOn(Front(s), side) == 0;
      }
    }
  }

  /** Within one run the stored average is the rounded mean of all ENTRY fills, ties included. */
  lemma SingleRunMeetsRule(s: History, side: Side)
    requires forall i :: 0 < i < |s| ==> !s[i].startsRun
    ensures MeetsRule(s, side)
  {
    OneRunIsLossless(s, side);
    RuleHoldsWithoutLoss(s, side);
  }

  /** Rebuilding the accumulated value from the stored average loses nothing exactly when the
      quantity divides it. */
  lemma ResumeIsExactIff(value: int, qty: int)
    requires qty > 0
    ensures RoundDiv(value, qty) * qty == value <==> value % qty == 0
  {
    hide RoundDiv;
    if value % qty == 0 {
      assert value == (value / qty) * qty;
      RoundDivExact(value / qty, qty);
    } else if RoundDiv(value, qty) * qty == value {
      ModOfMultiple(RoundDiv(value, qty), qty);
      assert false;
    }
  }

  lemma ModOfMultiple(q: int, d: int)
    requires d > 0
    ensures (q * d) % d == 0
  {
    var n := q * d;
    assert n == d * (n / d) + n % d;
    var m := n / d;
    if m < q {
      MulStep(m, q, d);
    } else if q < m {
      MulStep(q, m, d);
    }
  }

  /** x lies strictly nearer to c * d than to any other multiple of d. */
  lemma RoundsTo(x: int, d: int, c: int)
    requires d > 0 && 2 * Abs(x - c * d) < d
    ensures RoundDiv(x, d) == c
  {
    hide RoundDiv;
    RoundDivUnique(x, d, c);
  }

  /** The next fill that separates two accumulated values: with k large, a quantity and a price that
      carry one value up to just below a half and the other to just above it. */
  function WitnessQty(k: nat, q: nat): int {
    2 * k * q + 1 - q
  }

  /** A multiple of d plus half - lo carries lo to just below the half and what lies above lo to just above. */
  lemma Straddle(lo: int, hi: int, half: int, c: int, x: int)
    requires lo < hi <= lo + half && x == c * (2 * half + 1) + half - lo
    ensures RoundDiv(lo + x, 2 * half + 1) == c && RoundDiv(hi + x, 2 * half + 1) == c + 1
  {
    hide RoundDiv;
    var d := 2 * half + 1;
    RoundsTo(lo + x, d, c);
    assert (c + 1) * d == c * d + d;
    RoundsTo(hi + x, d, c + 1);
  }

  lemma WitnessSplits(lo: int, hi: int, q: nat, k: nat)
    requires q > 0 && lo < hi && k > Abs(lo) + Abs(hi)
    ensures var n, p := WitnessQty(k, q), 2 * k * (k * q - lo);
            n > 0 && p > 0 && RoundDiv(lo + n * p, q + n) != RoundDiv(hi + n * p, q + n)
  {
    hide RoundDiv;
    var half := k * q;
    MulMonotone(k, k, 1, q);
    MulMonotone(1, k, q, q);
    assert 2 * k * q == 2 * half;
    assert half >= k && half >= q;
    var j := half - lo;
    MulMonotone(1, 2 * k, j, j);
    WitnessProduct(k, q, j);
    Straddle(lo, hi, half, (2 * k - 1) * j, WitnessQty(k, q) * (2 * k * j));
  }

  /** n * p leaves remainder j modulo q + n. */
  lemma WitnessProduct(k: int, q: int, j: int)
    ensures (2 * k * q + 1 - q) * (2 * k * j) == ((2 * k - 1) * j) * (2 * k * q + 1) + j
  {
    calc {
      (2 * k * q + 1 - q) * (2 * k * j);
      (2 * k * q + 1) * (2 * k * j) - q * (2 * k * j);
      { assert q * (2 * k * j) == (2 * k * q) * j; }
      (2 * k * q + 1) * (2 * k * j) - (2 * k * q) * j;
      { assert (2 * k * q + 1) * j == (2 * k * q) * j + j; }
      (2 * k * q + 1) * (2 * k * j) - (2 * k * q + 1) * j + j;
      { assert (2 * k * q + 1) * (2 * k * j - j) == (2 * k * q + 1) * (2 * k * j) - (2 * k * q + 1) * j; }
      (2 * k * q + 1) * (2 * k * j - j) + j;
      { assert (2 * k - 1) * j == 2 * k * j - j; }
      ((2 * k - 1) * j) * (2 * k * q + 1) + j;
    }
  }

  /** Some ENTRY fill rounds to two different averages on top of two different values. */
  lemma SeparatingFill(a: int, b: int, qty: int) returns (n: int, p: int)
    requires a != b && qty > 0
    ensures n > 0 && p > 0 && RoundDiv(a + n * p, qty + n) != RoundDiv(b + n * p, qty + n)
  {
    hide RoundDiv;
    var lo, hi := if a < b then a else b, if a < b then b else a;
    var k := Abs(lo) + Abs(hi) + 1;
    n, p := WitnessQty(k, qty), 2 * k * (k * qty - lo);
    WitnessSplits(lo, hi, qty, k);
  }

  /** Of an accumulated value and quantity: whatever the next ENTRY fill, a resumed run stores the rounded
      mean of all, exactly when the quantity divides the value. */
  lemma ResumeAgreesIff(value: int, qty: int)
    requires qty > 0
    ensures (forall n, p :: n > 0 && p > 0 ==>
               RoundDiv(RoundDiv(value, qty) * qty + n * p, qty + n) == RoundDiv(value + n * p, qty + n))
            <==> value % qty == 0
  {
    hide RoundDiv;
    ResumeIsExactIff(value, qty);
    if value % qty != 0 {
      var n, p := SeparatingFill(RoundDiv(value, qty) * qty, value, qty);
    }
  }

  /** What a resumed run stores after its first ENTRY fill. */
  lemma NextEntry(s: History, p: Processed, side: Side)
    requires p.startsRun && p.fill.side == side
    ensures QtyOn(s + [p], side) == QtyOn(s, side) + p.fill.quantity
    ensures ValueOn(s + [p], side) == ValueOn(s, side) + p.fill.quantity * p.fill.price
    ensures Accumulate(s + [p], side).average ==
              RoundDiv(Accumulate(s, side).average * QtyOn(s, side) + p.fill.quantity * p.fill.price,
                       QtyOn(s, side) + p.fill.quantity)
  {
    hide RoundDiv, AfterFill;
    Snoc(s, p);
    EntryAfterResume(Accumulate(s, side), p, side);
  }

  lemma EntryAfterResume(before: Accumulators, p: Processed, side: Side)
    requires p.startsRun && p.fill.side == side
    ensures AfterFill(before, p, side).average ==
              RoundDiv(before.average * before.qty + p.fill.quantity * p.fill.price, before.qty + p.fill.quantity)
  {
    hide RoundDiv;
  }

  /** What a resumed run starts from is the money paid so far. */
  predicate ResumesExactly(s: History, side: Side) {
    Accumulate(s, side).average * QtyOn(s, side) == ValueOn(s, side)
  }

  lemma RuleKept(s: History, p: Processed, side: Side)
    requires ResumesExactly(s, side) && p.startsRun && p.fill.side == side
    ensures MeetsRule(s + [p], side)
  {
    hide RoundDiv, QtyOn, ValueOn, Accumulate;
    NextEntry(s, p, side);
  }

  /** A fill that makes the rule fail on resume. */
  lemma RuleBroken(s: History, side: Side) returns (p: Processed)
    requires !ResumesExactly(s, side) && QtyOn(s, side) > 0
    ensures p.startsRun && p.fill.side == side && !MeetsRule(s + [p], side)
  {
    hide RoundDiv, QtyOn, ValueOn, Accumulate;
    var n, price := SeparatingFill(Accumulate(s, side).average * QtyOn(s, side), ValueOn(s, side), QtyOn(s, side));
    p := Processed(Fill(0, 0, 0, 0, 0, 0, side, n, price, NRML, None, 0, false, ""), true, TradeMIS);
    NextEntry(s, p, side);
  }

  /** The exact condition for a resumed trade, however it was built, to keep the rule whatever its next ENTRY
      fill, something that can be checked before the run: the stored average times the quantity bought so far
      is the money paid for it. */
  lemma ResumedRuleHoldsIff(s: History, side: Side)
    requires QtyOn(s, side) > 0
    ensures (forall p: Processed :: p.startsRun && p.fill.side == side ==> MeetsRule(s + [p], side))
            <==> Accumulate(s, side).average * QtyOn(s, side) == ValueOn(s, side)
  {
    hide QtyOn, ValueOn, Accumulate, MeetsRule;
    if ResumesExactly(s, side) {
      forall p: Processed | p.startsRun && p.fill.side == side ensures MeetsRule(s + [p], side) {
        RuleKept(s, p, side);
      }
    } else {
      var p := RuleBroken(s, side);
    }
  }

  /** For a trade no earlier resume has put off its money: the quantity so far divides the money paid. */
  lemma LosslessResumeHoldsIff(s: History, side: Side)
    requires ResumesLossless(s, side) && QtyOn(s, side) > 0
    ensures (forall p: Processed :: p.startsRun && p.fill.side == side ==> MeetsRule(s + [p], side))
            <==> ValueOn(s, side) % QtyOn(s, side) == 0
  {
    hide RoundDiv, QtyOn, ValueOn, Accumulate, ResumesLossless;
    ResumedRuleHoldsIff(s, side);
    RuleHoldsWithoutLoss(s, side);
    ResumeIsExactIff(ValueOn(s, side), QtyOn(s, side));
  }

  /** The written rule that the entry average is always the rounded mean of all ENTRY fills fails
      once a run resumes on a rounded average: buying 1@1, 1@2 and 2@1 ticks in one run stores 1,
      while resuming before the third fill stores 2. */
  lemma ResumedAverageDiffers(a: Fill, b: Fill, c: Fill, t: TradeType)
    requires a.side == b.side == c.side == BUY
    requires a.quantity == b.quantity == 1 && c.quantity == 2
    requires a.price == 1 && b.price == 2 && c.price == 1
    ensures Accumulate([Processed(a, true, t), Processed(b, false, t), Processed(c, false, t)], BUY).average == 1
    ensures Accumulate([Processed(a, true, t), Processed(b, false, t), Processed(c, true, t)], BUY).average == 2
  {
    var none: History := [];
    var one := [Processed(a, true, t)];
    var two := one + [Processed(b, false, t)];
    Snoc(none, Processed(a, true, t));
    assert none + [Processed(a, true, t)] == one;
    assert Accumulate(one, BUY) == Accumulators(1, 1, 1);
    Snoc(one, Processed(b, false, t));
    assert Accumulate(two, BUY) == Accumulators(2, 3, 2);
    forall resumed: bool
      ensures Accumulate(two + [Processed(c, resumed, t)], BUY).average == if resumed then 2 else 1
    {
      Snoc(two, Processed(c, resumed, t));
    }
    assert two + [Processed(c, false, t)] == [Processed(a, true, t), Processed(b, false, t), Processed(c, false, t)];
    assert two + [Processed(c, true, t)] == [Processed(a, true, t), Processed(b, false, t), Processed(c, true, t)];
  }

  // ---------- what EntryRuns counts ----------

  /** A run starts after fill j and no later than fill i. */
  ghost predicate RunBetween(s: History, j: nat, i: nat) {
    exists k :: j < k <= i < |s| && s[k].startsRun
  }

  /** Fill i is the first ENTRY fill of its run. */
  ghost predicate FirstEntryOfRun(s: History, side: Side, i: nat) {
    i < |s| && s[i].fill.side == side && forall j: nat :: j < i && s[j].fill.side == side ==> RunBetween(s, j, i)
  }

  lemma {:induction false} NewRunMeans(s: History, side: Side)
    ensures NewRun(s, side) <==> forall j: nat :: j < |s| && s[j].fill.side == side ==> RunBetween(s, j, |s| - 1)
  {
    if s != [] {
      var front, n := Front(s), |s| - 1;
      NewRunMeans(front, side);
      forall j: nat | j < n ensures RunBetween(s, j, n) <==> RunBetween(front, j, n - 1) || s[n].startsRun {
        RunBetweenSnoc(s, j);
      }
      assert !RunBetween(s, n, n);
    }
  }

  lemma RunBetweenSnoc(s: History, j: nat)
    requires j < |s| - 1
    ensures RunBetween(s, j, |s| - 1) <==> RunBetween(Front(s), j, |s| - 2) || Last(s).startsRun
  {
    if k :| j < k <= |s| - 2 && Front(s)[k].startsRun {
      assert s[k].startsRun;
    }
    if k :| j < k <= |s| - 1 && s[k].startsRun {
      assert k < |s| - 1 ==> Front(s)[k].startsRun;
    }
  }

  lemma FirstEntryFront(s: History, side: Side, i: nat)
    requires i < |s| - 1
    ensures FirstEntryOfRun(s, side, i) <==> FirstEntryOfRun(Front(s), side, i)
  {
    forall j: nat | j < i ensures RunBetween(s, j, i) <==> RunBetween(Front(s), j, i) {
      assert forall k :: j < k <= i ==> s[k] == Front(s)[k];
    }
  }

  lemma LastIsFirstEntry(s: History, side: Side)
    requires s != []
    ensures FirstEntryOfRun(s, side, |s| - 1) <==>
              Last(s).fill.side == side && (NewRun(Front(s), side) || Last(s).startsRun)
  {
    hide NewRun;
    NewRunMeans(Front(s), side);
    var front, n := Front(s), |s| - 1;
    forall j: nat | j < n ensures RunBetween(s, j, n) <==> RunBetween(front, j, n - 1) || s[n].startsRun {
      RunBetweenSnoc(s, j);
    }
    assert forall j :: 0 <= j < |s| - 1 ==> Front(s)[j] == s[j];
  }

  /** EntryRuns counts the runs that processed an ENTRY fill of the segment, each by its first one. */
  lemma {:induction false} EntryRunsCounts(s: History, side: Side)
    ensures EntryRuns(s, side) == |set i: nat | i < |s| && FirstEntryOfRun(s, side, i)|
  {
    hide NewRun, FirstEntryOfRun, RunBetween;
    var firsts := set i: nat | i < |s| && FirstEntryOfRun(s, side, i);
    if s == [] {
      assert firsts == {};
    } else {
      var front, n := Front(s), |s| - 1;
      var firsts0 := set i: nat | i < n && FirstEntryOfRun(front, side, i);
      EntryRunsCounts(front, side);
      LastIsFirstEntry(s, side);
      FirstEntriesSnoc(s, side, firsts0, firsts);
    }
  }

  lemma FirstEntriesSnoc(s: History, side: Side, before: set<nat>, after: set<nat>)
    requires s != [] && before == set i: nat | i < |s| - 1 && FirstEntryOfRun(Front(s), side, i)
    requires after == set i: nat | i < |s| && FirstEntryOfRun(s, side, i)
    ensures after == before + if FirstEntryOfRun(s, side, |s| - 1) then {|s| - 1} else {}
    ensures |after| == |before| + if FirstEntryOfRun(s, side, |s| - 1) then 1 else 0
  {
    hide FirstEntryOfRun;
    var front, n := Front(s), |s| - 1;
    forall i: nat | i < n ensures FirstEntryOfRun(s, side, i) <==> FirstEntryOfRun(front, side, i) {
      FirstEntryFront(s, side, i);
    }
  }
}
