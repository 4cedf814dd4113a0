/** Batching independence: how a fill list is cut into runs leaves no trace in the ledger
    except in the entry average (and the tax lot's cost, which copies it). */
module Batching {
  import opened Sequences
  import opened TradeTypes
  import opened Ledger

  /** The history one run appends for the fills it fetched. */
  function Mark(fills: seq<Fill>, opensAs: TradeType): (h: History)
    ensures |h| == |fills|
  {
    seq(|fills|, i requires 0 <= i < |fills| => Processed(fills[i], i == 0, opensAs))
  }

  /** The history after one run per batch. */
  function Runs(batches: seq<seq<Fill>>, opensAs: TradeType): History {
    if batches == [] then [] else Runs(Front(batches), opensAs) + Mark(Last(batches), opensAs)
  }

  function Concat(batches: seq<seq<Fill>>): seq<Fill> {
    if batches == [] then [] else Concat(Front(batches)) + Last(batches)
  }

  /** A history with the run boundaries forgotten. */
  function Erase(h: History): (e: History)
    ensures |e| == |h|
    ensures forall i :: 0 <= i < |h| ==> e[i] == h[i].(startsRun := false)
  {
    seq(|h|, i requires 0 <= i < |h| => h[i].(startsRun := false))
  }

  lemma EraseFront(h: History)
    requires |h| > 0
    ensures Front(Erase(h)) == Erase(Front(h)) && Last(Erase(h)) == Last(h).(startsRun := false)
  {
  }

  function EraseAll(segments: seq<History>): (e: seq<History>)
    ensures |e| == |segments|
    ensures forall k :: 0 <= k < |segments| ==> e[k] == Erase(segments[k])
  {
    seq(|segments|, k requires 0 <= k < |segments| => Erase(segments[k]))
  }

  lemma {:induction false} EraseSums(h: History, side: Side)
    ensures Position(Erase(h)) == Position(h)
    ensures QtyOn(Erase(h), side) == QtyOn(h, side)
    ensures ValueOn(Erase(h), side) == ValueOn(h, side)
    ensures LastExitAt(Erase(h), side) == LastExitAt(h, side)
  {
    if h == [] {
      assert Erase(h) == h;
    } else {
      EraseFront(h);
      EraseSums(Front(h), side);
    }
  }

  lemma EraseExtend(segments: seq<History>, p: Processed)
    requires segments != [] ==> Position(Erase(Last(segments))) == Position(Last(segments))
    ensures EraseAll(Extend(segments, p)) == Extend(EraseAll(segments), p.(startsRun := false))
  {
    var q := p.(startsRun := false);
    if segments == [] || Position(Last(segments)) == 0 {
      assert Erase([p]) == [q];
      assert EraseAll(segments + [[p]]) == EraseAll(segments) + [[q]];
    } else {
      var grown := Last(segments) + [p];
      assert Erase(grown) == Erase(Last(segments)) + [q];
      assert EraseAll(Front(segments) + [grown]) == Front(EraseAll(segments)) + [Erase(grown)];
    }
  }

  lemma {:induction false} EraseSegments(h: History)
    ensures Segments(Erase(h)) == EraseAll(Segments(h))
  {
    if h == [] {
      assert Erase(h) == h;
    } else {
      EraseFront(h);
      EraseSegments(Front(h));
      var before := Segments(Front(h));
      if before != [] {
        EraseSums(Last(before), BUY);
      }
      EraseExtend(before, Last(h));
    }
  }

  lemma {:induction false} EraseClean(h: History)
    ensures Clean(Erase(h)) <==> Clean(h)
  {
    if h == [] {
      assert Erase(h) == h;
    } else {
      EraseFront(h);
      EraseClean(Front(h));
      EraseSums(h, BUY);
      EraseSums(Front(h), BUY);
    }
  }

  lemma {:induction false} EraseExitTypes(h: History)
    ensures ExitTypesOk(Erase(h)) <==> ExitTypesOk(h)
  {
    if h == [] {
      assert Erase(h) == h;
    } else {
      EraseFront(h);
      EraseExitTypes(Front(h));
      EraseSums(Front(h), BUY);
    }
  }

  /** Run boundaries reach no column of a trade row but the entry average. */
  lemma EraseRow(u: Unit, s: History)
    requires |s| > 0
    ensures Row(u, Erase(s)).(averageEntry := 0) == Row(u, s).(averageEntry := 0)
    ensures LotOf(u, Erase(s)).(cost := 0) == LotOf(u, s).(cost := 0)
  {
    EraseSums(s, BUY);
    EraseSums(s, SELL);
  }

  /** Two histories that list the same fills, cut into runs in any two ways, are accepted or
      refused together and give the same trades, roles, exit averages and lots. */
  lemma BatchingIndependence(u: Unit, h: History, g: History)
    requires Erase(h) == Erase(g)
    ensures Accepted(h) <==> Accepted(g)
    ensures |Segments(h)| == |Segments(g)|
    ensures forall k :: 0 <= k < |Segments(h)| ==> SameTrade(u, Segments(h)[k], Segments(g)[k])
  {
    hide Clean, ExitTypesOk;
    EraseClean(h);
    EraseClean(g);
    EraseExitTypes(h);
    EraseExitTypes(g);
    EraseSegments(h);
    EraseSegments(g);
    SegmentsPosition(h);
    SegmentsPosition(g);
    hide Segments, SameTrade, Erase;
    forall k | 0 <= k < |Segments(h)| ensures SameTrade(u, Segments(h)[k], Segments(g)[k]) {
      assert Erase(Segments(h)[k]) == EraseAll(Segments(h))[k] == Erase(Segments(g)[k]);
      ErasedSameTrade(u, Segments(h)[k], Segments(g)[k]);
    }
  }

  lemma ErasedSameTrade(u: Unit, s: History, t: History)
    requires |s| > 0 && Erase(s) == Erase(t)
    ensures SameTrade(u, s, t)
  {
    hide Row, LotOf;
    EraseRow(u, s);
    EraseRow(u, t);
    forall i | 0 <= i < |s| ensures s[i].fill == t[i].fill {
      assert Erase(s)[i].fill == s[i].fill && Erase(t)[i].fill == t[i].fill;
    }
  }

  ghost predicate SameTrade(u: Unit, s: History, t: History) {
    && |s| > 0 && |s| == |t|
    && (forall i :: 0 <= i < |s| ==> s[i].fill == t[i].fill && RoleIn(s, s[i].fill) == RoleIn(t, t[i].fill))
    && Row(u, s).(averageEntry := 0) == Row(u, t).(averageEntry := 0)
    && LotOf(u, s).(cost := 0) == LotOf(u, t).(cost := 0)
  }

  lemma {:induction false} RunsEraseToOneRun(batches: seq<seq<Fill>>, opensAs: TradeType)
    ensures Erase(Runs(batches, opensAs)) == Erase(Mark(Concat(batches), opensAs))
  {
    if batches != [] {
      RunsEraseToOneRun(Front(batches), opensAs);
      var a, b := Concat(Front(batches)), Last(batches);
      assert Erase(Runs(batches, opensAs)) == Erase(Runs(Front(batches), opensAs)) + Erase(Mark(b, opensAs));
      assert Erase(Mark(a + b, opensAs)) == Erase(Mark(a, opensAs)) + Erase(Mark(b, opensAs));
    }
  }

  /** Any number of consecutive runs, on top of any earlier history, against one run. */
  lemma ManyRunsOrOne(u: Unit, past: History, batches: seq<seq<Fill>>, opensAs: TradeType)
    ensures var many, one := past + Runs(batches, opensAs), past + Mark(Concat(batches), opensAs);
            && (Accepted(many) <==> Accepted(one))
            && |Segments(many)| == |Segments(one)|
            && forall k :: 0 <= k < |Segments(many)| ==> SameTrade(u, Segments(many)[k], Segments(one)[k])
  {
    var many, one := past + Runs(batches, opensAs), past + Mark(Concat(batches), opensAs);
    RunsEraseToOneRun(batches, opensAs);
    assert Erase(many) == Erase(past) + Erase(Runs(batches, opensAs));
    assert Erase(one) == Erase(past) + Erase(Mark(Concat(batches), opensAs));
    BatchingIndependence(u, many, one);
  }
}
