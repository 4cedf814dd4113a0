/** What the trade tables of one processing unit must contain, as a function of the fills the
    engine has processed for it: the fill history is cut wherever the running position returns to
    zero, and every column of a trade row is computed from the fills of its segment alone. */
module Ledger {
  import opened Sequences
  import opened TradeTypes
  import opened FixedPoint

  /** One processed fill, with what the run that processed it contributed: whether the fill was
      the first of its run, and the provisional trade type the run was called with. */
  datatype Processed = Processed(fill: Fill, startsRun: bool, opensAs: TradeType)

  type History = seq<Processed>

  // ---------- sums over a history ----------

  function Position(h: History): int {
    if h == [] then 0 else Position(Front(h)) + Signed(Last(h).fill)
  }

  function QtyOn(h: History, side: Side): nat {
    if h == [] then 0 else QtyOn(Front(h), side) + if Last(h).fill.side == side then Last(h).fill.quantity else 0
  }

  function ValueOn(h: History, side: Side): int {
    if h == [] then 0
    else ValueOn(Front(h), side) + if Last(h).fill.side == side then Last(h).fill.quantity * Last(h).fill.price else 0
  }

  lemma {:induction false} NoQtyNoValue(h: History, side: Side)
    requires QtyOn(h, side) == 0
    ensures ValueOn(h, side) == 0
  {
    if h != [] {
      NoQtyNoValue(Front(h), side);
    }
  }

  lemma {:induction false} PositionIsBoughtLessSold(h: History)
    ensures Position(h) == QtyOn(h, BUY) - QtyOn(h, SELL)
  {
    if h != [] {
      PositionIsBoughtLessSold(Front(h));
    }
  }

  lemma {:induction false} PositionConcat(a: History, b: History)
    ensures Position(a + b) == Position(a) + Position(b)
  {
    if b == [] {
      assert a + b == a;
    } else {
      assert Front(a + b) == a + Front(b) && Last(a + b) == Last(b);
      PositionConcat(a, Front(b));
    }
  }

  // ---------- cutting a history into trades ----------

  /** Adds one fill: it opens a trade when the unit is flat and joins the open trade otherwise. */
  function Extend(segments: seq<History>, p: Processed): seq<History> {
    if segments == [] || Position(Last(segments)) == 0 then segments + [[p]]
    else Front(segments) + [Last(segments) + [p]]
  }

  function Segments(h: History): seq<History> {
    if h == [] then [] else Extend(Segments(Front(h)), Last(h))
  }

  lemma SegmentsSnoc(h: History, p: Processed)
    ensures Segments(h + [p]) == Extend(Segments(h), p)
  {
    Snoc(h, p);
  }

  function Flatten(segments: seq<History>): History {
    if segments == [] then [] else Flatten(Front(segments)) + Last(segments)
  }

  /** Non-empty, and the running sum is non-zero at every proper prefix. */
  ghost predicate Uncut(s: History) {
    |s| > 0 && forall i :: 0 < i < |s| ==> Position(s[..i]) != 0
  }

  /** The declarative reading of "cut at the zeros of the signed prefix sum". */
  ghost predicate CutAtZeros(segments: seq<History>, h: History) {
    && Flatten(segments) == h
    && (forall k :: 0 <= k < |segments| ==> Uncut(segments[k]))
    && (forall k :: 0 <= k < |segments| - 1 ==> Position(segments[k]) == 0)
  }

  lemma UncutGrow(s: History, p: Processed)
    requires Uncut(s) && Position(s) != 0
    ensures Uncut(s + [p])
  {
    var grown := s + [p];
    assert grown[..|s|] == s;
    forall i | 0 < i < |grown| ensures Position(grown[..i]) != 0 {
      if i < |s| {
        assert grown[..i] == s[..i];
      }
    }
  }

  lemma FlattenSnoc(segments: seq<History>, s: History)
    ensures Flatten(segments + [s]) == Flatten(segments) + s
  {
    Snoc(segments, s);
  }

  lemma ExtendCut(segments: seq<History>, h: History, p: Processed)
    requires CutAtZeros(segments, h)
    ensures CutAtZeros(Extend(segments, p), h + [p])
  {
    if segments == [] || Position(Last(segments)) == 0 {
      FlattenSnoc(segments, [p]);
    } else {
      var open, earlier := Last(segments), Front(segments);
      assert segments == earlier + [open];
      FlattenSnoc(earlier, open);
      FlattenSnoc(earlier, open + [p]);
      assert Flatten(earlier) + (open + [p]) == h + [p];
      assert Uncut(segments[|segments| - 1]);
      UncutGrow(open, p);
    }
  }

  lemma {:induction false} SegmentsCutAtZeros(h: History)
    ensures CutAtZeros(Segments(h), h)
  {
    if h != [] {
      SegmentsCutAtZeros(Front(h));
      assert h == Front(h) + [Last(h)];
      ExtendCut(Segments(Front(h)), Front(h), Last(h));
    }
  }

  /** The cut of a history with its last fill taken away again. */
  lemma UncutFront(s: History)
    requires |s| > 1 && Uncut(s)
    ensures Uncut(Front(s)) && Position(Front(s)) != 0
  {
    assert s[..|s| - 1] == Front(s);
    forall i | 0 < i < |Front(s)| ensures Position(Front(s)[..i]) != 0 {
      assert Front(s)[..i] == s[..i];
    }
  }

  function Unextend(segments: seq<History>): seq<History>
    requires |segments| > 0 && |Last(segments)| > 0
  {
    if |Last(segments)| == 1 then Front(segments) else Front(segments) + [Front(Last(segments))]
  }

  lemma UnextendFlatten(segments: seq<History>)
    requires |segments| > 0 && |Last(segments)| > 0
    ensures var h := Flatten(segments);
            |h| > 0 && Last(h) == Last(Last(segments)) && Flatten(Unextend(segments)) == Front(h)
  {
    var s, before := Last(segments), Front(segments);
    assert s == Front(s) + [Last(s)];
    Snoc(Flatten(before) + Front(s), Last(s));
    assert Flatten(segments) == (Flatten(before) + Front(s)) + [Last(s)];
    if |s| == 1 {
      assert Flatten(before) + Front(s) == Flatten(before);
    } else {
      FlattenSnoc(before, Front(s));
    }
  }

  lemma UnextendCut(segments: seq<History>, h: History)
    requires |segments| > 0 && CutAtZeros(segments, h)
    ensures |h| > 0 && CutAtZeros(Unextend(segments), Front(h))
    ensures segments == Extend(Unextend(segments), Last(h))
  {
    var s, before := segments[|segments| - 1], Front(segments);
    assert Uncut(s) && segments == before + [s] && s == Front(s) + [Last(s)];
    UnextendFlatten(segments);
    if |s| > 1 {
      UncutFront(s);
      Snoc(before, Front(s));
    }
  }

  /** There is only one way to cut a history at its zeros. */
  lemma {:induction false} SegmentsUnique(segments: seq<History>, h: History)
    requires CutAtZeros(segments, h)
    ensures segments == Segments(h)
    decreases |h|
  {
    if segments != [] {
      assert Uncut(Last(segments));
      UnextendCut(segments, h);
      SegmentsUnique(Unextend(segments), Front(h));
    }
  }

  // ---------- one trade, from the fills of its segment ----------

  function EntrySide(s: History): Side
    requires |s| > 0
  {
    s[0].fill.side
  }

  function EntryQty(s: History): nat
    requires |s| > 0
  {
    QtyOn(s, EntrySide(s))
  }

  function ExitQty(s: History): nat
    requires |s| > 0
  {
    QtyOn(s, Opposite(EntrySide(s)))
  }

  function Net(s: History): int
    requires |s| > 0
  {
    EntryQty(s) - ExitQty(s)
  }

  function RoleIn(s: History, fill: Fill): Role
    requires |s| > 0
  {
    RoleFor(DirectionForFirstFill(EntrySide(s)), fill.side)
  }

  lemma {:induction false} EntryQtyPositive(s: History)
    requires |s| > 0
    ensures EntryQty(s) > 0
  {
    if |s| > 1 {
      EntryQtyPositive(Front(s));
    }
  }

  lemma PositionOfSegment(s: History)
    requires |s| > 0
    ensures Position(s) == if EntrySide(s) == BUY then Net(s) else -Net(s)
  {
    PositionIsBoughtLessSold(s);
  }

  /** The engine's entry accumulators after the fills of a segment, replaying what each run does:
      a resumed run rebuilds the value from the stored, already rounded, average. */
  datatype Accumulators = Accumulators(qty: nat, value: int, average: int)

  function AfterFill(before: Accumulators, p: Processed, side: Side): (acc: Accumulators) {
    var value := if p.startsRun then before.average * before.qty else before.value;
    if p.fill.side == side then
      var grown := value + p.fill.quantity * p.fill.price;
      var qty := before.qty + p.fill.quantity;
      Accumulators(qty, grown, RoundDiv(grown, qty))
    else
      Accumulators(before.qty, value, before.average)
  }

  function Accumulate(s: History, side: Side): (acc: Accumulators)
    ensures acc.qty == QtyOn(s, side)
  {
    if s == [] then Accumulators(0, 0, 0) else AfterFill(Accumulate(Front(s), side), Last(s), side)
  }

  function LastExitAt(s: History, entrySide: Side): Option<int> {
    if s == [] then None
    else if Last(s).fill.side != entrySide then Some(Last(s).fill.timestamp)
    else LastExitAt(Front(s), entrySide)
  }

  function StatusOf(entered: int, exited: int): Status {
    if entered == exited then CLOSED else if exited == 0 then OPEN else PARTIAL
  }

  function AverageExit(s: History): int
    requires |s| > 0 && Net(s) == 0
  {
    EntryQtyPositive(s);
    RoundDiv(ValueOn(s, Opposite(EntrySide(s))), ExitQty(s))
  }

  /** The trade row a segment must have. */
  function Row(u: Unit, s: History): TradeRow
    requires |s| > 0
  {
    var first, closed := s[0].fill, Net(s) == 0;
    TradeRow(u.user, u.account, u.instrument,
             if closed then FinalizeTradeType(s[0].opensAs, first.tradeDate, Last(s).fill.tradeDate) else s[0].opensAs,
             DirectionForFirstFill(first.side), StatusOf(EntryQty(s), ExitQty(s)),
             first.tradeDate, first.timestamp, LastExitAt(s, first.side),
             EntryQty(s), ExitQty(s), Net(s),
             Accumulate(s, first.side).average, if closed then Some(AverageExit(s)) else None)
  }

  function LotStatusOf(entered: int, exited: int): LotStatus {
    if entered == exited then LotClosed else if exited == 0 then LotOpen else LotPartiallyClosed
  }

  /** The tax lot of a delivery trade: in lockstep with the trade row. */
  function LotOf(u: Unit, s: History): LotRow
    requires |s| > 0
  {
    LotRow(u.user, u.instrument, s[0].fill.tradeDate, EntryQty(s), Net(s),
           Accumulate(s, EntrySide(s)).average, LotStatusOf(EntryQty(s), ExitQty(s)))
  }

  // ---------- position crossing zero ----------

  predicate Crosses(before: int, after: int) {
    (before > 0 && after < 0) || (before < 0 && after > 0)
  }

  /** No fill of the history takes the running position strictly across zero. */
  ghost predicate Clean(h: History) {
    h == [] || (Clean(Front(h)) && !Crosses(Position(Front(h)), Position(h)))
  }

  predicate StepCrosses(h: History, i: nat)
    requires i < |h|
  {
    Crosses(Position(h[..i]), Position(h[..i + 1]))
  }

  lemma {:induction false} CleanIsEveryStep(h: History)
    ensures Clean(h) <==> forall i :: 0 <= i < |h| ==> !StepCrosses(h, i)
  {
    if h != [] {
      var n := |h| - 1;
      CleanIsEveryStep(Front(h));
      assert h[..n] == Front(h) && h[..n + 1] == h;
      assert StepCrosses(h, n) <==> Crosses(Position(Front(h)), Position(h));
      forall i | 0 <= i < n ensures StepCrosses(h, i) <==> StepCrosses(Front(h), i) {
        assert h[..i] == Front(h)[..i] && h[..i + 1] == Front(h)[..i + 1];
      }
    }
  }

  /** A trade never exits more than it has entered, and only its last fill may close it. */
  ghost predicate IsTrade(s: History) {
    |s| > 0 && Net(s) >= 0 && (|s| > 1 ==> IsTrade(Front(s)) && Net(Front(s)) > 0)
  }

  lemma NetSnoc(s: History, p: Processed)
    requires |s| > 0
    ensures EntrySide(s + [p]) == EntrySide(s)
    ensures EntryQty(s + [p]) == EntryQty(s) + if p.fill.side == EntrySide(s) then p.fill.quantity else 0
    ensures ExitQty(s + [p]) == ExitQty(s) + if p.fill.side == EntrySide(s) then 0 else p.fill.quantity
  {
    Snoc(s, p);
  }

  lemma OneFillTrade(p: Processed)
    ensures IsTrade([p]) && EntryQty([p]) == p.fill.quantity && ExitQty([p]) == 0
  {
    var h: History := [];
    assert h + [p] == [p];
    Snoc(h, p);
    assert forall side :: QtyOn(h + [p], side) == QtyOn(h, side) + if p.fill.side == side then p.fill.quantity else 0;
  }

  ghost predicate Flat(segments: seq<History>) {
    segments == [] || (|Last(segments)| > 0 && Net(Last(segments)) == 0)
  }

  ghost predicate TradesInOrder(segments: seq<History>) {
    && (forall k :: 0 <= k < |segments| ==> IsTrade(segments[k]))
    && (forall k :: 0 <= k < |segments| - 1 ==> |segments[k]| > 0 && Net(segments[k]) == 0)
  }

  lemma {:induction false} SegmentsPosition(h: History)
    ensures forall k :: 0 <= k < |Segments(h)| ==> |Segments(h)[k]| > 0
    ensures Position(h) == if Segments(h) == [] then 0 else Position(Last(Segments(h)))
  {
    if h != [] {
      SegmentsPosition(Front(h));
      var before := Segments(Front(h));
      if before != [] && Position(Last(before)) != 0 {
        Snoc(Last(before), Last(h));
        Snoc(Front(before), Last(before) + [Last(h)]);
      } else {
        Snoc(before, [Last(h)]);
        Snoc([], Last(h));
      }
    }
  }

  lemma GrownTrade(open: History, p: Processed)
    requires IsTrade(open) && Position(open) != 0 && !Crosses(Position(open), Position(open + [p]))
    ensures IsTrade(open + [p])
  {
    PositionOfSegment(open);
    PositionOfSegment(open + [p]);
    NetSnoc(open, p);
    Snoc(open, p);
  }

  lemma ExtendTrades(segments: seq<History>, p: Processed)
    requires TradesInOrder(segments)
    requires segments != [] && Position(Last(segments)) != 0 ==>
               !Crosses(Position(Last(segments)), Position(Last(segments) + [p]))
    ensures TradesInOrder(Extend(segments, p))
  {
    if segments == [] || Position(Last(segments)) == 0 {
      OneFillTrade(p);
      if segments != [] {
        PositionOfSegment(Last(segments));
      }
    } else {
      GrownTrade(Last(segments), p);
    }
  }

  /** A clean history is cut into trades, all but the last of them closed. */
  lemma {:induction false} CleanTrades(h: History)
    requires Clean(h)
    ensures TradesInOrder(Segments(h))
  {
    if h != [] {
      var before := Segments(Front(h));
      CleanTrades(Front(h));
      SegmentsPosition(Front(h));
      if before != [] {
        Snoc(Last(before), Last(h));
      }
      ExtendTrades(before, Last(h));
    }
  }

  /** The exact condition for a fill to be accepted after a clean history. */
  lemma CleanSnoc(h: History, p: Processed)
    requires Clean(h)
    ensures var segments := Segments(h);
            Clean(h + [p]) <==>
              (Flat(segments) || p.fill.side == EntrySide(Last(segments)) || p.fill.quantity <= Net(Last(segments)))
  {
    Snoc(h, p);
    CleanTrades(h);
    SegmentsPosition(h);
    if Segments(h) != [] {
      PositionOfSegment(Last(Segments(h)));
    }
  }

  lemma {:induction false} CleanPrefix(h: History, more: History)
    requires Clean(h + more)
    ensures Clean(h)
  {
    if more == [] {
      assert h + more == h;
    } else {
      assert Front(h + more) == h + Front(more);
      CleanPrefix(h, Front(more));
    }
  }

  // ---------- exit types ----------

  /** A fill that opens or adds to a position of this sign. */
  predicate Enters(position: int, fill: Fill) {
    position == 0 || (position > 0 <==> fill.side == BUY)
  }

  /** The schema lets a fill that carries an exit type play EXIT only. */
  ghost predicate ExitTypesOk(h: History) {
    h == [] || (ExitTypesOk(Front(h)) && !(Last(h).fill.exitTyped && Enters(Position(Front(h)), Last(h).fill)))
  }

  ghost predicate TypedFillsExit(s: History) {
    forall j :: 0 <= j < |s| && s[j].fill.exitTyped ==> RoleIn(s, s[j].fill) == EXIT
  }

  ghost predicate AllTypedFillsExit(segments: seq<History>) {
    forall k :: 0 <= k < |segments| ==> TypedFillsExit(segments[k])
  }

  lemma TypedFillsExitSnoc(s: History, p: Processed)
    requires |s| > 0
    ensures TypedFillsExit(s + [p]) <==> TypedFillsExit(s) && !(p.fill.exitTyped && p.fill.side == EntrySide(s))
  {
    var s' := s + [p];
    assert EntrySide(s') == EntrySide(s) && s'[|s|] == p;
    assert forall j :: 0 <= j < |s| ==> s'[j] == s[j];
  }

  lemma TypedFillsExitExtend(segments: seq<History>, p: Processed)
    requires TradesInOrder(segments)
    ensures var position := if segments == [] then 0 else Position(Last(segments));
            AllTypedFillsExit(Extend(segments, p)) <==>
              AllTypedFillsExit(segments) && !(p.fill.exitTyped && Enters(position, p.fill))
  {
    var grown := Extend(segments, p);
    if segments == [] || Position(Last(segments)) == 0 {
      assert forall k :: 0 <= k < |segments| ==> grown[k] == segments[k];
      assert grown[|segments|] == [p] && [p][0] == p;
    } else {
      var open := Last(segments);
      PositionOfSegment(open);
      TypedFillsExitSnoc(open, p);
      assert forall k :: 0 <= k < |segments| - 1 ==> grown[k] == segments[k];
      assert grown[|segments| - 1] == open + [p];
    }
  }

  /** In terms of the trades: no fill that carries an exit type plays ENTRY in its segment. */
  lemma {:induction false} ExitTypesAreRoles(h: History)
    requires Clean(h)
    ensures ExitTypesOk(h) <==> AllTypedFillsExit(Segments(h))
  {
    if h != [] {
      ExitTypesAreRoles(Front(h));
      CleanTrades(Front(h));
      SegmentsPosition(Front(h));
      TypedFillsExitExtend(Segments(Front(h)), Last(h));
    }
  }

  /** The histories the engine and the schema accept. */
  ghost predicate Accepted(h: History) {
    Clean(h) && ExitTypesOk(h)
  }

  lemma {:induction false} ExitTypesPrefix(h: History, more: History)
    requires ExitTypesOk(h + more)
    ensures ExitTypesOk(h)
  {
    if more == [] {
      assert h + more == h;
    } else {
      assert Front(h + more) == h + Front(more);
      ExitTypesPrefix(h, Front(more));
    }
  }

  // ---------- how many trades ----------

  function ZeroCount(h: History): nat {
    if h == [] then 0 else ZeroCount(Front(h)) + if Position(h) == 0 then 1 else 0
  }

  /** Every zero of the running position ends one trade; a non-zero tail is the one open trade. */
  lemma {:induction false} TradesAreZeros(h: History)
    ensures |Segments(h)| == ZeroCount(h) + if Position(h) == 0 then 0 else 1
  {
    if h != [] {
      TradesAreZeros(Front(h));
      SegmentsPosition(Front(h));
      SegmentsPosition(h);
    }
  }

  // ---------- the trades a list of further fills opens ----------

  lemma FrontFrom<T>(s: seq<T>, n: nat, x: T)
    requires n <= |s|
    ensures (s + [x])[n..] == s[n..] + [x]
    ensures n < |s| ==> s[n..] == Front(s)[n..] + [Last(s)]
  {
  }

  /** The trades opened after h hold, in order, the last of the fills that follow it: all from some fill m on. */
  lemma {:induction false} TradesOpenedAfter(h: History, more: History) returns (m: nat)
    ensures |Segments(h + more)| >= |Segments(h)| && m <= |more|
    ensures Flatten(Segments(h + more)[|Segments(h)|..]) == more[m..]
  {
    var n := |Segments(h)|;
    if more == [] {
      assert h + more == h;
      m := 0;
    } else {
      var front, p := Front(more), Last(more);
      assert h + more == (h + front) + [p] && more == front + [p];
      m := TradesOpenedAfter(h, front);
      SegmentsSnoc(h + front, p);
      m := ExtendOpened(Segments(h + front), n, front, m, p);
    }
  }

  lemma ExtendOpened(before: seq<History>, n: nat, front: History, m: nat, p: Processed) returns (m': nat)
    requires n <= |before| && m <= |front| && Flatten(before[n..]) == front[m..]
    ensures |Extend(before, p)| >= n && m' <= |front| + 1
    ensures Flatten(Extend(before, p)[n..]) == (front + [p])[m'..]
  {
    m' := m;
    if before == [] || Position(Last(before)) == 0 {
      FrontFrom(before, n, [p]);
      FlattenSnoc(before[n..], [p]);
    } else if n < |before| {
      var open, earlier := Last(before), Front(before);
      FrontFrom(before, n, open);
      FrontFrom(earlier, n, open + [p]);
      FlattenSnoc(earlier[n..], open);
      FlattenSnoc(earlier[n..], open + [p]);
      assert Flatten(earlier[n..]) + (open + [p]) == front[m..] + [p];
    } else {
      m' := |front| + 1;
    }
  }

  /** No fill of the history is later than one that follows it. */
  ghost predicate InTime(h: History) {
    forall i, j :: 0 <= i < j < |h| ==> h[i].fill.timestamp <= h[j].fill.timestamp
  }

  ghost predicate NoLater(a: History, b: History) {
    forall i, j :: 0 <= i < |a| && 0 <= j < |b| ==> a[i].fill.timestamp <= b[j].fill.timestamp
  }

  lemma InTimeConcat(a: History, b: History)
    requires InTime(a + b)
    ensures InTime(a) && InTime(b) && NoLater(a, b)
  {
    assert forall i :: 0 <= i < |a| ==> (a + b)[i] == a[i];
    assert forall j :: 0 <= j < |b| ==> (a + b)[|a| + j] == b[j];
  }

  lemma NoLaterConcat(a: History, b: History, c: History)
    requires NoLater(a + b, c)
    ensures NoLater(a, c) && NoLater(b, c)
  {
    assert forall i :: 0 <= i < |a| ==> (a + b)[i] == a[i];
    assert forall j :: 0 <= j < |b| ==> (a + b)[|a| + j] == b[j];
  }

  lemma {:induction false} PiecesNoLater(segments: seq<History>, c: History)
    requires NoLater(Flatten(segments), c)
    ensures forall k :: 0 <= k < |segments| ==> NoLater(segments[k], c)
  {
    hide NoLater;
    if segments != [] {
      NoLaterConcat(Flatten(Front(segments)), Last(segments), c);
      PiecesNoLater(Front(segments), c);
    }
  }

  /** Cut in pieces, a history in time has pieces in time, one after the other. */
  lemma {:induction false} PiecesInTime(segments: seq<History>)
    requires InTime(Flatten(segments))
    ensures forall k :: 0 <= k < |segments| ==> InTime(segments[k])
    ensures forall k, m :: 0 <= k < m < |segments| ==> NoLater(segments[k], segments[m])
  {
    hide InTime, NoLater;
    if segments != [] {
      InTimeConcat(Flatten(Front(segments)), Last(segments));
      PiecesInTime(Front(segments));
      PiecesNoLater(Front(segments), Last(segments));
    }
  }

  lemma {:induction false} PieceMembers(segments: seq<History>, k: nat)
    requires k < |segments|
    ensures forall p :: p in segments[k] ==> p in Flatten(segments)
  {
    if k < |segments| - 1 {
      PieceMembers(Front(segments), k);
    }
  }
}
