/** The tables as one value, and the invariant that ties them to the processed history: each
    unit's trade rows, fill assignments and tax lots are exactly what its history dictates. */
module Store {
  import opened Sequences
  import opened TradeTypes
  import opened Ledger

  /** The tables, together with each unit's processed history and the ids of its trades in the
      order they were opened. */
  datatype Tables = Tables(trades: map<TradeId, TradeRow>, fills: map<FillId, FillRow>,
                           lots: map<TradeId, LotRow>, nextTrade: TradeId,
                           history: map<Unit, History>, ids: map<Unit, seq<TradeId>>)
  {
    function Hist(u: Unit): History {
      if u in history then history[u] else []
    }

    function Ids(u: Unit): seq<TradeId> {
      if u in ids then ids[u] else []
    }
  }

  // ---------- one trade ----------

  ghost predicate InUnit(u: Unit, p: Processed) {
    && FillInUnit(u, p.fill)
    && ProductFromTradeType(p.opensAs) == u.product
  }

  predicate FillInUnit(u: Unit, f: Fill) {
    f.user == u.user && f.account == u.account && f.instrument == u.instrument && f.product == u.product
  }

  ghost predicate InSegment(s: History, f: FillId) {
    exists j :: 0 <= j < |s| && s[j].fill.id == f
  }

  ghost predicate NoRepeats(s: History) {
    forall i, j :: 0 <= i < j < |s| ==> s[i].fill.id != s[j].fill.id
  }

  /** The row a fill has once it is assigned: trade and role set together. */
  function AssignedRow(s: History, id: TradeId, f: Fill): FillRow
    requires |s| > 0
  {
    FillRow(f, Some(id), Some(RoleIn(s, f)))
  }

  /** The trade row is the row of its segment, and the fills assigned to it are its segment's,
      each once and each with the role its side dictates. */
  ghost predicate TradeOk(u: Unit, s: History, id: TradeId, trades: map<TradeId, TradeRow>,
                          fills: map<FillId, FillRow>) {
    && IsTrade(s) && NoRepeats(s)
    && id in trades && trades[id] == Row(u, s)
    && (forall j :: 0 <= j < |s| ==> InUnit(u, s[j]) && s[j].fill.id in fills &&
                                     fills[s[j].fill.id] == AssignedRow(s, id, s[j].fill))
    && (forall f :: f in fills && fills[f].trade == Some(id) ==> InSegment(s, f))
  }

  lemma RowUnit(u: Unit, s: History)
    requires |s| > 0 && InUnit(u, s[0])
    ensures UnitOfRow(Row(u, s)) == u
  {
  }

  /** Assigning a fresh fill elsewhere leaves a trade as it was. */
  lemma TradeFrame(u: Unit, s: History, id: TradeId, trades: map<TradeId, TradeRow>, fills: map<FillId, FillRow>,
                   trades': map<TradeId, TradeRow>, f: FillId, row: FillRow)
    requires TradeOk(u, s, id, trades, fills)
    requires id in trades' && trades'[id] == trades[id]
    requires f in fills && fills[f].trade.None? && row.trade != Some(id)
    ensures TradeOk(u, s, id, trades', fills[f := row])
  {
    var fills' := fills[f := row];
    forall j | 0 <= j < |s| ensures s[j].fill.id in fills' && fills'[s[j].fill.id] == AssignedRow(s, id, s[j].fill) {
      assert s[j].fill.id != f;
    }
  }

  lemma TradeGrow(u: Unit, s: History, p: Processed, id: TradeId, trades: map<TradeId, TradeRow>,
                  fills: map<FillId, FillRow>)
    requires TradeOk(u, s, id, trades, fills)
    requires InUnit(u, p) && IsTrade(s + [p])
    requires p.fill.id in fills && fills[p.fill.id].trade.None?
    ensures TradeOk(u, s + [p], id, trades[id := Row(u, s + [p])],
                    fills[p.fill.id := AssignedRow(s + [p], id, p.fill)])
  {
    var s', fills' := s + [p], fills[p.fill.id := AssignedRow(s + [p], id, p.fill)];
    forall j | 0 <= j < |s| ensures s[j].fill.id != p.fill.id {
    }
    forall j | 0 <= j < |s'|
      ensures InUnit(u, s'[j]) && s'[j].fill.id in fills' && fills'[s'[j].fill.id] == AssignedRow(s', id, s'[j].fill)
    {
      if j < |s| {
        assert s'[j] == s[j];
      }
    }
    forall f | f in fills' && fills'[f].trade == Some(id) ensures InSegment(s', f) {
      if f == p.fill.id {
        assert s'[|s|].fill.id == f;
      } else {
        assert InSegment(s, f);
        var j :| 0 <= j < |s| && s[j].fill.id == f;
        assert s'[j].fill.id == f;
      }
    }
  }

  lemma TradeStart(u: Unit, p: Processed, id: TradeId, trades: map<TradeId, TradeRow>, fills: map<FillId, FillRow>)
    requires InUnit(u, p) && p.fill.id in fills
    requires forall f :: f in fills ==> fills[f].trade != Some(id)
    ensures TradeOk(u, [p], id, trades[id := Row(u, [p])], fills[p.fill.id := AssignedRow([p], id, p.fill)])
  {
    OneFillTrade(p);
    assert [p][0].fill.id == p.fill.id;
  }

  // ---------- all trades ----------

  ghost predicate DistinctIds(ids: seq<TradeId>) {
    forall i, j :: 0 <= i < j < |ids| ==> ids[i] != ids[j]
  }

  ghost predicate TradesOk(u: Unit, segments: seq<History>, ids: seq<TradeId>,
                           trades: map<TradeId, TradeRow>, fills: map<FillId, FillRow>) {
    && |ids| == |segments| && DistinctIds(ids)
    && forall k :: 0 <= k < |ids| ==> TradeOk(u, segments[k], ids[k], trades, fills)
  }

  ghost predicate UnitOk(s: Tables, u: Unit) {
    Accepted(s.Hist(u)) && TradesOk(u, Segments(s.Hist(u)), s.Ids(u), s.trades, s.fills)
  }

  lemma TradesOpen(u: Unit, segments: seq<History>, ids: seq<TradeId>, p: Processed, id: TradeId,
                   trades: map<TradeId, TradeRow>, fills: map<FillId, FillRow>)
    requires TradesOk(u, segments, ids, trades, fills)
    requires id !in trades && forall f :: f in fills ==> fills[f].trade != Some(id)
    requires InUnit(u, p) && p.fill.id in fills && fills[p.fill.id].trade.None?
    ensures TradesOk(u, segments + [[p]], ids + [id], trades[id := Row(u, [p])],
                     fills[p.fill.id := AssignedRow([p], id, p.fill)])
  {
    var trades', row := trades[id := Row(u, [p])], AssignedRow([p], id, p.fill);
    TradeStart(u, p, id, trades, fills);
    forall k | 0 <= k < |ids|
      ensures ids[k] != id && TradeOk(u, segments[k], ids[k], trades', fills[p.fill.id := row])
    {
      assert TradeOk(u, segments[k], ids[k], trades, fills);
      TradeFrame(u, segments[k], ids[k], trades, fills, trades', p.fill.id, row);
    }
  }

  lemma TradesGrow(u: Unit, earlier: seq<History>, open: History, ids: seq<TradeId>, p: Processed,
                   trades: map<TradeId, TradeRow>, fills: map<FillId, FillRow>)
    requires TradesOk(u, earlier + [open], ids, trades, fills) && IsTrade(open + [p])
    requires InUnit(u, p) && p.fill.id in fills && fills[p.fill.id].trade.None?
    ensures |ids| > 0
    ensures TradesOk(u, earlier + [open + [p]], ids, trades[Last(ids) := Row(u, open + [p])],
                     fills[p.fill.id := AssignedRow(open + [p], Last(ids), p.fill)])
  {
    var segments, n := earlier + [open], |ids| - 1;
    var trades', row := trades[ids[n] := Row(u, open + [p])], AssignedRow(open + [p], ids[n], p.fill);
    assert TradeOk(u, segments[n], ids[n], trades, fills);
    TradeGrow(u, open, p, ids[n], trades, fills);
    forall k | 0 <= k < n ensures TradeOk(u, earlier[k], ids[k], trades', fills[p.fill.id := row]) {
      assert TradeOk(u, segments[k], ids[k], trades, fills);
      TradeFrame(u, segments[k], ids[k], trades, fills, trades', p.fill.id, row);
    }
  }

  ghost predicate TradeOwned(s: Tables, t: TradeId)
    requires t in s.trades
  {
    t < s.nextTrade && t in s.Ids(UnitOfRow(s.trades[t]))
  }

  ghost predicate FillOk(s: Tables, f: FillId)
    requires f in s.fills
  {
    && s.fills[f].fill.id == f
    && (s.fills[f].trade.Some? <==> s.fills[f].role.Some?)
    && (s.fills[f].trade.Some? ==> s.fills[f].trade.value in s.trades)
  }

  ghost predicate TablesOk(s: Tables) {
    match s
    case Tables(trades, fills, _, _, history, ids) =>
      && (forall u :: u in history || u in ids ==> UnitOk(s, u))
      && (forall t :: t in trades ==> TradeOwned(s, t))
      && (forall f :: f in fills ==> FillOk(s, f))
  }

  lemma UnitAlwaysOk(s: Tables, u: Unit)
    requires TablesOk(s)
    ensures UnitOk(s, u)
  {
  }

  lemma IdBelongs(s: Tables, u: Unit, k: nat)
    requires TablesOk(s) && k < |s.Ids(u)|
    ensures s.Ids(u)[k] in s.trades && UnitOfRow(s.trades[s.Ids(u)[k]]) == u && s.Ids(u)[k] < s.nextTrade
  {
    UnitAlwaysOk(s, u);
    var segment := Segments(s.Hist(u))[k];
    assert TradeOk(u, segment, s.Ids(u)[k], s.trades, s.fills);
    RowUnit(u, segment);
    assert TradeOwned(s, s.Ids(u)[k]);
  }

  /** Units other than the one being processed keep their trades. */
  lemma OtherUnitOk(s: Tables, s': Tables, u: Unit, v: Unit, id: TradeId, f: FillId)
    requires TablesOk(s) && u != v
    requires id in s.trades ==> UnitOfRow(s.trades[id]) == u
    requires f in s.fills && s.fills[f].trade.None?
    requires id in s'.trades && s'.trades == s.trades[id := s'.trades[id]]
    requires f in s'.fills && s'.fills == s.fills[f := s'.fills[f]] && s'.fills[f].trade == Some(id)
    requires s'.Hist(v) == s.Hist(v) && s'.Ids(v) == s.Ids(v)
    ensures UnitOk(s', v)
  {
    UnitAlwaysOk(s, v);
    var segments, ids := Segments(s.Hist(v)), s.Ids(v);
    forall k | 0 <= k < |ids| ensures TradeOk(v, segments[k], ids[k], s'.trades, s'.fills) {
      IdBelongs(s, v, k);
      TradeFrame(v, segments[k], ids[k], s.trades, s.fills, s'.trades, f, s'.fills[f]);
    }
  }

  /** The tables after one more fill p of unit u, given the segment it now belongs to. */
  ghost predicate Booked(s: Tables, s': Tables, u: Unit, p: Processed, segment: History, ids: seq<TradeId>) {
    && |segment| > 0 && |ids| > 0
    && s'.trades == s.trades[Last(ids) := Row(u, segment)]
    && s'.fills == s.fills[p.fill.id := AssignedRow(segment, Last(ids), p.fill)]
    && s'.history == s.history[u := s.Hist(u) + [p]]
    && s'.ids == s.ids[u := ids]
  }

  /** A fill the engine may book: of the unit, unassigned, and not taking the position across zero. */
  ghost predicate Acceptable(s: Tables, u: Unit, p: Processed) {
    && InUnit(u, p)
    && p.fill.id in s.fills && s.fills[p.fill.id] == FillRow(p.fill, None, None)
    && Clean(s.Hist(u) + [p])
  }

  lemma BookedUnits(s: Tables, s': Tables, u: Unit, p: Processed, segment: History, ids: seq<TradeId>)
    requires TablesOk(s) && Acceptable(s, u, p) && Booked(s, s', u, p, segment, ids)
    requires Last(ids) in s.trades ==> UnitOfRow(s.trades[Last(ids)]) == u
    requires UnitOk(s', u)
    ensures forall v :: v in s'.history || v in s'.ids ==> UnitOk(s', v)
  {
    hide TradesOk, TradeOk, Clean, ExitTypesOk, Segments;
    forall v | v in s'.history || v in s'.ids ensures UnitOk(s', v) {
      if v != u {
        OtherUnitOk(s, s', u, v, Last(ids), p.fill.id);
      }
    }
  }

  lemma BookedTrade(s: Tables, s': Tables, u: Unit, p: Processed, segment: History, ids: seq<TradeId>, t: TradeId)
    requires Booked(s, s', u, p, segment, ids) && t in s'.trades
    requires t != Last(ids) ==> t in s.trades && TradeOwned(s, t)
    requires forall k :: 0 <= k < |s.Ids(u)| ==> s.Ids(u)[k] in ids
    requires Last(ids) < s'.nextTrade && s.nextTrade <= s'.nextTrade
    requires InUnit(u, segment[0])
    ensures TradeOwned(s', t)
  {
    RowUnit(u, segment);
    if t != Last(ids) {
      assert s'.trades[t] == s.trades[t];
    }
  }

  lemma BookedFill(s: Tables, s': Tables, u: Unit, p: Processed, segment: History, ids: seq<TradeId>, f: FillId)
    requires f in s'.fills && (f != p.fill.id ==> f in s.fills && FillOk(s, f))
    requires Booked(s, s', u, p, segment, ids)
    ensures FillOk(s', f)
  {
    if f != p.fill.id {
      assert s'.fills[f] == s.fills[f];
    }
  }

  lemma BookedTablesOk(s: Tables, s': Tables, u: Unit, p: Processed, segment: History, ids: seq<TradeId>)
    requires TablesOk(s) && Acceptable(s, u, p) && Booked(s, s', u, p, segment, ids)
    requires Last(ids) in s.trades ==> UnitOfRow(s.trades[Last(ids)]) == u
    requires forall k :: 0 <= k < |s.Ids(u)| ==> s.Ids(u)[k] in ids
    requires Last(ids) < s'.nextTrade && s.nextTrade <= s'.nextTrade
    requires InUnit(u, segment[0])
    requires UnitOk(s', u)
    ensures TablesOk(s')
  {
    hide TradesOk, TradeOk, Clean, ExitTypesOk, Segments;
    BookedUnits(s, s', u, p, segment, ids);
    forall t | t in s'.trades ensures TradeOwned(s', t) {
      BookedTrade(s, s', u, p, segment, ids, t);
    }
    forall f | f in s'.fills ensures FillOk(s', f) {
      BookedFill(s, s', u, p, segment, ids, f);
    }
  }

  lemma FreshTradeId(s: Tables)
    requires TablesOk(s)
    ensures s.nextTrade !in s.trades
    ensures forall f :: f in s.fills ==> s.fills[f].trade != Some(s.nextTrade)
  {
    assert s.nextTrade in s.trades ==> TradeOwned(s, s.nextTrade);
    forall f | f in s.fills ensures s.fills[f].trade != Some(s.nextTrade) {
      assert FillOk(s, f);
    }
  }

  lemma OpeningUnitOk(s: Tables, s': Tables, u: Unit, p: Processed)
    requires ExitTypesOk(s.Hist(u) + [p])
    requires TablesOk(s) && Acceptable(s, u, p)
    requires Segments(s.Hist(u) + [p]) == Segments(s.Hist(u)) + [[p]]
    requires Booked(s, s', u, p, [p], s.Ids(u) + [s.nextTrade])
    ensures UnitOk(s', u)
  {
    hide TradeOk, Clean, ExitTypesOk, Segments, Row, AssignedRow;
    FreshTradeId(s);
    UnitAlwaysOk(s, u);
    TradesOpen(u, Segments(s.Hist(u)), s.Ids(u), p, s.nextTrade, s.trades, s.fills);
  }

  /** FLAT to OPEN: the fill opens a trade of its own. */
  lemma OpeningKeepsTables(s: Tables, s': Tables, u: Unit, p: Processed)
    requires ExitTypesOk(s.Hist(u) + [p])
    requires TablesOk(s) && Acceptable(s, u, p) && Flat(Segments(s.Hist(u)))
    requires Booked(s, s', u, p, [p], s.Ids(u) + [s.nextTrade]) && s'.nextTrade == s.nextTrade + 1
    ensures TablesOk(s')
    ensures Segments(s'.Hist(u)) == Segments(s.Hist(u)) + [[p]]
  {
    hide TradesOk, TradeOk, Clean, ExitTypesOk, QtyOn, Position, Segments;
    SegmentsSnoc(s.Hist(u), p);
    if Segments(s.Hist(u)) != [] {
      PositionOfSegment(Last(Segments(s.Hist(u))));
    }
    OpeningUnitOk(s, s', u, p);
    FreshTradeId(s);
    Snoc(s.Ids(u), s.nextTrade);
    BookedTablesOk(s, s', u, p, [p], s.Ids(u) + [s.nextTrade]);
  }

  lemma ContinuingUnitOk(s: Tables, s': Tables, u: Unit, p: Processed, earlier: seq<History>, open: History)
    requires ExitTypesOk(s.Hist(u) + [p])
    requires TablesOk(s) && Acceptable(s, u, p) && s.Ids(u) != []
    requires Segments(s.Hist(u)) == earlier + [open]
    requires Segments(s.Hist(u) + [p]) == earlier + [open + [p]]
    requires Booked(s, s', u, p, open + [p], s.Ids(u))
    ensures UnitOk(s', u)
  {
    hide TradeOk, Clean, ExitTypesOk, Segments, Row, AssignedRow;
    UnitAlwaysOk(s, u);
    CleanTrades(s.Hist(u) + [p]);
    assert (earlier + [open + [p]])[|earlier|] == open + [p];
    TradesGrow(u, earlier, open, s.Ids(u), p, s.trades, s.fills);
  }

  /** OPEN or PARTIAL: the fill joins the open trade. */
  lemma ContinuingKeepsTables(s: Tables, s': Tables, u: Unit, p: Processed)
    requires ExitTypesOk(s.Hist(u) + [p])
    requires TablesOk(s) && Acceptable(s, u, p)
    requires Segments(s.Hist(u)) != [] && !Flat(Segments(s.Hist(u))) && s.Ids(u) != []
    requires Booked(s, s', u, p, Last(Segments(s.Hist(u))) + [p], s.Ids(u)) && s'.nextTrade == s.nextTrade
    ensures TablesOk(s')
    ensures Segments(s'.Hist(u)) == Front(Segments(s.Hist(u))) + [Last(Segments(s.Hist(u))) + [p]]
  {
    hide TradesOk, TradeOk, Clean, ExitTypesOk, QtyOn, Position, Segments;
    var segments, n := Segments(s.Hist(u)), |s.Ids(u)| - 1;
    SegmentsPosition(s.Hist(u));
    PositionOfSegment(Last(segments));
    SegmentsSnoc(s.Hist(u), p);
    assert segments == Front(segments) + [Last(segments)];
    ContinuingUnitOk(s, s', u, p, Front(segments), Last(segments));
    IdBelongs(s, u, n);
    OpenTradeStart(s, u);
    BookedTablesOk(s, s', u, p, Last(segments) + [p], s.Ids(u));
  }

  lemma OpenTradeStart(s: Tables, u: Unit)
    requires TablesOk(s) && s.Ids(u) != []
    ensures |Segments(s.Hist(u))| == |s.Ids(u)|
    ensures TradeOk(u, Last(Segments(s.Hist(u))), Last(s.Ids(u)), s.trades, s.fills)
    ensures InUnit(u, Last(Segments(s.Hist(u)))[0])
  {
    UnitAlwaysOk(s, u);
  }

  lemma InsertKeepsTrade(u: Unit, s: History, id: TradeId, trades: map<TradeId, TradeRow>, fills: map<FillId, FillRow>,
                         f: Fill)
    requires TradeOk(u, s, id, trades, fills) && f.id !in fills
    ensures TradeOk(u, s, id, trades, fills[f.id := FillRow(f, None, None)])
  {
    hide Row, IsTrade;
  }

  lemma InsertKeepsUnit(s: Tables, s': Tables, u: Unit, f: Fill)
    requires UnitOk(s, u) && f.id !in s.fills
    requires s' == s.(fills := s.fills[f.id := FillRow(f, None, None)])
    ensures UnitOk(s', u)
  {
    hide TradeOk, Segments, Clean;
    var segments, ids := Segments(s.Hist(u)), s.Ids(u);
    forall k | 0 <= k < |ids| ensures TradeOk(u, segments[k], ids[k], s'.trades, s'.fills) {
      InsertKeepsTrade(u, segments[k], ids[k], s.trades, s.fills, f);
    }
  }

  /** A new unassigned row keeps the invariant of the trade tables. */
  lemma InsertKeepsTables(s: Tables, s': Tables, f: Fill)
    requires TablesOk(s) && f.id !in s.fills
    requires s' == s.(fills := s.fills[f.id := FillRow(f, None, None)])
    ensures TablesOk(s')
  {
    hide UnitOk;
    forall u | u in s'.history || u in s'.ids ensures UnitOk(s', u) {
      InsertKeepsUnit(s, s', u, f);
    }
    forall t | t in s'.trades ensures TradeOwned(s', t) {
      assert TradeOwned(s, t);
    }
    forall i | i in s'.fills ensures FillOk(s', i) {
      assert i != f.id ==> FillOk(s, i);
    }
  }
}
