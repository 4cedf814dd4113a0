/** What the repository queries return on tables that satisfy the invariant. */
module Queries {
  import opened Sequences
  import opened TradeTypes
  import opened FillOrder
  import opened Ledger
  import opened RowSteps
  import opened Store

  /** trade_type values stored for each family. */
  function TradeTypesFor(family: Family): set<TradeType> {
    match family
    case INTRADAY => {TradeMIS}
    case DELIVERY => {TradeCNC, TradeCNCSameDay}
    case FO => {TradeNRMLFut, TradeNRMLOpt}
  }

  /** The open-trade query's WHERE clause. */
  predicate OpenTradeMatch(u: Unit, family: Family, row: TradeRow) {
    && row.user == u.user && row.account == u.account && row.instrument == u.instrument
    && row.status in {OPEN, PARTIAL} && row.tradeType in TradeTypesFor(family)
  }

  lemma OpenTradeMatchIsUnit(u: Unit, row: TradeRow)
    requires FamilyFor(u.product).Some?
    ensures OpenTradeMatch(u, FamilyFor(u.product).value, row) <==> UnitOfRow(row) == u && row.status != CLOSED
  {
  }

  lemma OpenSegmentIsLast(segments: seq<History>, k: nat)
    requires TradesInOrder(segments) && k < |segments| && Net(segments[k]) != 0
    ensures k == |segments| - 1 && !Flat(segments)
  {
  }

  lemma OwnedTrade(s: Tables, u: Unit, t: TradeId) returns (k: nat)
    requires TablesOk(s) && t in s.trades && UnitOfRow(s.trades[t]) == u
    ensures k < |s.Ids(u)| == |Segments(s.Hist(u))| && s.Ids(u)[k] == t
    ensures TradeOk(u, Segments(s.Hist(u))[k], t, s.trades, s.fills)
  {
    assert TradeOwned(s, t);
    UnitAlwaysOk(s, u);
    k :| 0 <= k < |s.Ids(u)| && s.Ids(u)[k] == t;
  }

  /** Only a unit's last trade can be open, so the query never finds two rows. */
  lemma OpenTradeIsLast(s: Tables, u: Unit, t: TradeId)
    requires TablesOk(s) && t in s.trades && UnitOfRow(s.trades[t]) == u && s.trades[t].status != CLOSED
    ensures s.Ids(u) != [] && t == Last(s.Ids(u)) && !Flat(Segments(s.Hist(u)))
  {
    hide TablesOk, Clean, Segments, IsTrade, Accumulate, QtyOn, ValueOn;
    var k := OwnedTrade(s, u, t);
    UnitAlwaysOk(s, u);
    CleanTrades(s.Hist(u));
    OpenSegmentIsLast(Segments(s.Hist(u)), k);
  }

  lemma LastTradeIsOpen(s: Tables, u: Unit)
    requires TablesOk(s) && !Flat(Segments(s.Hist(u)))
    ensures s.Ids(u) != []
    ensures var t := Last(s.Ids(u));
            t in s.trades && UnitOfRow(s.trades[t]) == u && s.trades[t].status != CLOSED
  {
    UnitAlwaysOk(s, u);
    SegmentsPosition(s.Hist(u));
    OpenTradeStart(s, u);
    IdBelongs(s, u, |s.Ids(u)| - 1);
  }

  lemma OpenTradeQuery(s: Tables, u: Unit)
    requires TablesOk(s) && FamilyFor(u.product).Some?
    ensures var matches := set t | t in s.trades && OpenTradeMatch(u, FamilyFor(u.product).value, s.trades[t]);
            && (matches == {} <==> Flat(Segments(s.Hist(u))))
            && forall t :: t in matches ==> s.Ids(u) != [] && t == Last(s.Ids(u))
  {
    var family := FamilyFor(u.product).value;
    var matches := set t | t in s.trades && OpenTradeMatch(u, family, s.trades[t]);
    forall t | t in matches ensures s.Ids(u) != [] && t == Last(s.Ids(u)) && !Flat(Segments(s.Hist(u))) {
      OpenTradeMatchIsUnit(u, s.trades[t]);
      OpenTradeIsLast(s, u, t);
    }
    if !Flat(Segments(s.Hist(u))) {
      LastTradeIsOpen(s, u);
      OpenTradeMatchIsUnit(u, s.trades[Last(s.Ids(u))]);
      assert Last(s.Ids(u)) in matches;
    }
  }

  // ---------- unprocessed fills ----------

  predicate Unprocessed(fills: map<FillId, FillRow>, excluded: set<FillId>, u: Unit, i: FillId) {
    i in fills && FillInUnit(u, fills[i].fill) && fills[i].trade.None? && i !in excluded
  }

  /** A possible result of the unprocessed-fills query. */
  ghost predicate IsFetch(fills: map<FillId, FillRow>, excluded: set<FillId>, u: Unit, s: seq<Fill>) {
    && Distinct(s) && SortedBy(s, FetchLe)
    && (forall f :: f in s <==> Unprocessed(fills, excluded, u, f.id) && fills[f.id].fill == f)
  }

  /** A list is a possible result of the query exactly when it holds the unit's fills that have no trade and are
      not excluded, each once, with no two of them out of order. */
  lemma FetchMeans(fills: map<FillId, FillRow>, excluded: set<FillId>, u: Unit, s: seq<Fill>)
    ensures IsFetch(fills, excluded, u, s) <==>
              && (forall i, j :: 0 <= i < j < |s| ==> s[i] != s[j] && InOrder(s[i], s[j]))
              && (forall f :: f in s <==>
                    && f.id in fills && fills[f.id].fill == f && fills[f.id].trade.None? && f.id !in excluded
                    && f.user == u.user && f.account == u.account && f.instrument == u.instrument
                    && f.product == u.product)
  {
    forall a, b ensures FetchLe(a, b) <==> InOrder(a, b) {
      FetchLeIsInOrder(a, b);
    }
  }

  // ---------- fills of a trade by role ----------

  lemma {:induction false} FillsOnDistinct(s: History, side: Side)
    requires NoRepeats(s)
    ensures Distinct(FillsOn(s, side))
  {
    if s != [] {
      FillsOnDistinct(Front(s), side);
      FillsOnMembers(Front(s), side);
    }
  }

  lemma {:induction false} DistinctMultiplicity(s: seq<Fill>, f: Fill)
    requires Distinct(s)
    ensures multiset(s)[f] == if f in s then 1 else 0
  {
    if s != [] {
      assert s == Front(s) + [Last(s)];
      DistinctMultiplicity(Front(s), f);
    }
  }

  lemma SameMembersSameMultiset(s: seq<Fill>, t: seq<Fill>)
    requires Distinct(s) && Distinct(t) && forall f :: f in s <==> f in t
    ensures multiset(s) == multiset(t)
  {
    forall f ensures multiset(s)[f] == multiset(t)[f] {
      DistinctMultiplicity(s, f);
      DistinctMultiplicity(t, f);
    }
  }

  predicate AssignedAs(fills: map<FillId, FillRow>, id: TradeId, role: Role, i: FillId) {
    i in fills && fills[i].trade == Some(id) && fills[i].role == Some(role)
  }

  function SideOfRole(entrySide: Side, role: Role): Side {
    if role == ENTRY then entrySide else Opposite(entrySide)
  }

  lemma AssignedAreSide(u: Unit, s: History, id: TradeId, trades: map<TradeId, TradeRow>, fills: map<FillId, FillRow>,
                        role: Role, f: Fill)
    requires TradeOk(u, s, id, trades, fills)
    ensures f in FillsOn(s, SideOfRole(EntrySide(s), role)) <==>
              AssignedAs(fills, id, role, f.id) && fills[f.id].fill == f
  {
    FillsOnMembers(s, SideOfRole(EntrySide(s), role));
    if AssignedAs(fills, id, role, f.id) && fills[f.id].fill == f {
      assert InSegment(s, f.id);
      var j :| 0 <= j < |s| && s[j].fill.id == f.id;
      assert fills[f.id] == AssignedRow(s, id, s[j].fill);
    }
  }

  /** Whatever order the exit fills of a resumed trade are read in, their sums are the trade's. */
  lemma ExitFillsSums(u: Unit, s: History, id: TradeId, trades: map<TradeId, TradeRow>,
                      fills: map<FillId, FillRow>, exits: seq<Fill>)
    requires TradeOk(u, s, id, trades, fills)
    requires Distinct(exits) && forall f :: f in exits <==> AssignedAs(fills, id, EXIT, f.id) && fills[f.id].fill == f
    ensures QtyOf(exits) == ExitQty(s) && ValueOf(exits) == ValueOn(s, Opposite(EntrySide(s)))
  {
    var side := Opposite(EntrySide(s));
    FillsOnDistinct(s, side);
    forall f ensures f in exits <==> f in FillsOn(s, side) {
      AssignedAreSide(u, s, id, trades, fills, EXIT, f);
    }
    SameMembersSameMultiset(exits, FillsOn(s, side));
    SumsPermute(exits, FillsOn(s, side));
    SumsOfSide(s, side);
  }

  // ---------- tax lots ----------

  predicate OpenLot(lots: map<TradeId, LotRow>, user: UserId, instrument: InstrumentId, t: TradeId) {
    t in lots && lots[t].user == user && lots[t].instrument == instrument && lots[t].status != LotClosed
  }

  /** A possible result of the open-lot query: any open lot of the oldest purchase date. */
  ghost predicate IsOldestOpenLot(lots: map<TradeId, LotRow>, user: UserId, instrument: InstrumentId, t: TradeId) {
    OpenLot(lots, user, instrument, t) &&
    forall o :: OpenLot(lots, user, instrument, o) ==> lots[t].purchaseDate <= lots[o].purchaseDate
  }

  /** The lookup by (user, instrument) is certain to find a trade's own open lot exactly when every
      other open lot of that user and instrument was bought strictly later. */
  lemma LookupFindsOwnLotIff(lots: map<TradeId, LotRow>, user: UserId, instrument: InstrumentId, own: TradeId)
    requires OpenLot(lots, user, instrument, own)
    ensures (forall t :: IsOldestOpenLot(lots, user, instrument, t) ==> t == own)
            <==> (forall o :: OpenLot(lots, user, instrument, o) && o != own ==>
                    lots[own].purchaseDate < lots[o].purchaseDate)
  {
    if forall t :: IsOldestOpenLot(lots, user, instrument, t) ==> t == own {
      forall o | OpenLot(lots, user, instrument, o) && o != own ensures lots[own].purchaseDate < lots[o].purchaseDate {
        var pool := set t | t in lots && OpenLot(lots, user, instrument, t);
        assert own in pool;
        var m := OldestLot(lots, pool);
        assert IsOldestOpenLot(lots, user, instrument, m);
        assert !IsOldestOpenLot(lots, user, instrument, o);
      }
    }
  }

  lemma {:induction false} OldestLot(lots: map<TradeId, LotRow>, pool: set<TradeId>) returns (m: TradeId)
    requires pool != {} && forall t :: t in pool ==> t in lots
    ensures m in pool && forall t :: t in pool ==> lots[m].purchaseDate <= lots[t].purchaseDate
    decreases pool
  {
    m :| m in pool;
    if pool != {m} {
      var rest := OldestLot(lots, pool - {m});
      if lots[rest].purchaseDate < lots[m].purchaseDate {
        m := rest;
      }
    }
  }

  /** Every trade has its lot, in step with the trade row. */
  ghost predicate LotsFor(u: Unit, segments: seq<History>, ids: seq<TradeId>, lots: map<TradeId, LotRow>) {
    |ids| == |segments| &&
    forall k :: 0 <= k < |ids| ==> |segments[k]| > 0 && ids[k] in lots && lots[ids[k]] == LotOf(u, segments[k])
  }

  ghost predicate OpenLotsWithin(u: Unit, ids: seq<TradeId>, lots: map<TradeId, LotRow>) {
    forall t :: OpenLot(lots, u.user, u.instrument, t) ==> t in ids
  }

  ghost predicate LotsMatch(s: Tables, u: Unit) {
    LotsFor(u, Segments(s.Hist(u)), s.Ids(u), s.lots)
  }

  /** No other account of the user holds an open lot of the unit's instrument. */
  ghost predicate NoForeignOpenLot(s: Tables, u: Unit) {
    OpenLotsWithin(u, s.Ids(u), s.lots)
  }

  ghost predicate LotsReady(s: Tables, u: Unit) {
    u.product == CNC ==> LotsMatch(s, u) && NoForeignOpenLot(s, u)
  }
}
