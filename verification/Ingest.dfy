/** What storing a list of parsed fills must leave behind: which of them become rows, which rows
    those are, and which units have to be reconstructed. */
module Ingest {
  import opened TradeTypes
  import opened Calendar
  import opened ZerodhaAdapter
  import opened FoSymbol
  import opened FillOrder
  import opened Ledger
  import opened Store
  import opened Queries
  import opened RunOutcome

  // ---------- instruments ----------

  /** The columns an instrument is looked up by. */
  datatype InstrumentKey = InstrumentKey(symbol: string, exchangeSegment: string, kind: InstrumentType,
                                         expiry: Option<Date>, strike: Option<nat>)

  /** Derivatives without their contract columns cannot be looked up. */
  predicate Resolvable(f: NormalizedFill) {
    match f.kind
    case FUT => f.expiry.Some?
    case CE | PE => f.expiry.Some? && f.strike.Some?
    case _ => true
  }

  function KeyOf(f: NormalizedFill): InstrumentKey {
    match f.kind
    case EQ => InstrumentKey(f.symbol, f.exchangeSegment, EQ, None, None)
    case FUT => InstrumentKey(f.symbol, f.exchangeSegment, FUT, f.expiry, None)
    case _ => InstrumentKey(f.symbol, f.exchangeSegment, f.kind, f.expiry, f.strike)
  }

  /** Two fills are in the same contract: everything that tells instruments of their kind apart is equal. */
  predicate SameContract(f: NormalizedFill, g: NormalizedFill) {
    && f.kind == g.kind && f.symbol == g.symbol && f.exchangeSegment == g.exchangeSegment
    && (f.kind != EQ ==> f.expiry == g.expiry)
    && (f.kind != EQ && f.kind != FUT ==> f.strike == g.strike)
  }

  lemma KeyIsContract(f: NormalizedFill, g: NormalizedFill)
    ensures KeyOf(f) == KeyOf(g) <==> SameContract(f, g)
  {
  }

  ghost predicate InstrumentsOk(instruments: map<InstrumentKey, InstrumentId>, next: InstrumentId) {
    && (forall k :: k in instruments ==> instruments[k] < next)
    && (forall k, m :: k in instruments && m in instruments && instruments[k] == instruments[m] ==> k == m)
  }

  // ---------- broker keys ----------

  ghost predicate HasKey(fills: map<FillId, FillRow>, account: AccountId, brokerId: string) {
    exists i :: KeyAt(fills, account, brokerId, i)
  }

  predicate KeyAt(fills: map<FillId, FillRow>, account: AccountId, brokerId: string, i: FillId) {
    i in fills && fills[i].fill.brokerId == Some(brokerId) && fills[i].fill.account == account
  }

  /** The broker's id is stored, in whatever account. */
  ghost predicate HeldByBroker(fills: map<FillId, FillRow>, brokerId: string) {
    exists i :: HeldAt(fills, brokerId, i)
  }

  predicate HeldAt(fills: map<FillId, FillRow>, brokerId: string, i: FillId) {
    i in fills && fills[i].fill.brokerId == Some(brokerId) && fills[i].fill.broker == BROKER
  }

  /** The partial unique index on (broker, fill_id), over all accounts. */
  predicate SameBrokerId(a: Fill, b: Fill) {
    a.brokerId.Some? && a.brokerId == b.brokerId && a.broker == b.broker
  }

  ghost predicate BrokerKeysUnique(fills: map<FillId, FillRow>) {
    forall i, j :: i in fills && j in fills && i != j ==> !SameBrokerId(fills[i].fill, fills[j].fill)
  }

  /** Both unique indexes of the fills table. */
  ghost predicate KeysUnique(fills: map<FillId, FillRow>) {
    AccountIdsUnique(fills) && BrokerKeysUnique(fills)
  }

  /** The first usable fill of its broker id, when the account does not have that id yet. */
  ghost predicate FirstOfKey(before: map<FillId, FillRow>, account: AccountId, parsed: seq<NormalizedFill>, k: nat)
    requires k < |parsed|
  {
    && Resolvable(parsed[k]) && !HasKey(before, account, parsed[k].brokerTradeId)
    && forall j :: 0 <= j < k && Resolvable(parsed[j]) ==> parsed[j].brokerTradeId != parsed[k].brokerTradeId
  }

  /** Fill k passes the account's duplicate check, and another account holds its id. */
  ghost predicate Collides(before: map<FillId, FillRow>, account: AccountId, parsed: seq<NormalizedFill>, k: nat) {
    k < |parsed| && FirstOfKey(before, account, parsed, k) && HeldByBroker(before, parsed[k].brokerTradeId)
  }

  ghost predicate FirstCollision(before: map<FillId, FillRow>, account: AccountId, parsed: seq<NormalizedFill>,
                                 k: nat) {
    Collides(before, account, parsed, k) && forall j: nat :: j < k ==> !Collides(before, account, parsed, j)
  }

  /** The first collision in the file is on this id. */
  ghost predicate FirstHeldId(before: map<FillId, FillRow>, account: AccountId, parsed: seq<NormalizedFill>,
                              brokerId: string) {
    exists k: nat :: FirstCollision(before, account, parsed, k) && parsed[k].brokerTradeId == brokerId
  }

  predicate HasUnsupported(parsed: seq<NormalizedFill>) {
    exists k :: 0 <= k < |parsed| && parsed[k].kind.OtherInstrument?
  }

  // ---------- rows ----------

  function FillFor(id: FillId, user: UserId, account: AccountId, instrument: InstrumentId, f: NormalizedFill,
                   now: int): Fill {
    Fill(id, user, account, instrument, f.timestamp, Ordinal(f.tradeDate), f.side, f.quantity, f.price, f.product,
         Some(f.brokerTradeId), now, f.isExpirySquareoff, BROKER)
  }

  /** Where and how the fills of an import are stored. */
  datatype Target = Target(user: UserId, account: AccountId, now: int)

  /** What a stored row keeps of the fill it was made from. */
  predicate Keeps(row: Fill, f: NormalizedFill, to: Target) {
    && row.user == to.user && row.account == to.account && row.createdAt == to.now
    && row.side == f.side && row.quantity == f.quantity && row.price == f.price && row.product == f.product
    && row.timestamp == f.timestamp && row.tradeDate == Ordinal(f.tradeDate)
    && row.brokerId == Some(f.brokerTradeId) && row.broker == "ZERODHA"
    && row.exitTyped == f.isExpirySquareoff
  }

  /** Row j is not assigned yet and keeps the j-th fill taken. */
  predicate RowKeeps(after: map<FillId, FillRow>, next: FillId, to: Target, parsed: seq<NormalizedFill>,
                     taken: seq<nat>, j: nat) {
    && j < |taken| && taken[j] < |parsed| && next + j in after && Keeps(after[next + j].fill, parsed[taken[j]], to)
    && after[next + j].fill.id == next + j && after[next + j].trade.None? && after[next + j].role.None?
  }

  /** Two rows share an instrument exactly when their fills are in one contract. */
  predicate InstrumentsTell(after: map<FillId, FillRow>, next: FillId, parsed: seq<NormalizedFill>, taken: seq<nat>,
                            i: nat, j: nat) {
    && i < |taken| && j < |taken| && taken[i] < |parsed| && taken[j] < |parsed|
    && next + i in after && next + j in after
    && (after[next + i].fill.instrument == after[next + j].fill.instrument <==>
          SameContract(parsed[taken[i]], parsed[taken[j]]))
  }

  /** Both, for all the rows added. */
  ghost predicate RowsKeep(after: map<FillId, FillRow>, next: FillId, to: Target, parsed: seq<NormalizedFill>,
                           taken: seq<nat>) {
    && (forall j: nat :: j < |taken| ==> RowKeeps(after, next, to, parsed, taken, j))
    && (forall i: nat, j: nat :: i < |taken| && j < |taken| ==> InstrumentsTell(after, next, parsed, taken, i, j))
  }

  /** Rows have ids below the next one, and only rows can be excluded. */
  ghost predicate IdsBelow(fills: map<FillId, FillRow>, excluded: set<FillId>, next: FillId) {
    && (forall i :: i in fills ==> i < next)
    && (forall i :: i in excluded ==> i in fills)
  }

  /** The rows added, in order, are those of the parsed fills listed in taken. */
  ghost predicate RowsAdded(before: map<FillId, FillRow>, after: map<FillId, FillRow>, next: FillId, to: Target,
                            instruments: map<InstrumentKey, InstrumentId>, parsed: seq<NormalizedFill>,
                            taken: seq<nat>) {
    && (forall i :: i in after <==> i in before || next <= i < next + |taken|)
    && (forall i :: i in before ==> i in after && after[i] == before[i])
    && (forall j :: 0 <= j < |taken| ==>
          && taken[j] < |parsed| && KeyOf(parsed[taken[j]]) in instruments
          && after[next + j] == FillRow(FillFor(next + j, to.user, to.account, instruments[KeyOf(parsed[taken[j]])],
                                                parsed[taken[j]], to.now), None, None))
  }

  lemma FillForKeeps(id: FillId, to: Target, instrument: InstrumentId, f: NormalizedFill)
    ensures var row := FillFor(id, to.user, to.account, instrument, f, to.now);
            row.id == id && row.instrument == instrument && Keeps(row, f, to)
  {
    hide Ordinal;
  }

  lemma AddedRowKeeps(before: map<FillId, FillRow>, after: map<FillId, FillRow>, next: FillId, to: Target,
                      instruments: map<InstrumentKey, InstrumentId>, parsed: seq<NormalizedFill>, taken: seq<nat>,
                      j: nat)
    requires RowsAdded(before, after, next, to, instruments, parsed, taken) && j < |taken|
    ensures RowKeeps(after, next, to, parsed, taken, j) && KeyOf(parsed[taken[j]]) in instruments
    ensures after[next + j].fill.instrument == instruments[KeyOf(parsed[taken[j]])]
  {
    hide KeyOf, Keeps, FillFor;
    assert taken[j] < |parsed|;
    FillForKeeps(next + j, to, instruments[KeyOf(parsed[taken[j]])], parsed[taken[j]]);
  }

  lemma AddedRowsKeep(before: map<FillId, FillRow>, after: map<FillId, FillRow>, next: FillId, to: Target,
                      instruments: map<InstrumentKey, InstrumentId>, nextInstrument: InstrumentId,
                      parsed: seq<NormalizedFill>, taken: seq<nat>)
    requires RowsAdded(before, after, next, to, instruments, parsed, taken)
    requires InstrumentsOk(instruments, nextInstrument)
    ensures RowsKeep(after, next, to, parsed, taken)
  {
    hide KeyOf, SameContract, Keeps, RowsAdded;
    forall j: nat | j < |taken| ensures RowKeeps(after, next, to, parsed, taken, j) {
      AddedRowKeeps(before, after, next, to, instruments, parsed, taken, j);
    }
    forall i: nat, j: nat | i < |taken| && j < |taken| ensures InstrumentsTell(after, next, parsed, taken, i, j) {
      AddedRowKeeps(before, after, next, to, instruments, parsed, taken, i);
      AddedRowKeeps(before, after, next, to, instruments, parsed, taken, j);
      KeyIsContract(parsed[taken[i]], parsed[taken[j]]);
    }
  }

  /** The fills taken, in file order, are exactly the first of each new broker id. */
  ghost predicate TakenExactly(before: map<FillId, FillRow>, account: AccountId, parsed: seq<NormalizedFill>,
                               taken: seq<nat>) {
    && (forall j, k :: 0 <= j < k < |taken| ==> taken[j] < taken[k])
    && (forall j :: 0 <= j < |taken| ==> taken[j] < |parsed|)
    && (forall k: nat :: k < |parsed| ==> (k in taken <==> FirstOfKey(before, account, parsed, k)))
  }

  // ---------- units ----------

  ghost predicate NewRowOf(before: map<FillId, FillRow>, after: map<FillId, FillRow>, job: Job, i: FillId) {
    i in after && i !in before && FillInUnit(job.u, after[i].fill)
  }

  ghost predicate GainedRow(before: map<FillId, FillRow>, after: map<FillId, FillRow>, job: Job) {
    exists i :: NewRowOf(before, after, job, i)
  }

  ghost predicate HasJob(jobs: seq<Job>, f: Fill) {
    exists q :: 0 <= q < |jobs| && FillInUnit(jobs[q].u, f)
  }

  /** One job for each unit that gained a row, and for no other. */
  ghost predicate JobsCover(before: map<FillId, FillRow>, after: map<FillId, FillRow>, jobs: seq<Job>) {
    && OneJobPerUnit(jobs)
    && (forall i :: i in after && i !in before ==> HasJob(jobs, after[i].fill))
    && (forall q :: 0 <= q < |jobs| ==> GainedRow(before, after, jobs[q]))
  }

  /** Row j was made from a fill of the job's unit and kind. */
  predicate TypedBy(after: map<FillId, FillRow>, next: FillId, parsed: seq<NormalizedFill>, taken: seq<nat>, job: Job,
                    j: nat) {
    && j < |taken| && taken[j] < |parsed| && next + j in after
    && FillInUnit(job.u, after[next + j].fill) && job.instrumentType == parsed[taken[j]].kind
  }

  ghost predicate JobTyped(after: map<FillId, FillRow>, next: FillId, parsed: seq<NormalizedFill>, taken: seq<nat>,
                           job: Job) {
    exists j: nat :: TypedBy(after, next, parsed, taken, job, j)
  }

  /** Each job has the instrument type of a fill stored in its unit. */
  ghost predicate JobsTyped(after: map<FillId, FillRow>, next: FillId, parsed: seq<NormalizedFill>, taken: seq<nat>,
                            jobs: seq<Job>) {
    forall q :: 0 <= q < |jobs| ==> JobTyped(after, next, parsed, taken, jobs[q])
  }

  lemma JobsTypedStep(after: map<FillId, FillRow>, next: FillId, parsed: seq<NormalizedFill>, taken: seq<nat>,
                      jobs: seq<Job>, job: Job, isNew: bool, k: nat, f: Fill)
    requires JobsTyped(after, next, parsed, taken, jobs) && k < |parsed| && f.id == next + |taken| && f.id !in after
    requires FillInUnit(job.u, f) && job.instrumentType == parsed[k].kind
    ensures JobsTyped(after[f.id := FillRow(f, None, None)], next, parsed, taken + [k], JobsWith(jobs, job, isNew))
  {
    hide FillInUnit;
    var after', taken', jobs' := after[f.id := FillRow(f, None, None)], taken + [k], JobsWith(jobs, job, isNew);
    forall q | 0 <= q < |jobs'| ensures JobTyped(after', next, parsed, taken', jobs'[q]) {
      if q < |jobs| {
        assert JobTyped(after, next, parsed, taken, jobs[q]);
        var j: nat :| TypedBy(after, next, parsed, taken, jobs[q], j);
        assert TypedBy(after', next, parsed, taken', jobs[q], j);
      } else {
        assert TypedBy(after', next, parsed, taken', job, |taken|);
      }
    }
  }

  /** Every row added to the unit of a job is of a fill of the job's instrument type. */
  lemma JobsFitTheirFills(after: map<FillId, FillRow>, next: FillId, to: Target, parsed: seq<NormalizedFill>,
                          taken: seq<nat>, jobs: seq<Job>, q: nat, i: nat)
    requires RowsKeep(after, next, to, parsed, taken) && JobsTyped(after, next, parsed, taken, jobs)
    requires q < |jobs| && i < |taken| && next + i in after && FillInUnit(jobs[q].u, after[next + i].fill)
    ensures taken[i] < |parsed| && jobs[q].instrumentType == parsed[taken[i]].kind
  {
    hide Keeps;
    assert JobTyped(after, next, parsed, taken, jobs[q]);
    var j: nat :| TypedBy(after, next, parsed, taken, jobs[q], j);
    assert InstrumentsTell(after, next, parsed, taken, i, j);
  }

  // ---------- one more fill ----------

  /** A broker's row can be inserted without breaking either unique index exactly when the account does not
      have its id and no account has it from that broker. */
  lemma InsertKeepsIdsUnique(fills: map<FillId, FillRow>, f: Fill, brokerId: string)
    requires KeysUnique(fills) && f.id !in fills && f.brokerId == Some(brokerId) && f.broker == BROKER
    ensures KeysUnique(fills[f.id := FillRow(f, None, None)]) <==>
              !HasKey(fills, f.account, brokerId) && !HeldByBroker(fills, brokerId)
  {
    var fills' := fills[f.id := FillRow(f, None, None)];
    if i: FillId :| KeyAt(fills, f.account, brokerId, i) {
      assert SameBrokerKey(fills'[i].fill, fills'[f.id].fill);
    } else if i: FillId :| HeldAt(fills, brokerId, i) {
      assert SameBrokerId(fills'[i].fill, fills'[f.id].fill);
    } else {
      forall i, j | i in fills' && j in fills' && i != j
        ensures !SameBrokerKey(fills'[i].fill, fills'[j].fill) && !SameBrokerId(fills'[i].fill, fills'[j].fill)
      {
        assert i != f.id ==> !KeyAt(fills, f.account, brokerId, i) && !HeldAt(fills, brokerId, i);
        assert j != f.id ==> !KeyAt(fills, f.account, brokerId, j) && !HeldAt(fills, brokerId, j);
      }
    }
  }

  lemma KeysAfterInsert(fills: map<FillId, FillRow>, f: Fill, brokerId: string, account: AccountId, other: string)
    requires f.id !in fills && f.brokerId == Some(brokerId) && f.account == account
    ensures HasKey(fills[f.id := FillRow(f, None, None)], account, other) <==>
              HasKey(fills, account, other) || other == brokerId
  {
    var fills' := fills[f.id := FillRow(f, None, None)];
    if HasKey(fills, account, other) {
      var i :| KeyAt(fills, account, other, i);
      assert KeyAt(fills', account, other, i);
    }
    if other == brokerId {
      assert KeyAt(fills', account, other, f.id);
    }
    if HasKey(fills', account, other) && other != brokerId {
      var i :| KeyAt(fills', account, other, i);
      assert KeyAt(fills, account, other, i);
    }
  }

  /** Importing fills whose broker ids are all known takes none of them. */
  lemma KnownFillsAreNotTaken(before: map<FillId, FillRow>, account: AccountId, parsed: seq<NormalizedFill>,
                              taken: seq<nat>)
    requires TakenExactly(before, account, parsed, taken)
    requires forall k :: 0 <= k < |parsed| && Resolvable(parsed[k]) ==> HasKey(before, account, parsed[k].brokerTradeId)
    ensures taken == []
  {
    assert taken != [] ==> taken[0] in taken;
    assert taken != [] ==> FirstOfKey(before, account, parsed, taken[0]);
  }

  ghost predicate Mentions(parsed: seq<NormalizedFill>, brokerId: string) {
    exists j :: 0 <= j < |parsed| && Resolvable(parsed[j]) && parsed[j].brokerTradeId == brokerId
  }

  /** The account's broker ids after the import are those before it and those of the file's usable fills. */
  ghost predicate KeysGrown(before: map<FillId, FillRow>, after: map<FillId, FillRow>, account: AccountId,
                            parsed: seq<NormalizedFill>) {
    forall b :: HasKey(after, account, b) <==> HasKey(before, account, b) || Mentions(parsed, b)
  }

  /** Everything the ingestion of a list of fills establishes. */
  ghost predicate Ingested(before: map<FillId, FillRow>, after: map<FillId, FillRow>, next: FillId, to: Target,
                           instruments: map<InstrumentKey, InstrumentId>, parsed: seq<NormalizedFill>,
                           taken: seq<nat>, jobs: seq<Job>) {
    && RowsAdded(before, after, next, to, instruments, parsed, taken)
    && TakenExactly(before, to.account, parsed, taken)
    && KeysGrown(before, after, to.account, parsed)
    && JobsCover(before, after, jobs) && InAccount(jobs, to.account)
  }

  lemma NothingIngested(before: map<FillId, FillRow>, next: FillId, to: Target,
                        instruments: map<InstrumentKey, InstrumentId>)
    ensures Ingested(before, before, next, to, instruments, [], [], [])
  {
  }

  lemma MentionsSnoc(parsed: seq<NormalizedFill>, f: NormalizedFill, b: string)
    ensures Mentions(parsed + [f], b) <==> Mentions(parsed, b) || (Resolvable(f) && f.brokerTradeId == b)
  {
    hide Resolvable;
    var parsed' := parsed + [f];
    if Mentions(parsed, b) {
      var j :| 0 <= j < |parsed| && Resolvable(parsed[j]) && parsed[j].brokerTradeId == b;
      assert parsed'[j] == parsed[j];
    }
    if Resolvable(f) && f.brokerTradeId == b {
      assert parsed'[|parsed|] == f;
    }
  }

  /** The next fill is the first of its key exactly when the table does not hold the key by then. */
  lemma NextIsFirst(before: map<FillId, FillRow>, after: map<FillId, FillRow>, account: AccountId,
                    parsed: seq<NormalizedFill>, f: NormalizedFill)
    requires KeysGrown(before, after, account, parsed)
    ensures FirstOfKey(before, account, parsed + [f], |parsed|) <==>
              Resolvable(f) && !HasKey(after, account, f.brokerTradeId)
    ensures forall k: nat :: k < |parsed| ==>
              (FirstOfKey(before, account, parsed + [f], k) <==> FirstOfKey(before, account, parsed, k))
  {
    hide Resolvable, HasKey;
    var parsed' := parsed + [f];
    assert forall j :: 0 <= j < |parsed| ==> parsed'[j] == parsed[j];
    assert parsed'[|parsed|] == f;
    assert HasKey(after, account, f.brokerTradeId) <==>
           HasKey(before, account, f.brokerTradeId) || Mentions(parsed, f.brokerTradeId);
  }

  lemma AddedToAccount(before: map<FillId, FillRow>, after: map<FillId, FillRow>, next: FillId, to: Target,
                       instruments: map<InstrumentKey, InstrumentId>, parsed: seq<NormalizedFill>, taken: seq<nat>,
                       i: FillId)
    requires RowsAdded(before, after, next, to, instruments, parsed, taken) && i in after && i !in before
    ensures after[i].fill.account == to.account && after[i].fill.broker == BROKER
  {
    hide KeyOf;
    assert taken[i - next] < |parsed| && after[i] == after[next + (i - next)];
  }

  /** An id the account does not have is held by the broker exactly when it was before the import. */
  lemma HeldSince(before: map<FillId, FillRow>, after: map<FillId, FillRow>, next: FillId, to: Target,
                  instruments: map<InstrumentKey, InstrumentId>, parsed: seq<NormalizedFill>, taken: seq<nat>,
                  b: string)
    requires RowsAdded(before, after, next, to, instruments, parsed, taken) && !HasKey(after, to.account, b)
    ensures HeldByBroker(after, b) <==> HeldByBroker(before, b)
  {
    hide KeyOf;
    if i: FillId :| HeldAt(before, b, i) {
      assert HeldAt(after, b, i);
    }
    if i: FillId :| HeldAt(after, b, i) {
      assert !KeyAt(after, to.account, b, i);
      if i !in before {
        AddedToAccount(before, after, next, to, instruments, parsed, taken, i);
        assert false;
      }
      assert HeldAt(before, b, i);
    }
  }

  lemma FirstOfPrefix(before: map<FillId, FillRow>, account: AccountId, parsed: seq<NormalizedFill>, n: nat, k: nat)
    requires k < n <= |parsed|
    ensures FirstOfKey(before, account, parsed[..n], k) <==> FirstOfKey(before, account, parsed, k)
  {
    hide Resolvable, HasKey;
    assert forall j :: 0 <= j <= k ==> parsed[..n][j] == parsed[j];
  }

  /** The next fill collides exactly when the tables at that point let it through the account's duplicate check
      but not into the index. */
  lemma NextCollides(before: map<FillId, FillRow>, after: map<FillId, FillRow>, next: FillId, to: Target,
                     instruments: map<InstrumentKey, InstrumentId>, parsed: seq<NormalizedFill>, k: nat,
                     taken: seq<nat>, jobs: seq<Job>)
    requires k < |parsed| && Ingested(before, after, next, to, instruments, parsed[..k], taken, jobs)
    ensures var b := parsed[k].brokerTradeId;
            Collides(before, to.account, parsed, k) <==>
              Resolvable(parsed[k]) && !HasKey(after, to.account, b) && HeldByBroker(after, b)
  {
    hide Resolvable, HasKey, HeldByBroker, RowsAdded, TakenExactly, JobsCover, FirstOfKey, KeysGrown;
    var b := parsed[k].brokerTradeId;
    assert parsed[..k] + [parsed[k]] == parsed[..k + 1];
    NextIsFirst(before, after, to.account, parsed[..k], parsed[k]);
    FirstOfPrefix(before, to.account, parsed, k + 1, k);
    if !HasKey(after, to.account, b) {
      HeldSince(before, after, next, to, instruments, parsed[..k], taken, b);
    }
  }

  /** A fill that is not stored: unusable, or its broker id is known. */
  lemma NotStored(before: map<FillId, FillRow>, after: map<FillId, FillRow>, next: FillId, to: Target,
                  instruments: map<InstrumentKey, InstrumentId>, parsed: seq<NormalizedFill>, taken: seq<nat>,
                  jobs: seq<Job>, f: NormalizedFill)
    requires Ingested(before, after, next, to, instruments, parsed, taken, jobs)
    requires Resolvable(f) ==> HasKey(after, to.account, f.brokerTradeId)
    ensures Ingested(before, after, next, to, instruments, parsed + [f], taken, jobs)
  {
    hide Resolvable, HasKey, FirstOfKey, JobsCover;
    var parsed' := parsed + [f];
    NextIsFirst(before, after, to.account, parsed, f);
    forall b ensures HasKey(after, to.account, b) <==> HasKey(before, to.account, b) || Mentions(parsed', b) {
      MentionsSnoc(parsed, f, b);
    }
    assert forall j :: 0 <= j < |taken| ==> parsed'[taken[j]] == parsed[taken[j]];
    forall k: nat | k < |parsed'| ensures k in taken <==> FirstOfKey(before, to.account, parsed', k) {
    }
  }

  ghost predicate InstrumentsGrown(instruments: map<InstrumentKey, InstrumentId>,
                                   after: map<InstrumentKey, InstrumentId>) {
    forall k :: k in instruments ==> k in after && after[k] == instruments[k]
  }

  /** New instruments do not disturb what has been stored. */
  lemma IngestedGrown(before: map<FillId, FillRow>, after: map<FillId, FillRow>, next: FillId, to: Target,
                      instruments: map<InstrumentKey, InstrumentId>, instruments': map<InstrumentKey, InstrumentId>,
                      parsed: seq<NormalizedFill>, taken: seq<nat>, jobs: seq<Job>)
    requires Ingested(before, after, next, to, instruments, parsed, taken, jobs)
             && InstrumentsGrown(instruments, instruments')
    ensures Ingested(before, after, next, to, instruments', parsed, taken, jobs)
  {
    hide TakenExactly, KeysGrown, JobsCover;
  }

  function JobsWith(jobs: seq<Job>, job: Job, isNew: bool): seq<Job> {
    if isNew then jobs + [job] else jobs
  }

  lemma NewUnitIsOther(jobs: seq<Job>, job: Job, f: Fill)
    requires OneJobPerUnit(jobs) && FillInUnit(job.u, f) && !HasJob(jobs, f)
    ensures OneJobPerUnit(jobs + [job])
  {
    hide FillInUnit;
    forall q | 0 <= q < |jobs| ensures jobs[q].u != job.u {
      assert FillInUnit(jobs[q].u, f) ==> HasJob(jobs, f);
    }
  }

  lemma MoreJobsKeepJob(jobs: seq<Job>, job: Job, f: Fill)
    ensures HasJob(jobs, f) ==> HasJob(jobs + [job], f)
    ensures FillInUnit(job.u, f) ==> HasJob(jobs + [job], f)
  {
    hide FillInUnit;
    assert (jobs + [job])[|jobs|] == job;
    if HasJob(jobs, f) {
      var q :| 0 <= q < |jobs| && FillInUnit(jobs[q].u, f);
      assert (jobs + [job])[q] == jobs[q];
    }
  }

  lemma GainedMore(before: map<FillId, FillRow>, after: map<FillId, FillRow>, job: Job, f: Fill)
    requires f.id !in after && f.id !in before
    ensures GainedRow(before, after, job) ==> GainedRow(before, after[f.id := FillRow(f, None, None)], job)
    ensures FillInUnit(job.u, f) ==> GainedRow(before, after[f.id := FillRow(f, None, None)], job)
  {
    hide FillInUnit;
    var after' := after[f.id := FillRow(f, None, None)];
    if GainedRow(before, after, job) {
      var i :| NewRowOf(before, after, job, i);
      assert NewRowOf(before, after', job, i);
    }
    if FillInUnit(job.u, f) {
      assert NewRowOf(before, after', job, f.id);
    }
  }

  /** The jobs after one more fill: a new one when its unit is new. */
  lemma JobsCoverStep(before: map<FillId, FillRow>, after: map<FillId, FillRow>, jobs: seq<Job>, job: Job, f: Fill)
    requires JobsCover(before, after, jobs) && f.id !in after && f.id !in before && FillInUnit(job.u, f)
    ensures JobsCover(before, after[f.id := FillRow(f, None, None)], JobsWith(jobs, job, !HasJob(jobs, f)))
  {
    hide FillInUnit, HasJob, GainedRow, OneJobPerUnit;
    var jobs', after' := JobsWith(jobs, job, !HasJob(jobs, f)), after[f.id := FillRow(f, None, None)];
    if !HasJob(jobs, f) {
      NewUnitIsOther(jobs, job, f);
    }
    forall i | i in after' && i !in before ensures HasJob(jobs', after'[i].fill) {
      MoreJobsKeepJob(jobs, job, after'[i].fill);
    }
    forall q | 0 <= q < |jobs'| ensures GainedRow(before, after', jobs'[q]) {
      GainedMore(before, after, jobs'[q], f);
    }
  }

  /** A fill that becomes a row. */
  lemma Stored(before: map<FillId, FillRow>, after: map<FillId, FillRow>, next: FillId, to: Target,
               instruments: map<InstrumentKey, InstrumentId>, parsed: seq<NormalizedFill>, taken: seq<nat>,
               jobs: seq<Job>, jobs': seq<Job>, job: Job, f: NormalizedFill)
    requires Ingested(before, after, next, to, instruments, parsed, taken, jobs)
    requires forall i :: i in before ==> i < next
    requires Resolvable(f) && !HasKey(after, to.account, f.brokerTradeId) && KeyOf(f) in instruments
    requires job.u == Unit(to.user, to.account, instruments[KeyOf(f)], f.product)
    requires jobs' ==
             JobsWith(jobs, job,
                      !HasJob(jobs, FillFor(next + |taken|, to.user, to.account, instruments[KeyOf(f)], f, to.now)))
    ensures var row := FillFor(next + |taken|, to.user, to.account, instruments[KeyOf(f)], f, to.now);
            Ingested(before, after[row.id := FillRow(row, None, None)], next, to, instruments,
                     parsed + [f], taken + [|parsed|], jobs')
  {
    hide Resolvable, HasKey, FirstOfKey, JobsCover, HasJob;
    var row := FillFor(next + |taken|, to.user, to.account, instruments[KeyOf(f)], f, to.now);
    var after', parsed', taken' := after[row.id := FillRow(row, None, None)], parsed + [f], taken + [|parsed|];
    assert row.id !in after && row.id !in before;
    NextIsFirst(before, after, to.account, parsed, f);
    forall b ensures HasKey(after', to.account, b) <==> HasKey(before, to.account, b) || Mentions(parsed', b) {
      MentionsSnoc(parsed, f, b);
      KeysAfterInsert(after, row, f.brokerTradeId, to.account, b);
    }
    StoredRows(before, after, next, to, instruments, parsed, taken, f);
    forall k: nat | k < |parsed'| ensures k in taken' <==> FirstOfKey(before, to.account, parsed', k) {
      assert k in taken' <==> k in taken || k == |parsed|;
    }
    JobsCoverStep(before, after, jobs, job, row);
  }

  lemma StoredRows(before: map<FillId, FillRow>, after: map<FillId, FillRow>, next: FillId, to: Target,
                   instruments: map<InstrumentKey, InstrumentId>, parsed: seq<NormalizedFill>, taken: seq<nat>,
                   f: NormalizedFill)
    requires RowsAdded(before, after, next, to, instruments, parsed, taken) && KeyOf(f) in instruments
    requires forall i :: i in before ==> i < next
    ensures var row := FillFor(next + |taken|, to.user, to.account, instruments[KeyOf(f)], f, to.now);
            RowsAdded(before, after[row.id := FillRow(row, None, None)], next, to, instruments, parsed + [f],
                      taken + [|parsed|])
  {
    hide KeyOf, FillFor;
    var row := FillFor(next + |taken|, to.user, to.account, instruments[KeyOf(f)], f, to.now);
    assert row.id == next + |taken| by {
      FillForId(next + |taken|, to, instruments[KeyOf(f)], f);
    }
    var parsed', taken' := parsed + [f], taken + [|parsed|];
    forall j | 0 <= j < |taken'|
      ensures taken'[j] < |parsed'| && parsed'[taken'[j]] == if j < |taken| then parsed[taken[j]] else f
    {
    }
  }

  lemma FillForId(id: FillId, to: Target, instrument: InstrumentId, f: NormalizedFill)
    ensures var row := FillFor(id, to.user, to.account, instrument, f, to.now);
            row.id == id && FillInUnit(Unit(to.user, to.account, instrument, f.product), row)
  {
  }

  // ---------- what the adapter lets through ----------

  /** One fill, stored by one account and read again into another: the duplicate check passes, the index refuses. */
  lemma SecondAccountCollides(f: NormalizedFill, id: FillId, to: Target, instrument: InstrumentId, other: AccountId)
    requires Resolvable(f) && other != to.account
    ensures var fills := map[id := FillRow(FillFor(id, to.user, to.account, instrument, f, to.now), None, None)];
            KeysUnique(fills) && !HasKey(fills, other, f.brokerTradeId) && FirstCollision(fills, other, [f], 0)
  {
    hide Resolvable;
    var fills := map[id := FillRow(FillFor(id, to.user, to.account, instrument, f, to.now), None, None)];
    assert HeldAt(fills, f.brokerTradeId, id);
  }

  /** A future traded on its expiry day. */
  function ExpiryDayFuture(symbol: string, yy: nat, month: nat, timestamp: int, side: Side, shares: Ticks,
                           price: Ticks): NormalizedFill
    requires 1 <= month <= 12
  {
    var expiry := LastThursday(2000 + yy, month);
    NormalizedFill("T1", "O1", symbol, "NSE", "NSE_FO", FUT, Some(expiry), None, expiry, timestamp,
                   DeriveSession(timestamp), side, shares * 10000, price, NRML, false, true)
  }

  lemma ExpiryDayFutureIsReportable(symbol: string, yy: nat, month: nat, timestamp: int, side: Side, shares: Ticks,
                                    price: Ticks)
    requires 1 <= month <= 12 && At(15, 20, 0) <= SecondsOfDay(timestamp) <= At(15, 35, 0)
    ensures Reportable(ExpiryDayFuture(symbol, yy, month, timestamp, side, shares, price))
  {
    hide LastThursday, Valid, DeriveSession;
    LastThursdayIsLast(2000 + yy, month);
  }

  /** The printed row of any future, bought or sold in the closing window of its expiry day, is read and stored;
      alone in its unit, it can never be reconstructed. */
  lemma PrintedSquareoffOpensNothing(readers: Readers, writers: Writers, symbol: string, yy: nat, month: nat,
                                     timestamp: int, side: Side, shares: Ticks, price: Ticks, index: nat,
                                     hint: Option<string>, id: FillId, to: Target, instrument: InstrumentId)
    requires Inverse(readers, writers) && symbol != "" && AllAlnum(symbol) && yy < 100 && 1 <= month <= 12
    requires At(15, 20, 0) <= SecondsOfDay(timestamp) <= At(15, 35, 0)
    ensures var f := ExpiryDayFuture(symbol, yy, month, timestamp, side, shares, price);
            var row := FillFor(id, to.user, to.account, instrument, f, to.now);
            var s := Tables(map[], map[id := FillRow(row, None, None)], map[], 0, map[], map[]);
            var u := Unit(to.user, to.account, instrument, NRML);
            && ParseRow(readers, PrintRow(writers, f, PrintFuture(symbol, yy, month)), index, true, hint) == Good(f)
            && TablesOk(s) && LotsReady(s, u) && IsFetch(s.fills, {}, u, [row]) && !Runnable(s, u, FUT, [row])
  {
    hide Inverse, ParseRow, PrintRow, PrintFuture, LastThursday, Reportable, DeriveSession, Runnable, Ordinal;
    var f := ExpiryDayFuture(symbol, yy, month, timestamp, side, shares, price);
    ExpiryDayFutureIsReportable(symbol, yy, month, timestamp, side, shares, price);
    DerivativeRowRoundTrip(readers, writers, f, AsFuture(yy, month), index, hint);
    var row := FillFor(id, to.user, to.account, instrument, f, to.now);
    var s := Tables(map[], map[id := FillRow(row, None, None)], map[], 0, map[], map[]);
    SquareoffOpensNothing(s, {}, Unit(to.user, to.account, instrument, NRML), FUT, row);
  }
}
