/** The tradebook adapter: a pre-scan that must settle the product type of every row, then one pass
    that turns each row into a fill or a row error. */
module ZerodhaAdapter {
  import opened Sequences
  import opened TradeTypes
  import opened Calendar
  import opened FoSymbol

  /** A data row after column names and values have been stripped. */
  type Row = map<string, string>

  const BROKER := "ZERODHA"
  const HALF_PAST_FIVE_HOURS := 19800
  const SECONDS_PER_DAY := 86400

  /** The readers of the standard library, each giving None for its ValueError.  A timestamp is read
      as seconds of local (IST) time, a price as ticks. */
  datatype Readers = Readers(day: string -> Option<Date>, timestamp: string -> Option<int>,
                             integer: string -> Option<int>, decimal: string -> Option<int>)

  datatype Session = PreOpen | Regular | PostClose

  datatype NormalizedFill = NormalizedFill(brokerTradeId: string, brokerOrderId: string, symbol: string,
                                           exchange: string, exchangeSegment: string, kind: InstrumentType,
                                           expiry: Option<Date>, strike: Option<nat>, tradeDate: Date,
                                           timestamp: int, session: Session, side: Side, quantity: Ticks,
                                           price: Ticks, product: ProductType, isAuction: bool, isExpirySquareoff: bool)

  datatype Reason = RequiredMissing | CdSegment | BseFo | UnknownExchange | BadDay | BadTimestamp | UnknownSide
                  | NotAnInteger | NotPositive | NotADecimal | UnknownProduct | NoProductAndNoHint
                  | UnparsableSymbol | UnsupportedSegment | UnsupportedInstrument

  datatype RowError = RowError(row: nat, field: string, value: string, reason: Reason)

  /** A row yields a fill, a row error, or the bare ValueError of an impossible weekly day. */
  datatype RowOutcome = Good(fill: NormalizedFill) | Bad(error: RowError) | Raised

  datatype ParseOutcome =
    | Parsed(fills: seq<NormalizedFill>, errors: seq<RowError>)
    | UnrecognizedFile
    | InvalidHint
    | EmptyFile
    | MissingProductType
    | BareValueError

  // ---------- reading a row ----------

  function Lower(s: string): string {
    seq(|s|, i requires 0 <= i < |s| => if 'A' <= s[i] <= 'Z' then ((s[i] as int) + 32) as char else s[i])
  }

  /** row.get(field, "") */
  function Get(row: Row, field: string): string {
    if field in row then row[field] else ""
  }

  predicate HasProductColumn(row: Row) {
    exists k :: k in row && Lower(k) == "product"
  }

  function ProductCode(code: string): Option<ProductType> {
    if code == "MIS" then Some(MIS) else if code == "CNC" then Some(CNC)
    else if code == "NRML" then Some(NRML) else None
  }

  predicate ValidHint(hint: Option<string>) {
    hint.Some? ==> ProductCode(hint.value).Some?
  }

  predicate NeedsProductHint(segment: string, series: string) {
    segment == "FO" || (segment == "EQ" && Upper(series) != "BE")
  }

  /** The pre-scan's test of one row. */
  predicate RowNeedsHint(row: Row) {
    var segment := Upper(Get(row, "segment"));
    segment != "CD" && NeedsProductHint(segment, Upper(Get(row, "series")))
  }

  function SecondsOfDay(timestamp: int): int {
    (timestamp + HALF_PAST_FIVE_HOURS) % SECONDS_PER_DAY
  }

  function At(hour: nat, minute: nat, second: nat): nat {
    hour * 3600 + minute * 60 + second
  }

  function DeriveSession(timestamp: int): Session {
    var t := SecondsOfDay(timestamp);
    if At(9, 0, 0) <= t <= At(9, 14, 59) then PreOpen
    else if At(9, 15, 0) <= t <= At(15, 39, 59) then Regular
    else if At(15, 40, 0) <= t <= At(16, 0, 0) then PostClose
    else Regular
  }

  function ExchangeSegment(exchange: string, segment: string): Option<string> {
    if exchange == "NSE" && segment == "EQ" then Some("NSE_EQ")
    else if exchange == "NSE" && segment == "FO" then Some("NSE_FO")
    else if exchange == "BSE" && segment == "EQ" then Some("BSE_EQ")
    else None
  }

  const REQUIRED := ["symbol", "trade_id", "order_id", "exchange", "segment", "trade_type", "auction",
                     "trade_date", "order_execution_time", "quantity", "price"]

  /** The first required field that is missing or empty. */
  function FirstMissing(row: Row, from: nat): (field: Option<string>)
    requires from <= |REQUIRED|
    ensures field.None? ==> forall i :: from <= i < |REQUIRED| ==> Get(row, REQUIRED[i]) != ""
    ensures field.Some? ==> field.value in REQUIRED && Get(row, field.value) == ""
    decreases |REQUIRED| - from
  {
    if from == |REQUIRED| then None
    else if Get(row, REQUIRED[from]) == "" then Some(REQUIRED[from])
    else FirstMissing(row, from + 1)
  }

  /** The product type of a row: its column, or the derivation table when the column is absent. */
  function RowProduct(row: Row, segment: string, hasProductColumn: bool,
                      hint: Option<string>): Result<ProductType, Reason> {
    if hasProductColumn then
      match ProductCode(Upper(Get(row, "product")))
      case Some(p) => Success(p)
      case None => Failure(UnknownProduct)
    else if segment == "EQ" && Upper(Get(row, "series")) == "BE" then Success(CNC)
    else match hint
      case Some(code) => Success(if ProductCode(code).Some? then ProductCode(code).value else OtherProduct(code))
      case None => Failure(NoProductAndNoHint)
  }

  /** The instrument part of a row; Impossible stands for the ValueError of a day that does not exist. */
  datatype InstrumentPart =
    | Listed(base: string, kind: InstrumentType, expiry: Option<Date>, strike: Option<nat>)
    | Unparsable
    | Impossible
    | Unsupported

  function InstrumentOf(segment: string, symbol: string): InstrumentPart {
    if segment == "EQ" then Listed(symbol, EQ, None, None)
    else if segment == "FO" then
      match ParseFoSymbol(symbol)
      case NoMatch => Unparsable
      case BadDate => Impossible
      case Contract(base, kind, expiry, strike) => Listed(base, kind, Some(expiry), strike)
    else Unsupported
  }

  predicate SquaredOffAtExpiry(expiry: Option<Date>, tradeDate: Date, isAuction: bool, timestamp: int) {
    expiry == Some(tradeDate) && (isAuction || At(15, 20, 0) <= SecondsOfDay(timestamp) <= At(15, 35, 0))
  }

  function ParseRow(readers: Readers, row: Row, index: nat, hasProductColumn: bool, hint: Option<string>): RowOutcome {
    var missing := FirstMissing(row, 0);
    if missing.Some? then Bad(RowError(index, missing.value, "", RequiredMissing)) else
    var symbol, segment, exchange := Upper(Get(row, "symbol")), Upper(Get(row, "segment")), Upper(Get(row, "exchange"));
    if segment == "CD" then Bad(RowError(index, "segment", segment, CdSegment)) else
    var exchangeSegment := ExchangeSegment(exchange, segment);
    if exchangeSegment.None? then
      Bad(if exchange == "BSE" && segment == "FO"
          then RowError(index, "exchange+segment", exchange + "+" + segment, BseFo)
          else RowError(index, "exchange", exchange, UnknownExchange)) else
    var day := readers.day(Get(row, "trade_date"));
    if day.None? then Bad(RowError(index, "trade_date", Get(row, "trade_date"), BadDay)) else
    var local := readers.timestamp(Get(row, "order_execution_time"));
    if local.None? then
      Bad(RowError(index, "order_execution_time", Get(row, "order_execution_time"), BadTimestamp)) else
    var tradeType := Lower(Get(row, "trade_type"));
    if tradeType != "buy" && tradeType != "sell" then Bad(RowError(index, "trade_type", tradeType, UnknownSide)) else
    var quantity := readers.integer(Get(row, "quantity"));
    if quantity.None? then Bad(RowError(index, "quantity", Get(row, "quantity"), NotAnInteger)) else
    if quantity.value <= 0 then Bad(RowError(index, "quantity", Get(row, "quantity"), NotPositive)) else
    var price := readers.decimal(Get(row, "price"));
    if price.None? then Bad(RowError(index, "price", Get(row, "price"), NotADecimal)) else
    if price.value <= 0 then Bad(RowError(index, "price", Get(row, "price"), NotPositive)) else
    var product := RowProduct(row, segment, hasProductColumn, hint);
    if product.Failure? then
      Bad(RowError(index, "product", if hasProductColumn then Upper(Get(row, "product")) else "", product.error)) else
    FinishRow(row, index, symbol, segment, exchange, exchangeSegment.value, day.value, local.value,
              if tradeType == "buy" then BUY else SELL, quantity.value * 10000, price.value, product.value)
  }

  /** The last part of a row: its instrument and the fields derived from it. */
  function FinishRow(row: Row, index: nat, symbol: string, segment: string, exchange: string, exchangeSegment: string,
                     day: Date, local: int, side: Side, quantity: Ticks, price: Ticks,
                     product: ProductType): RowOutcome {
    match InstrumentOf(segment, symbol)
    case Unsupported => Bad(RowError(index, "segment", segment, UnsupportedSegment))
    case Unparsable => Bad(RowError(index, "symbol", symbol, UnparsableSymbol))
    case Impossible => Raised
    case Listed(base, kind, expiry, strike) =>
      if kind !in {EQ, FUT, CE, PE} then Bad(RowError(index, "symbol", base, UnsupportedInstrument)) else
      var timestamp := local - HALF_PAST_FIVE_HOURS;
      var isAuction := Lower(Get(row, "auction")) == "yes";
      Good(NormalizedFill(Get(row, "trade_id"), Get(row, "order_id"), base, exchange, exchangeSegment, kind,
                          expiry, strike, day, timestamp, DeriveSession(timestamp), side, quantity, price, product,
                          isAuction,
                          segment == "FO" && SquaredOffAtExpiry(expiry, day, isAuction, timestamp)))
  }

  // ---------- what a row can yield ----------

  /** A product column is recognised in any case, but only a lower-case one is read: under any other spelling
      no row is accepted. */
  lemma ProductColumnInOtherCase(readers: Readers, row: Row, index: nat, hint: Option<string>)
    ensures HasProductColumn(row) <==> exists k :: k in row && Upper(k) == "PRODUCT"
    ensures "product" !in row ==> !ParseRow(readers, row, index, true, hint).Good?
  {
    hide ParseRow, Upper, Lower;
    Words();
    forall k: string ensures Lower(k) == "product" <==> Upper(k) == "PRODUCT" {
      CasesAgree(k);
    }
    if "product" !in row {
      UnreadProduct(readers, row, index, hint);
    }
  }

  lemma UnreadProduct(readers: Readers, row: Row, index: nat, hint: Option<string>)
    requires "product" !in row
    ensures !ParseRow(readers, row, index, true, hint).Good?
  {
    hide InstrumentOf, FinishRow, Lower, FirstMissing;
  }

  /** Either case can be had from the other. */
  lemma CasesAgree(s: string)
    ensures Upper(Lower(s)) == Upper(s) && Lower(Upper(s)) == Lower(s)
  {
  }

  /** The pre-scan stops at exactly the rows of a known segment whose product nothing settles. */
  lemma PreScanIsExact(row: Row)
    ensures var segment := Upper(Get(row, "segment"));
            RowNeedsHint(row) <==>
                (segment == "EQ" || segment == "FO") && RowProduct(row, segment, false, None).Failure?
  {
    hide Upper, Get;
    UpperTwice(Get(row, "series"));
  }

  lemma InstrumentIsComplete(segment: string, symbol: string)
    requires segment == "EQ" || segment == "FO"
    ensures var part := InstrumentOf(segment, symbol);
            && !part.Unsupported?
            && (part.Listed? && segment == "EQ" ==> part == Listed(symbol, EQ, None, None))
            && (part.Listed? && segment == "FO" ==>
                  part.kind in {FUT, CE, PE} && part.expiry.Some? && (part.strike.Some? <==> part.kind != FUT))
  {
    hide ParseFoSymbol, Valid;
    ParsedContractIsComplete(symbol);
  }

  /** The branches the adapter keeps only for safety are never taken: the segment and instrument
      checks by no row at all, the missing product only by a row the pre-scan stops at. */
  lemma BranchesNeverReached(readers: Readers, row: Row, index: nat, hasProductColumn: bool, hint: Option<string>)
    ensures var outcome := ParseRow(readers, row, index, hasProductColumn, hint);
            outcome.Bad? ==>
                outcome.error.row == index && outcome.error.reason !in {UnsupportedSegment, UnsupportedInstrument}
    ensures var outcome := ParseRow(readers, row, index, hasProductColumn, hint);
            outcome.Bad? && outcome.error.reason == NoProductAndNoHint ==>
              !hasProductColumn && hint.None? && RowNeedsHint(row)
  {
    hide InstrumentOf, DeriveSession, SquaredOffAtExpiry, Upper, Lower, Get, FirstMissing;
    var segment, symbol := Upper(Get(row, "segment")), Upper(Get(row, "symbol"));
    UpperTwice(Get(row, "series"));
    if segment == "EQ" || segment == "FO" {
      InstrumentIsComplete(segment, symbol);
    }
  }

  /** Whatever an accepted row holds, its fill is one the import can store: positive quantity and
      price by type, one of the three product types, and complete instrument fields. */
  predicate Storable(fill: NormalizedFill) {
    && fill.product in {MIS, CNC, NRML}
    && match fill.kind
       case EQ => fill.expiry.None? && fill.strike.None?
       case FUT => fill.expiry.Some? && fill.strike.None?
       case CE | PE => fill.expiry.Some? && fill.strike.Some?
       case OtherInstrument(_) => false
  }

  lemma AcceptedRowsAreStorable(readers: Readers, row: Row, index: nat, hasProductColumn: bool, hint: Option<string>)
    requires ValidHint(hint)
    ensures var outcome := ParseRow(readers, row, index, hasProductColumn, hint);
            outcome.Good? ==>
              && Storable(outcome.fill)
              && (!hasProductColumn && Upper(Get(row, "segment")) == "EQ" && Upper(Get(row, "series")) == "BE" ==>
                    outcome.fill.product == CNC)
  {
    hide InstrumentOf, DeriveSession, SquaredOffAtExpiry, Upper, Lower, Get, FirstMissing;
    var segment, symbol := Upper(Get(row, "segment")), Upper(Get(row, "symbol"));
    UpperTwice(Get(row, "series"));
    if segment == "EQ" || segment == "FO" {
      InstrumentIsComplete(segment, symbol);
    }
  }

  // ---------- which rows are refused, and why ----------

  /** One check of a row: the error it raises, and whether the row fails it. */
  datatype Check = Check(reason: Reason, field: string, value: string, fails: bool)

  /** The first column, in this order, that every row must fill and this one does not. */
  function FirstEmpty(row: Row): string {
    if Get(row, "symbol") == "" then "symbol" else if Get(row, "trade_id") == "" then "trade_id"
    else if Get(row, "order_id") == "" then "order_id" else if Get(row, "exchange") == "" then "exchange"
    else NextEmpty(row)
  }

  function NextEmpty(row: Row): string {
    if Get(row, "segment") == "" then "segment" else if Get(row, "trade_type") == "" then "trade_type"
    else if Get(row, "auction") == "" then "auction" else if Get(row, "trade_date") == "" then "trade_date"
    else LastEmpty(row)
  }

  function LastEmpty(row: Row): string {
    if Get(row, "order_execution_time") == "" then "order_execution_time"
    else if Get(row, "quantity") == "" then "quantity" else "price"
  }

  /** Some column that every row must fill is missing or empty. */
  predicate LacksRequired(row: Row) {
    || Get(row, "symbol") == "" || Get(row, "trade_id") == "" || Get(row, "order_id") == ""
    || Get(row, "exchange") == "" || Get(row, "segment") == "" || Get(row, "trade_type") == ""
    || Get(row, "auction") == "" || Get(row, "trade_date") == "" || Get(row, "order_execution_time") == ""
    || Get(row, "quantity") == "" || Get(row, "price") == ""
  }

  predicate NotAbove(n: Option<int>) {
    n.Some? && n.value <= 0
  }

  /** The product cannot be told: an unknown code in its column, or no column and neither series BE nor a hint. */
  predicate UntoldProduct(row: Row, hint: Option<string>) {
    hint.None? && !(Upper(Get(row, "segment")) == "EQ" && Upper(Upper(Get(row, "series"))) == "BE")
  }

  /** All checks, in the order they are made. */
  function Checks(readers: Readers, row: Row, hasProductColumn: bool, hint: Option<string>): seq<Check> {
    var exchange, segment := Upper(Get(row, "exchange")), Upper(Get(row, "segment"));
    var side, product := Lower(Get(row, "trade_type")), Upper(Get(row, "product"));
    var day, time := Get(row, "trade_date"), Get(row, "order_execution_time");
    var shares, rupees, symbol := Get(row, "quantity"), Get(row, "price"), Upper(Get(row, "symbol"));
    var quantity, price := readers.integer(shares), readers.decimal(rupees);
    [Check(RequiredMissing, FirstEmpty(row), "", LacksRequired(row)),
     Check(CdSegment, "segment", segment, segment == "CD"),
     Check(BseFo, "exchange+segment", exchange + "+" + segment, exchange == "BSE" && segment == "FO"),
     Check(UnknownExchange, "exchange", exchange,
           !(exchange == "NSE" || exchange == "BSE") || !(segment == "EQ" || segment == "FO")),
     Check(BadDay, "trade_date", day, readers.day(day).None?),
     Check(BadTimestamp, "order_execution_time", time, readers.timestamp(time).None?),
     Check(UnknownSide, "trade_type", side, !(side == "buy" || side == "sell")),
     Check(NotAnInteger, "quantity", shares, quantity.None?),
       Check(NotPositive, "quantity", shares, NotAbove(quantity)),
     Check(NotADecimal, "price", rupees, price.None?), Check(NotPositive, "price", rupees, NotAbove(price)),
     Check(UnknownProduct, "product", product,
           hasProductColumn && !(product == "MIS" || product == "CNC" || product == "NRML")),
     Check(NoProductAndNoHint, "product", "", !hasProductColumn && UntoldProduct(row, hint)),
     Check(UnparsableSymbol, "symbol", symbol, segment == "FO" && ParseFoSymbol(symbol).NoMatch?)]
  }

  function ErrorOf(index: nat, check: Check): RowError {
    RowError(index, check.field, check.value, check.reason)
  }

  ghost predicate FirstFailed(checks: seq<Check>, k: nat) {
    k < |checks| && checks[k].fails && forall j :: 0 <= j < k ==> !checks[j].fails
  }

  lemma {:induction false} FirstMissingIff(row: Row, from: nat)
    requires from <= |REQUIRED|
    ensures FirstMissing(row, from).Some? <==> exists i :: from <= i < |REQUIRED| && Get(row, REQUIRED[i]) == ""
    decreases |REQUIRED| - from
  {
    if from < |REQUIRED| {
      FirstMissingIff(row, from + 1);
    }
  }

  lemma MissingStep(row: Row, from: nat)
    requires from < |REQUIRED|
    ensures FirstMissing(row, from) ==
              if Get(row, REQUIRED[from]) == "" then Some(REQUIRED[from]) else FirstMissing(row, from + 1)
  {
  }

  lemma FirstMissingUnfolded(row: Row)
    ensures FirstMissing(row, 0).Some? ==> FirstMissing(row, 0) == Some(FirstEmpty(row))
  {
    hide Get, FirstMissing, NextEmpty;
    MissingStep(row, 0);
    MissingStep(row, 1);
    MissingStep(row, 2);
    MissingStep(row, 3);
    NextUnfolded(row);
  }

  lemma NextUnfolded(row: Row)
    ensures FirstMissing(row, 4).Some? ==> FirstMissing(row, 4) == Some(NextEmpty(row))
  {
    hide Get, FirstMissing, LastEmpty;
    MissingStep(row, 4);
    MissingStep(row, 5);
    MissingStep(row, 6);
    MissingStep(row, 7);
    LastUnfolded(row);
  }

  lemma LastUnfolded(row: Row)
    ensures FirstMissing(row, 8).Some? ==> FirstMissing(row, 8) == Some(LastEmpty(row))
  {
    hide Get, FirstMissing;
    MissingStep(row, 8);
    MissingStep(row, 9);
    MissingStep(row, 10);
    NoneMissing(row);
  }

  lemma NoneMissing(row: Row)
    ensures FirstMissing(row, |REQUIRED|).None? && |REQUIRED| == 11
  {
  }

  lemma LacksRequiredIff(row: Row)
    ensures FirstMissing(row, 0).Some? <==> LacksRequired(row)
    ensures LacksRequired(row) ==> FirstMissing(row, 0) == Some(FirstEmpty(row))
  {
    hide Get;
    FirstMissingIff(row, 0);
    FirstMissingUnfolded(row);
    assert Get(row, REQUIRED[0]) == Get(row, "symbol") && Get(row, REQUIRED[1]) == Get(row, "trade_id");
    assert Get(row, REQUIRED[2]) == Get(row, "order_id") && Get(row, REQUIRED[3]) == Get(row, "exchange");
    assert Get(row, REQUIRED[4]) == Get(row, "segment") && Get(row, REQUIRED[5]) == Get(row, "trade_type");
    assert Get(row, REQUIRED[6]) == Get(row, "auction") && Get(row, REQUIRED[7]) == Get(row, "trade_date");
    assert Get(row, REQUIRED[8]) == Get(row, "order_execution_time") && Get(row, REQUIRED[9]) == Get(row, "quantity");
    assert Get(row, REQUIRED[10]) == Get(row, "price");
  }

  /** What the last part of a row makes of its symbol, whatever came before. */
  lemma FinishOutcomes(row: Row, index: nat, symbol: string, segment: string)
    ensures forall exchange, exchangeSegment, day, local, side, quantity, price, product ::
              var outcome := FinishRow(row, index, symbol, segment, exchange, exchangeSegment, day, local, side,
                                       quantity, price, product);
              && (segment == "EQ" ==> outcome.Good?)
              && (segment == "FO" ==>
                    match ParseFoSymbol(symbol)
                    case NoMatch => outcome == Bad(RowError(index, "symbol", symbol, UnparsableSymbol))
                    case BadDate => outcome.Raised?
                    case Contract(_, _, _, _) => outcome.Good?)
  {
    hide ParseFoSymbol, DeriveSession, SquaredOffAtExpiry, Lower, Get;
    if segment == "EQ" || segment == "FO" {
      InstrumentIsComplete(segment, symbol);
    }
  }

  lemma RefusedEarly(readers: Readers, row: Row, index: nat, hasProductColumn: bool, hint: Option<string>, k: nat)
    requires FirstFailed(Checks(readers, row, hasProductColumn, hint), k) && k <= 6
    ensures var outcome := ParseRow(readers, row, index, hasProductColumn, hint);
            outcome == Bad(ErrorOf(index, Checks(readers, row, hasProductColumn, hint)[k]))
  {
    hide FinishRow, ParseFoSymbol, Upper, Lower, Get, FirstMissing, LacksRequired, FirstEmpty;
    LacksRequiredIff(row);
    var checks := Checks(readers, row, hasProductColumn, hint);
    assert (k > 0 ==> !checks[0].fails) && (k > 1 ==> !checks[1].fails) && (k > 2 ==> !checks[2].fails);
    assert (k > 3 ==> !checks[3].fails) && (k > 4 ==> !checks[4].fails) && (k > 5 ==> !checks[5].fails);
  }

  lemma RefusedLate(readers: Readers, row: Row, index: nat, hasProductColumn: bool, hint: Option<string>, k: nat)
    requires FirstFailed(Checks(readers, row, hasProductColumn, hint), k) && k > 6
    ensures var outcome := ParseRow(readers, row, index, hasProductColumn, hint);
            outcome == Bad(ErrorOf(index, Checks(readers, row, hasProductColumn, hint)[k]))
  {
    hide FinishRow, ParseFoSymbol, Upper, Lower, Get, FirstMissing, LacksRequired, FirstEmpty;
    FinishOutcomes(row, index, Upper(Get(row, "symbol")), Upper(Get(row, "segment")));
    LacksRequiredIff(row);
    UpperTwice(Get(row, "series"));
    var checks := Checks(readers, row, hasProductColumn, hint);
    assert !checks[0].fails && !checks[1].fails && !checks[2].fails && !checks[3].fails;
    assert !checks[4].fails && !checks[5].fails && !checks[6].fails;
    assert (k > 7 ==> !checks[7].fails) && (k > 8 ==> !checks[8].fails);
    assert (k > 9 ==> !checks[9].fails) && (k > 10 ==> !checks[10].fails) && (k > 11 ==> !checks[11].fails);
    assert (k > 12 ==> !checks[12].fails);
  }

  lemma RefusedForFirst(readers: Readers, row: Row, index: nat, hasProductColumn: bool, hint: Option<string>, k: nat)
    requires FirstFailed(Checks(readers, row, hasProductColumn, hint), k)
    ensures var outcome := ParseRow(readers, row, index, hasProductColumn, hint);
            outcome == Bad(ErrorOf(index, Checks(readers, row, hasProductColumn, hint)[k]))
  {
    hide ParseRow, Checks;
    if k <= 6 {
      RefusedEarly(readers, row, index, hasProductColumn, hint, k);
    } else {
      RefusedLate(readers, row, index, hasProductColumn, hint, k);
    }
  }

  /** What a row that fails no check holds. */
  ghost predicate Passes(readers: Readers, row: Row, hasProductColumn: bool, hint: Option<string>) {
    var exchange, segment := Upper(Get(row, "exchange")), Upper(Get(row, "segment"));
    var quantity, price := readers.integer(Get(row, "quantity")), readers.decimal(Get(row, "price"));
    && !LacksRequired(row) && ExchangeSegment(exchange, segment).Some? && (segment == "EQ" || segment == "FO")
    && readers.day(Get(row, "trade_date")).Some? && readers.timestamp(Get(row, "order_execution_time")).Some?
    && (Lower(Get(row, "trade_type")) == "buy" || Lower(Get(row, "trade_type")) == "sell")
    && quantity.Some? && quantity.value > 0 && price.Some? && price.value > 0
    && RowProduct(row, segment, hasProductColumn, hint).Success?
    && (segment == "FO" ==> !ParseFoSymbol(Upper(Get(row, "symbol"))).NoMatch?)
  }

  lemma FailsNothing(readers: Readers, row: Row, hasProductColumn: bool, hint: Option<string>)
    requires forall k: nat :: !FirstFailed(Checks(readers, row, hasProductColumn, hint), k)
    ensures Passes(readers, row, hasProductColumn, hint)
  {
    hide ParseFoSymbol, Upper, Lower, Get, LacksRequired, FirstEmpty;
    UpperTwice(Get(row, "series"));
    var checks := Checks(readers, row, hasProductColumn, hint);
    NoneFailed(checks, 13);
    assert !checks[0].fails && !checks[1].fails && !checks[2].fails && !checks[3].fails && !checks[4].fails;
    assert !checks[5].fails && !checks[6].fails && !checks[7].fails && !checks[8].fails && !checks[9].fails;
    assert !checks[10].fails && !checks[11].fails && !checks[12].fails && !checks[13].fails;
  }

  lemma AcceptedOtherwise(readers: Readers, row: Row, index: nat, hasProductColumn: bool, hint: Option<string>)
    requires forall k: nat :: !FirstFailed(Checks(readers, row, hasProductColumn, hint), k)
    ensures var outcome := ParseRow(readers, row, index, hasProductColumn, hint);
            if Upper(Get(row, "segment")) == "FO" && ParseFoSymbol(Upper(Get(row, "symbol"))).BadDate?
            then outcome.Raised? else outcome.Good?
  {
    hide FinishRow, ParseFoSymbol, Upper, Lower, Get, FirstMissing, LacksRequired, Checks, FirstFailed, RowProduct;
    FailsNothing(readers, row, hasProductColumn, hint);
    LacksRequiredIff(row);
    FinishOutcomes(row, index, Upper(Get(row, "symbol")), Upper(Get(row, "segment")));
  }

  /** A row is refused exactly when it fails a check, and for the first one it fails; otherwise it is accepted,
      unless its symbol names a day that does not exist. */
  lemma RowIsRefusedIff(readers: Readers, row: Row, index: nat, hasProductColumn: bool, hint: Option<string>)
    ensures var outcome, checks := ParseRow(readers, row, index, hasProductColumn, hint),
                                   Checks(readers, row, hasProductColumn, hint);
            && (forall k: nat :: FirstFailed(checks, k) ==> outcome == Bad(ErrorOf(index, checks[k])))
            && ((forall k: nat :: !FirstFailed(checks, k)) ==>
                  if Upper(Get(row, "segment")) == "FO" && ParseFoSymbol(Upper(Get(row, "symbol"))).BadDate?
                  then outcome.Raised? else outcome.Good?)
  {
    hide ParseRow, ParseFoSymbol, Upper, Get, Checks;
    var checks := Checks(readers, row, hasProductColumn, hint);
    forall k: nat | FirstFailed(checks, k)
      ensures ParseRow(readers, row, index, hasProductColumn, hint) == Bad(ErrorOf(index, checks[k]))
    {
      RefusedForFirst(readers, row, index, hasProductColumn, hint, k);
    }
    if forall k: nat :: !FirstFailed(checks, k) {
      AcceptedOtherwise(readers, row, index, hasProductColumn, hint);
    }
  }

  lemma {:induction false} NoneFailed(checks: seq<Check>, k: nat)
    requires k < |checks| && forall j: nat :: !FirstFailed(checks, j)
    ensures forall j :: 0 <= j <= k ==> !checks[j].fails
  {
    if k > 0 {
      NoneFailed(checks, k - 1);
    }
    assert !FirstFailed(checks, k);
  }

  /** Every field of an accepted row's fill is what its cell reads as, in whatever case it is written. */
  lemma AcceptedRowReads(readers: Readers, row: Row, index: nat, hasProductColumn: bool, hint: Option<string>,
                         f: NormalizedFill)
    requires ParseRow(readers, row, index, hasProductColumn, hint) == Good(f)
    ensures f.brokerTradeId == Get(row, "trade_id") && f.brokerOrderId == Get(row, "order_id")
    ensures f.exchange == Upper(Get(row, "exchange"))
            && f.exchangeSegment == f.exchange + "_" + Upper(Get(row, "segment"))
    ensures readers.day(Get(row, "trade_date")) == Some(f.tradeDate)
    ensures readers.timestamp(Get(row, "order_execution_time")) == Some(f.timestamp + 19800)
    ensures Lower(Get(row, "trade_type")) == if f.side == BUY then "buy" else "sell"
    ensures readers.integer(Get(row, "quantity")) == Some(f.quantity / 10000) && f.quantity % 10000 == 0
    ensures readers.decimal(Get(row, "price")) == Some(f.price)
    ensures f.isAuction <==> Lower(Get(row, "auction")) == "yes"
    ensures hasProductColumn ==> CodeOf(f.product) == Upper(Get(row, "product"))
  {
    hide FinishRow, Upper, Lower, Get, FirstMissing;
    var segment, exchange := Upper(Get(row, "segment")), Upper(Get(row, "exchange"));
    var day, time := readers.day(Get(row, "trade_date")), readers.timestamp(Get(row, "order_execution_time"));
    var quantity, price := readers.integer(Get(row, "quantity")), readers.decimal(Get(row, "price"));
    FinishedReads(row, index, Upper(Get(row, "symbol")), segment, exchange, ExchangeSegment(exchange, segment).value,
                  day.value, time.value, if Lower(Get(row, "trade_type")) == "buy" then BUY else SELL,
                  quantity.value * 10000, price.value, RowProduct(row, segment, hasProductColumn, hint).value, f);
  }

  lemma FinishedReads(row: Row, index: nat, symbol: string, segment: string, exchange: string, exchangeSegment: string,
                      day: Date, local: int, side: Side, quantity: Ticks, price: Ticks, product: ProductType,
                      f: NormalizedFill)
    requires FinishRow(row, index, symbol, segment, exchange, exchangeSegment, day, local, side, quantity, price,
                       product) == Good(f)
    ensures f.brokerTradeId == Get(row, "trade_id") && f.brokerOrderId == Get(row, "order_id")
    ensures f.exchange == exchange && f.exchangeSegment == exchangeSegment && f.tradeDate == day
    ensures f.timestamp + 19800 == local && f.side == side && f.quantity == quantity && f.price == price
    ensures f.product == product && (f.isAuction <==> Lower(Get(row, "auction")) == "yes")
  {
    hide InstrumentOf, DeriveSession, SquaredOffAtExpiry, Lower, Get;
  }

  // ---------- the clock ----------

  /** The exchange's clock shows h:m:s. */
  predicate ClockShows(timestamp: int, h: nat, m: nat, s: nat) {
    h < 24 && m < 60 && s < 60 && (timestamp + 19800) % 86400 == 3600 * h + 60 * m + s
  }

  lemma ClockAlwaysShows(timestamp: int) returns (h: nat, m: nat, s: nat)
    ensures ClockShows(timestamp, h, m, s)
  {
    var t := (timestamp + 19800) % 86400;
    h, m, s := t / 3600, t % 3600 / 60, t % 60;
  }

  /** Pre-open from 9:00 to the end of 9:14, post-close from 15:40 to 16:00 sharp, regular otherwise. */
  lemma SessionByClock(timestamp: int, h: nat, m: nat, s: nat)
    requires ClockShows(timestamp, h, m, s)
    ensures DeriveSession(timestamp).PreOpen? <==> h == 9 && m < 15
    ensures DeriveSession(timestamp).PostClose? <==> (h == 15 && m >= 40) || (h == 16 && m == 0 && s == 0)
  {
  }

  /** A fill is a square-off when it trades a contract on its last day, in the auction or from 15:20 to 15:35 sharp. */
  lemma SquareoffByClock(f: NormalizedFill, h: nat, m: nat, s: nat)
    requires ClockShows(f.timestamp, h, m, s)
    ensures SquaredOffAtExpiry(f.expiry, f.tradeDate, f.isAuction, f.timestamp) <==>
              && f.expiry == Some(f.tradeDate)
              && (f.isAuction || (h == 15 && (20 <= m < 35 || (m == 35 && s == 0))))
  {
  }

  /** The two derived fields of an accepted row are those of its time, date and contract. */
  lemma AcceptedRowDerives(readers: Readers, row: Row, index: nat, hasProductColumn: bool, hint: Option<string>,
                           f: NormalizedFill)
    requires ParseRow(readers, row, index, hasProductColumn, hint) == Good(f)
    ensures f.session == DeriveSession(f.timestamp)
    ensures f.isExpirySquareoff <==> SquaredOffAtExpiry(f.expiry, f.tradeDate, f.isAuction, f.timestamp)
  {
    hide ParseFoSymbol, DeriveSession, Upper, Lower, Get, FirstMissing;
  }

  // ---------- printing a row ----------

  /** The writers a broker's export uses; Inverse says the readers understand them. */
  datatype Writers = Writers(day: Date -> string, timestamp: int -> string, integer: int -> string,
                             decimal: int -> string)

  ghost predicate Inverse(readers: Readers, writers: Writers) {
    && (forall d: Date :: Valid(d) ==> writers.day(d) != "" && readers.day(writers.day(d)) == Some(d))
    && (forall t: int :: writers.timestamp(t) != "" && readers.timestamp(writers.timestamp(t)) == Some(t))
    && (forall n: int :: writers.integer(n) != "" && readers.integer(writers.integer(n)) == Some(n))
    && (forall p: int :: writers.decimal(p) != "" && readers.decimal(writers.decimal(p)) == Some(p))
  }

  function SegmentOf(exchangeSegment: string): string {
    if exchangeSegment == "NSE_FO" then "FO" else "EQ"
  }

  function CodeOf(product: ProductType): string {
    match product
    case MIS => "MIS"
    case CNC => "CNC"
    case NRML => "NRML"
    case OtherProduct(code) => code
  }

  /** The export's row for a fill whose contract is written as text. */
  function PrintRow(writers: Writers, f: NormalizedFill, text: string): Row {
    map["symbol" := text, "trade_id" := f.brokerTradeId, "order_id" := f.brokerOrderId, "exchange" := f.exchange,
        "segment" := SegmentOf(f.exchangeSegment), "trade_type" := if f.side == BUY then "buy" else "sell",
        "auction" := if f.isAuction then "yes" else "no", "trade_date" := writers.day(f.tradeDate),
        "order_execution_time" := writers.timestamp(f.timestamp + HALF_PAST_FIVE_HOURS),
        "quantity" := writers.integer(f.quantity / 10000), "price" := writers.decimal(f.price),
        "product" := CodeOf(f.product)]
  }

  /** A fill the exchange could have reported: whole shares, real dates, one of the three exchange
      segments, and derived fields that follow from the others. */
  ghost predicate Reportable(f: NormalizedFill) {
    && f.brokerTradeId != "" && f.brokerOrderId != "" && f.quantity % 10000 == 0 && Valid(f.tradeDate)
    && f.product in {MIS, CNC, NRML}
    && (f.exchange, f.exchangeSegment) in {("NSE", "NSE_EQ"), ("NSE", "NSE_FO"), ("BSE", "BSE_EQ")}
    && f.session == DeriveSession(f.timestamp)
    && (f.isExpirySquareoff <==> SegmentOf(f.exchangeSegment) == "FO" &&
                                 SquaredOffAtExpiry(f.expiry, f.tradeDate, f.isAuction, f.timestamp))
  }

  lemma Words()
    ensures Upper("EQ") == "EQ" && Upper("FO") == "FO" && Upper("NSE") == "NSE" && Upper("BSE") == "BSE"
    ensures Upper("MIS") == "MIS" && Upper("CNC") == "CNC" && Upper("NRML") == "NRML"
    ensures Upper("product") == "PRODUCT" && Lower("PRODUCT") == "product"
    ensures Lower("buy") == "buy" && Lower("sell") == "sell" && Lower("yes") == "yes" && Lower("no") == "no"
  {
  }

  lemma PrintedRowIsComplete(readers: Readers, writers: Writers, f: NormalizedFill, text: string)
    requires Inverse(readers, writers) && Reportable(f) && text != ""
    ensures FirstMissing(PrintRow(writers, f, text), 0).None?
  {
    var row := PrintRow(writers, f, text);
    forall i | 0 <= i < |REQUIRED| ensures Get(row, REQUIRED[i]) != "" {
    }
  }

  ghost predicate Cells(row: Row, writers: Writers, f: NormalizedFill, text: string) {
    && Get(row, "symbol") == text && Get(row, "trade_id") == f.brokerTradeId && Get(row, "order_id") == f.brokerOrderId
    && Get(row, "exchange") == f.exchange && Get(row, "segment") == SegmentOf(f.exchangeSegment)
    && Get(row, "trade_type") == (if f.side == BUY then "buy" else "sell")
    && Get(row, "auction") == (if f.isAuction then "yes" else "no")
    && Get(row, "trade_date") == writers.day(f.tradeDate)
    && Get(row, "order_execution_time") == writers.timestamp(f.timestamp + HALF_PAST_FIVE_HOURS)
    && Get(row, "quantity") == writers.integer(f.quantity / 10000) && Get(row, "price") == writers.decimal(f.price)
    && Get(row, "product") == CodeOf(f.product)
  }

  lemma PrintedCells(writers: Writers, f: NormalizedFill, text: string)
    ensures Cells(PrintRow(writers, f, text), writers, f, text)
  {
  }

  lemma FinishedRow(row: Row, writers: Writers, f: NormalizedFill, text: string, index: nat)
    requires Cells(row, writers, f, text) && Reportable(f) && f.kind in {EQ, FUT, CE, PE}
    requires InstrumentOf(SegmentOf(f.exchangeSegment), text) == Listed(f.symbol, f.kind, f.expiry, f.strike)
    ensures FinishRow(row, index, text, SegmentOf(f.exchangeSegment), f.exchange, f.exchangeSegment, f.tradeDate,
                      f.timestamp + HALF_PAST_FIVE_HOURS, f.side, f.quantity, f.price, f.product) == Good(f)
  {
    hide InstrumentOf, DeriveSession, SquaredOffAtExpiry, Upper, Lower, Get;
    Words();
  }

  /** Printing a fill as an export row and parsing that row back recovers every field of the fill,
      provided its contract text reads back as its instrument. */
  lemma RowRoundTrip(readers: Readers, writers: Writers, f: NormalizedFill, text: string, index: nat,
                     hint: Option<string>)
    requires Inverse(readers, writers) && Reportable(f) && text != "" && Upper(text) == text
    requires f.kind in {EQ, FUT, CE, PE}
    requires InstrumentOf(SegmentOf(f.exchangeSegment), text) == Listed(f.symbol, f.kind, f.expiry, f.strike)
    ensures ParseRow(readers, PrintRow(writers, f, text), index, true, hint) == Good(f)
  {
    hide InstrumentOf, DeriveSession, SquaredOffAtExpiry, FirstMissing, Upper, Lower, PrintRow, Get, FinishRow;
    Words();
    PrintedCells(writers, f, text);
    PrintedRowIsComplete(readers, writers, f, text);
    FinishedRow(PrintRow(writers, f, text), writers, f, text, index);
  }

  /** How the contract of a derivative is printed. */
  datatype Printing =
    | AsFuture(yy: nat, month: nat)
    | AsMonthly(yy: nat, month: nat)
    | AsWeekly(yy: nat, month: nat, day: nat)

  /** The fill's contract can be printed so: the expiry is the one the format stands for, and a weekly
      option's base is not shadowed. */
  predicate Prints(p: Printing, f: NormalizedFill) {
    && p.yy < 100 && 1 <= p.month <= 12 && f.symbol != "" && AllAlnum(f.symbol)
    && match p
       case AsFuture(yy, month) => f.kind == FUT && f.strike.None? && f.expiry == Some(LastThursday(2000 + yy, month))
       case AsMonthly(yy, month) =>
         f.kind in {CE, PE} && f.strike.Some? && f.expiry == Some(LastThursday(2000 + yy, month))
       case AsWeekly(yy, month, day) =>
         && f.kind in {CE, PE} && f.strike.Some? && day < 100
         && Valid(Date(2000 + yy, month, day)) && f.expiry == Some(Date(2000 + yy, month, day))
         && !Shadowed(f.symbol, yy, month)
  }

  function ContractText(p: Printing, f: NormalizedFill): string
    requires Prints(p, f)
  {
    match p
    case AsFuture(yy, month) => PrintFuture(f.symbol, yy, month)
    case AsMonthly(yy, month) => PrintMonthly(f.symbol, yy, month, f.strike.value, f.kind)
    case AsWeekly(yy, month, day) => PrintWeekly(f.symbol, yy, month, day, f.strike.value, f.kind)
  }

  lemma ContractTextReadsBack(p: Printing, f: NormalizedFill)
    requires Prints(p, f)
    ensures var text := ContractText(p, f);
            text != "" && Upper(text) == text
              && InstrumentOf("FO", text) == Listed(f.symbol, f.kind, f.expiry, f.strike)
  {
    hide ParseFoSymbol, PrintFuture, PrintMonthly, PrintWeekly, LastThursday, Shadowed, Valid, Upper;
    match p
    case AsFuture(yy, month) =>
      PrintedFutureIsUpper(f.symbol, yy, month);
      FutureRoundTrip(f.symbol, yy, month);
    case AsMonthly(yy, month) =>
      PrintedMonthlyIsUpper(f.symbol, yy, month, f.strike.value, f.kind);
      MonthlyRoundTrip(f.symbol, yy, month, f.strike.value, f.kind);
    case AsWeekly(yy, month, day) =>
      PrintedWeeklyIsUpper(f.symbol, yy, month, day, f.strike.value, f.kind);
      WeeklyRoundTripIff(f.symbol, yy, month, day, f.strike.value, f.kind);
  }

  /** Printed in any of the three contract formats, a derivative fill's row parses back to the fill. */
  lemma DerivativeRowRoundTrip(readers: Readers, writers: Writers, f: NormalizedFill, p: Printing, index: nat,
                               hint: Option<string>)
    requires Inverse(readers, writers) && Reportable(f) && f.exchangeSegment == "NSE_FO" && Prints(p, f)
    ensures ParseRow(readers, PrintRow(writers, f, ContractText(p, f)), index, true, hint) == Good(f)
  {
    hide InstrumentOf, PrintRow, ParseRow, ContractText, Inverse, Reportable;
    ContractTextReadsBack(p, f);
    RowRoundTrip(readers, writers, f, ContractText(p, f), index, hint);
  }

  /** So does an equity fill's row, printed under its own symbol. */
  lemma EquityRowRoundTrip(readers: Readers, writers: Writers, f: NormalizedFill, index: nat, hint: Option<string>)
    requires Inverse(readers, writers) && Reportable(f) && f.exchangeSegment != "NSE_FO"
    requires f.symbol != "" && Upper(f.symbol) == f.symbol && f.kind == EQ && f.expiry.None? && f.strike.None?
    ensures ParseRow(readers, PrintRow(writers, f, f.symbol), index, true, hint) == Good(f)
  {
    hide PrintRow, ParseRow, Inverse, Reportable, Upper;
    RowRoundTrip(readers, writers, f, f.symbol, index, hint);
  }

  // ---------- rows of a file without a product column ----------

  /** The text an export writes for the fill's instrument. */
  ghost predicate Exported(f: NormalizedFill, text: string) {
    Reportable(f) &&
    if f.exchangeSegment == "NSE_FO" then exists p :: Prints(p, f) && text == ContractText(p, f)
    else f.symbol != "" && Upper(f.symbol) == f.symbol && f.kind == EQ && f.expiry.None? && f.strike.None?
           && text == f.symbol
  }

  /** What an export that leaves the product out writes, with or without a series. */
  function PrintRowWithoutProduct(writers: Writers, f: NormalizedFill, text: string, series: Option<string>): Row {
    var row := PrintRow(writers, f, text) - {"product"};
    if series.Some? then row["series" := series.value] else row
  }

  lemma ExportedRowParses(readers: Readers, writers: Writers, f: NormalizedFill, text: string, index: nat,
                          hint: Option<string>)
    requires Inverse(readers, writers) && Exported(f, text)
    ensures ParseRow(readers, PrintRow(writers, f, text), index, true, hint) == Good(f)
  {
    hide PrintRow, ParseRow, ContractText, Inverse, Reportable, Upper, Prints;
    if f.exchangeSegment == "NSE_FO" {
      var p :| Prints(p, f) && text == ContractText(p, f);
      DerivativeRowRoundTrip(readers, writers, f, p, index, hint);
    } else {
      EquityRowRoundTrip(readers, writers, f, index, hint);
    }
  }

  /** Which product a row without its product cell is given. */
  ghost predicate SettledBy(f: NormalizedFill, series: Option<string>, hint: Option<string>, product: ProductType) {
    if f.exchangeSegment != "NSE_FO" && series.Some? && Upper(series.value) == "BE" then product == CNC
    else match product
         case MIS => hint == Some("MIS")
         case CNC => hint == Some("CNC")
         case NRML => hint == Some("NRML")
         case OtherProduct(_) => false
  }

  /** A row parsed under its product column, and the same row without one: only the product may differ. */
  lemma ProductIsSettledLast(readers: Readers, row: Row, row': Row, index: nat, hint: Option<string>,
                             f: NormalizedFill, product: ProductType)
    requires ParseRow(readers, row, index, true, hint) == Good(f)
    requires forall k :: k in REQUIRED ==> Get(row', k) == Get(row, k)
    requires RowProduct(row', Upper(Get(row', "segment")), false, hint) == Success(product)
    ensures ParseRow(readers, row', index, false, hint) == Good(f.(product := product))
  {
    hide FinishRow, FirstMissing, Upper, Lower, Get, RowProduct, ExchangeSegment;
    SameRequired(row, row', 0);
    SameCells(row, row');
    var segment, exchange := Upper(Get(row, "segment")), Upper(Get(row, "exchange"));
    var day, time := readers.day(Get(row, "trade_date")), readers.timestamp(Get(row, "order_execution_time"));
    var quantity, price := readers.integer(Get(row, "quantity")), readers.decimal(Get(row, "price"));
    FinishTakesProduct(row, row', index, Upper(Get(row, "symbol")), segment, exchange,
                       ExchangeSegment(exchange, segment).value, day.value, time.value,
                       if Lower(Get(row, "trade_type")) == "buy" then BUY else SELL, quantity.value * 10000,
                       price.value, RowProduct(row, segment, true, hint).value, product);
  }

  lemma SameCells(row: Row, row': Row)
    requires forall k :: k in REQUIRED ==> Get(row', k) == Get(row, k)
    ensures Get(row', "symbol") == Get(row, "symbol") && Get(row', "segment") == Get(row, "segment")
    ensures Get(row', "exchange") == Get(row, "exchange") && Get(row', "trade_type") == Get(row, "trade_type")
    ensures Get(row', "trade_date") == Get(row, "trade_date")
    ensures Get(row', "order_execution_time") == Get(row, "order_execution_time")
    ensures Get(row', "quantity") == Get(row, "quantity") && Get(row', "price") == Get(row, "price")
  {
    hide Get;
  }

  predicate SameButProduct(a: RowOutcome, b: RowOutcome, product: ProductType) {
    a.Good? ==> b == Good(a.fill.(product := product))
  }

  lemma FinishTakesProduct(row: Row, row': Row, index: nat, symbol: string, segment: string, exchange: string,
                           exchangeSegment: string, day: Date, local: int, side: Side, quantity: Ticks, price: Ticks,
                           p: ProductType, product: ProductType)
    requires forall k :: k in REQUIRED ==> Get(row', k) == Get(row, k)
    ensures SameButProduct(FinishRow(row, index, symbol, segment, exchange, exchangeSegment, day, local, side,
                                     quantity, price, p),
                           FinishRow(row', index, symbol, segment, exchange, exchangeSegment, day, local, side,
                                     quantity, price, product), product)
  {
    hide InstrumentOf, DeriveSession, SquaredOffAtExpiry, Lower, Get;
    assert "auction" in REQUIRED && "trade_id" in REQUIRED && "order_id" in REQUIRED;
  }

  lemma {:induction false} SameRequired(row: Row, row': Row, from: nat)
    requires from <= |REQUIRED| && forall k :: k in REQUIRED ==> Get(row', k) == Get(row, k)
    ensures FirstMissing(row', from) == FirstMissing(row, from)
    decreases |REQUIRED| - from
  {
    if from < |REQUIRED| {
      assert REQUIRED[from] in REQUIRED;
      SameRequired(row, row', from + 1);
    }
  }

  lemma CellsWithoutProduct(writers: Writers, f: NormalizedFill, text: string, series: Option<string>)
    ensures var row, row' := PrintRow(writers, f, text), PrintRowWithoutProduct(writers, f, text, series);
            && (forall k :: k in REQUIRED ==> Get(row', k) == Get(row, k))
            && Get(row', "segment") == SegmentOf(f.exchangeSegment)
            && Get(row', "series") == (if series.Some? then series.value else "")
  {
  }

  /** Without its product cell a printed row parses back to its fill with the product the hint names, or CNC for an
      equity of series BE whatever the hint. */
  lemma RowWithoutProduct(readers: Readers, writers: Writers, f: NormalizedFill, text: string, series: Option<string>,
                          index: nat, hint: Option<string>, product: ProductType)
    requires Inverse(readers, writers) && Exported(f, text) && SettledBy(f, series, hint, product)
    ensures ParseRow(readers, PrintRowWithoutProduct(writers, f, text, series), index, false, hint) ==
              Good(f.(product := product))
  {
    hide PrintRow, PrintRowWithoutProduct, ParseRow, Inverse, Exported, Get, Upper;
    var row, row' := PrintRow(writers, f, text), PrintRowWithoutProduct(writers, f, text, series);
    Words();
    assert Upper("") == "" by {
      EmptyUpper();
    }
    ExportedRowParses(readers, writers, f, text, index, hint);
    CellsWithoutProduct(writers, f, text, series);
    ProductIsSettledLast(readers, row, row', index, hint, f, product);
  }

  lemma EmptyUpper()
    ensures Upper("") == ""
  {
  }

  // ---------- a whole file ----------

  function Outcomes(readers: Readers, rows: seq<Row>, hasProductColumn: bool,
                    hint: Option<string>): (all: seq<RowOutcome>)
    ensures |all| == |rows|
    ensures forall i :: 0 <= i < |rows| ==> all[i] == ParseRow(readers, rows[i], i + 1, hasProductColumn, hint)
  {
    seq(|rows|, i requires 0 <= i < |rows| => ParseRow(readers, rows[i], i + 1, hasProductColumn, hint))
  }

  function Fills(outcomes: seq<RowOutcome>): (fills: seq<NormalizedFill>)
    ensures |fills| <= |outcomes|
  {
    if outcomes == [] then [] else
    var last := Last(outcomes);
    Fills(Front(outcomes)) + if last.Good? then [last.fill] else []
  }

  function Errors(outcomes: seq<RowOutcome>): (errors: seq<RowError>)
    ensures |errors| <= |outcomes|
  {
    if outcomes == [] then [] else
    var last := Last(outcomes);
    Errors(Front(outcomes)) + if last.Bad? then [last.error] else []
  }

  ghost predicate NoneRaised(outcomes: seq<RowOutcome>) {
    forall i :: 0 <= i < |outcomes| ==> !outcomes[i].Raised?
  }

  /** Fills and errors together number exactly the rows, and both lists keep row order: row i is
      preceded in its list by exactly the earlier rows of its kind. */
  lemma {:induction false} RowsAreSplitInOrder(outcomes: seq<RowOutcome>, i: nat)
    requires NoneRaised(outcomes) && i < |outcomes|
    ensures |Fills(outcomes)| + |Errors(outcomes)| == |outcomes|
    ensures |Fills(outcomes[..i])| + |Errors(outcomes[..i])| == i
    ensures outcomes[i].Good? ==> |Fills(outcomes[..i])| < |Fills(outcomes)| &&
                                  Fills(outcomes)[|Fills(outcomes[..i])|] == outcomes[i].fill
    ensures outcomes[i].Bad? ==> |Errors(outcomes[..i])| < |Errors(outcomes)| &&
                                 Errors(outcomes)[|Errors(outcomes[..i])|] == outcomes[i].error
  {
    var front := Front(outcomes);
    if i < |front| {
      RowsAreSplitInOrder(front, i);
      assert front[..i] == outcomes[..i];
    } else if front != [] {
      RowsAreSplitInOrder(front, 0);
    }
  }

  ghost predicate PreScanRaises(rows: seq<Row>, hint: Option<string>) {
    rows != [] && !HasProductColumn(rows[0]) && hint.None? && exists i :: 0 <= i < |rows| && RowNeedsHint(rows[i])
  }

  /** Which of the outcomes a file has. */
  ghost predicate ParseIs(readers: Readers, detected: bool, rows: seq<Row>, hint: Option<string>, out: ParseOutcome) {
    if !detected then out == UnrecognizedFile
    else if !ValidHint(hint) then out == InvalidHint
    else if rows == [] then out == EmptyFile
    else if PreScanRaises(rows, hint) then out == MissingProductType
    else
      var outcomes := Outcomes(readers, rows, HasProductColumn(rows[0]), hint);
      out == if NoneRaised(outcomes) then Parsed(Fills(outcomes), Errors(outcomes)) else BareValueError
  }

  method Parse(readers: Readers, detected: bool, rows: seq<Row>, hint: Option<string>) returns (out: ParseOutcome)
    ensures ParseIs(readers, detected, rows, hint, out)
    ensures out == UnrecognizedFile <==> !detected
    ensures out == InvalidHint <==>
              detected && hint.Some? && hint.value != "MIS" && hint.value != "CNC" && hint.value != "NRML"
    ensures out == EmptyFile ==> rows == []
  {
    if !detected {
      return UnrecognizedFile;
    }
    if !ValidHint(hint) {
      return InvalidHint;
    }
    if rows == [] {
      return EmptyFile;
    }
    var hasProductColumn := HasProductColumn(rows[0]);
    if !hasProductColumn && hint.None? {
      for k := 0 to |rows|
        invariant forall i :: 0 <= i < k ==> !RowNeedsHint(rows[i])
      {
        if RowNeedsHint(rows[k]) {
          return MissingProductType;
        }
      }
    }
    out := ParseRows(readers, rows, hasProductColumn, hint);
  }

  method ParseRows(readers: Readers, rows: seq<Row>, hasProductColumn: bool, hint: Option<string>)
    returns (out: ParseOutcome)
    ensures var outcomes := Outcomes(readers, rows, hasProductColumn, hint);
            out == if NoneRaised(outcomes) then Parsed(Fills(outcomes), Errors(outcomes)) else BareValueError
  {
    hide ParseRow;
    ghost var outcomes := Outcomes(readers, rows, hasProductColumn, hint);
    var fills, errors := [], [];
    for k := 0 to |rows|
      invariant NoneRaised(outcomes[..k])
      invariant fills == Fills(outcomes[..k]) && errors == Errors(outcomes[..k])
    {
      assert outcomes[..k + 1][..k] == outcomes[..k];
      match ParseRow(readers, rows[k], k + 1, hasProductColumn, hint)
      case Good(fill) => fills := fills + [fill];
      case Bad(error) => errors := errors + [error];
      case Raised =>
        assert outcomes[k].Raised?;
        return BareValueError;
    }
    assert outcomes[..|rows|] == outcomes;
    out := Parsed(fills, errors);
  }

  // ---------- what a parsed file promises ----------

  /** When the pre-scan lets a file through with neither a product column nor a hint, no row ends in
      the missing-product branch; and every parsed file accounts for each of its rows once. */
  lemma PreScanIsSound(readers: Readers, rows: seq<Row>, hint: Option<string>, out: ParseOutcome)
    requires ParseIs(readers, true, rows, hint, out) && out.Parsed?
    ensures |out.fills| + |out.errors| == |rows|
    ensures forall e :: e in out.errors ==> e.reason != NoProductAndNoHint && 1 <= e.row <= |rows|
    ensures forall j, k :: 0 <= j < k < |out.errors| ==> out.errors[j].row < out.errors[k].row
    ensures forall f :: f in out.fills ==> Storable(f)
  {
    hide ParseRow, Storable;
    var outcomes := Outcomes(readers, rows, HasProductColumn(rows[0]), hint);
    RowsAreSplitInOrder(outcomes, 0);
    forall i | 0 <= i < |outcomes| ensures RowFine(outcomes[i], i + 1) {
      BranchesNeverReached(readers, rows[i], i + 1, HasProductColumn(rows[0]), hint);
      AcceptedRowsAreStorable(readers, rows[i], i + 1, HasProductColumn(rows[0]), hint);
    }
    FineRowsFineLists(outcomes);
  }

  ghost predicate RowFine(outcome: RowOutcome, index: nat) {
    match outcome
    case Good(fill) => Storable(fill)
    case Bad(error) => error.row == index && error.reason != NoProductAndNoHint
    case Raised => true
  }

  lemma {:induction false} FineRowsFineLists(outcomes: seq<RowOutcome>)
    requires forall i :: 0 <= i < |outcomes| ==> RowFine(outcomes[i], i + 1)
    ensures forall e :: e in Errors(outcomes) ==> e.reason != NoProductAndNoHint && 1 <= e.row <= |outcomes|
    ensures forall j, k :: 0 <= j < k < |Errors(outcomes)| ==> Errors(outcomes)[j].row < Errors(outcomes)[k].row
    ensures forall f :: f in Fills(outcomes) ==> Storable(f)
  {
    hide Storable;
    if outcomes != [] {
      var front := Front(outcomes);
      FineRowsFineLists(front);
      assert RowFine(Last(outcomes), |outcomes|);
      assert forall j :: 0 <= j < |Errors(front)| ==> Errors(front)[j] in Errors(front);
    }
  }

  // ---------- a printed file ----------

  lemma {:induction false} AllGood(outcomes: seq<RowOutcome>, fills: seq<NormalizedFill>)
    requires |outcomes| == |fills| && forall i :: 0 <= i < |fills| ==> outcomes[i] == Good(fills[i])
    ensures Fills(outcomes) == fills && Errors(outcomes) == []
  {
    if outcomes != [] {
      AllGood(Front(outcomes), Front(fills));
    }
  }

  lemma ProductColumns(writers: Writers, f: NormalizedFill, text: string, series: Option<string>)
    ensures HasProductColumn(PrintRow(writers, f, text))
    ensures !HasProductColumn(PrintRowWithoutProduct(writers, f, text, series))
  {
    assert Lower("product") == "product";
    var row' := PrintRowWithoutProduct(writers, f, text, series);
    forall k | k in row' ensures Lower(k) != "product" {
      OtherColumn(k);
    }
  }

  lemma OtherColumn(k: string)
    requires k in REQUIRED || k == "series"
    ensures Lower(k) != "product"
  {
    hide Lower;
    LowerFirst(k);
  }

  lemma LowerFirst(k: string)
    requires k != ""
    ensures |Lower(k)| == |k| && ('a' <= k[0] <= 'z' ==> Lower(k)[0] == k[0])
  {
  }

  /** An exported file with its product column comes back as the fills it was printed from, in order, with or
      without a hint. */
  lemma ExportedFileParses(readers: Readers, writers: Writers, fills: seq<NormalizedFill>, texts: seq<string>,
                           rows: seq<Row>, hint: Option<string>, out: ParseOutcome)
    requires Inverse(readers, writers) && ValidHint(hint) && |fills| == |texts| == |rows| > 0
    requires forall i :: 0 <= i < |fills| ==>
              Exported(fills[i], texts[i]) && rows[i] == PrintRow(writers, fills[i], texts[i])
    requires ParseIs(readers, true, rows, hint, out)
    ensures out == Parsed(fills, [])
  {
    hide PrintRow, ParseRow, Inverse, Exported, HasProductColumn, ValidHint;
    ProductColumns(writers, fills[0], texts[0], None);
    var outcomes := Outcomes(readers, rows, true, hint);
    forall i | 0 <= i < |rows| ensures outcomes[i] == Good(fills[i]) {
      ExportedRowParses(readers, writers, fills[i], texts[i], i + 1, hint);
    }
    AllGood(outcomes, fills);
  }

  /** An exported file without a product column comes back with the product its hint or series settles for each
      row; with neither it is refused as a whole. */
  lemma FileWithoutProductParses(readers: Readers, writers: Writers, fills: seq<NormalizedFill>, texts: seq<string>,
                                 series: seq<Option<string>>, products: seq<ProductType>, rows: seq<Row>,
                                 hint: Option<string>, out: ParseOutcome)
    requires Inverse(readers, writers) && |fills| == |texts| == |series| == |products| == |rows| > 0
    requires forall i :: 0 <= i < |fills| ==>
              && Exported(fills[i], texts[i]) && SettledBy(fills[i], series[i], hint, products[i])
              && rows[i] == PrintRowWithoutProduct(writers, fills[i], texts[i], series[i])
    requires ValidHint(hint) && ParseIs(readers, true, rows, hint, out)
    ensures out == Parsed(seq(|fills|, i requires 0 <= i < |fills| => fills[i].(product := products[i])), [])
  {
    hide PrintRow, PrintRowWithoutProduct, ParseRow, Inverse, Exported, HasProductColumn, ValidHint, SettledBy,
         RowNeedsHint;
    ProductColumns(writers, fills[0], texts[0], series[0]);
    var outcomes := Outcomes(readers, rows, false, hint);
    var expected := seq(|fills|, i requires 0 <= i < |fills| => fills[i].(product := products[i]));
    forall i | 0 <= i < |rows| ensures outcomes[i] == Good(expected[i]) && (hint.None? ==> !RowNeedsHint(rows[i])) {
      RowWithoutProduct(readers, writers, fills[i], texts[i], series[i], i + 1, hint, products[i]);
      if hint.None? {
        SettledNeedsNoHint(writers, fills[i], texts[i], series[i], products[i]);
      }
    }
    AllGood(outcomes, expected);
  }

  lemma SettledNeedsNoHint(writers: Writers, f: NormalizedFill, text: string, series: Option<string>,
                           product: ProductType)
    requires SettledBy(f, series, None, product) && Exported(f, text)
    ensures !RowNeedsHint(PrintRowWithoutProduct(writers, f, text, series))
  {
    hide PrintRowWithoutProduct, Get, Upper, Exported;
    Words();
    CellsWithoutProduct(writers, f, text, series);
    UpperTwice(series.value);
  }
}
