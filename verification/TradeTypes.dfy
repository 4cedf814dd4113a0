/** Values shared by the engine and its repositories: enumerations, table rows and the small
    derivation tables that map one onto another. */
module TradeTypes {

  datatype Option<+T> = None | Some(value: T)

  datatype Result<+R, +E> = Success(value: R) | Failure(error: E)

  type Ticks = x: int | x > 0 witness 1

  type UserId = nat
  type AccountId = nat
  type InstrumentId = nat
  type FillId = nat
  type TradeId = nat

  datatype Side = BUY | SELL
  datatype Direction = LONG | SHORT
  datatype Role = ENTRY | EXIT
  datatype Status = OPEN | PARTIAL | CLOSED
  datatype LotStatus = LotOpen | LotPartiallyClosed | LotClosed
  datatype Family = INTRADAY | DELIVERY | FO
  datatype ProductType = MIS | CNC | NRML | OtherProduct(code: string)
  datatype InstrumentType = EQ | FUT | CE | PE | OtherInstrument(code: string)
  datatype TradeType = TradeMIS | TradeCNC | TradeCNCSameDay | TradeNRMLFut | TradeNRMLOpt

  /** One execution_fills row as the broker reported it; quantity and price are ticks of 10^-4, and
      exitTyped says that the row carries an exit_type. */
  datatype Fill = Fill(id: FillId, user: UserId, account: AccountId, instrument: InstrumentId,
                       timestamp: int, tradeDate: int, side: Side, quantity: Ticks, price: Ticks,
                       product: ProductType, brokerId: Option<string>, createdAt: int, exitTyped: bool,
                       broker: string)

  /** A fill together with the two columns the engine may set. */
  datatype FillRow = FillRow(fill: Fill, trade: Option<TradeId>, role: Option<Role>)

  datatype TradeRow = TradeRow(user: UserId, account: AccountId, instrument: InstrumentId,
                               tradeType: TradeType, direction: Direction, status: Status,
                               tradeDate: int, firstFillAt: int, lastFillAt: Option<int>,
                               totalEntry: int, totalExit: int, net: int,
                               averageEntry: int, averageExit: Option<int>)

  /** tax_lots.trade_id is unique, so the table is keyed by it. */
  datatype LotRow = LotRow(user: UserId, instrument: InstrumentId, purchaseDate: int,
                           original: int, remaining: int, cost: int, status: LotStatus)

  /** A processing unit: the scope of one running position. */
  datatype Unit = Unit(user: UserId, account: AccountId, instrument: InstrumentId, product: ProductType)

  datatype EngineError =
    | CrossingZero(fill: FillId)
    | DataError
    | Inconsistent
    | Ambiguous(first: FillId, second: FillId)
    | EntryTyped(fill: FillId)

  function Opposite(side: Side): Side {
    if side == BUY then SELL else BUY
  }

  function Signed(fill: Fill): int {
    if fill.side == BUY then fill.quantity else -(fill.quantity as int)
  }

  function FamilyFor(product: ProductType): Option<Family> {
    match product
    case MIS => Some(INTRADAY)
    case CNC => Some(DELIVERY)
    case NRML => Some(FO)
    case OtherProduct(_) => None
  }

  function DirectionForFirstFill(side: Side): Direction {
    if side == BUY then LONG else SHORT
  }

  function RoleFor(direction: Direction, side: Side): Role {
    match (direction, side)
    case (LONG, BUY) => ENTRY
    case (LONG, SELL) => EXIT
    case (SHORT, SELL) => ENTRY
    case (SHORT, BUY) => EXIT
  }

  function ProvisionalTradeType(family: Family, instrumentType: InstrumentType): Option<TradeType> {
    match family
    case INTRADAY => Some(TradeMIS)
    case DELIVERY => Some(TradeCNC)
    case FO => match instrumentType
      case FUT => Some(TradeNRMLFut)
      case CE | PE => Some(TradeNRMLOpt)
      case _ => None
  }

  function FinalizeTradeType(provisional: TradeType, openDate: int, closeDate: int): TradeType {
    if provisional == TradeCNC && openDate == closeDate then TradeCNCSameDay else provisional
  }

  function ProductFromTradeType(tradeType: TradeType): ProductType {
    match tradeType
    case TradeMIS => MIS
    case TradeCNC | TradeCNCSameDay => CNC
    case TradeNRMLFut | TradeNRMLOpt => NRML
  }

  function UnitOfRow(row: TradeRow): Unit {
    Unit(row.user, row.account, row.instrument, ProductFromTradeType(row.tradeType))
  }

  /** The reverse map from a stored trade type undoes derivation, before and after finalization. */
  lemma ProductRoundTrip(product: ProductType, instrumentType: InstrumentType, openDate: int, closeDate: int)
    requires FamilyFor(product).Some?
    requires ProvisionalTradeType(FamilyFor(product).value, instrumentType).Some?
    ensures var t := ProvisionalTradeType(FamilyFor(product).value, instrumentType).value;
            ProductFromTradeType(t) == product &&
            ProductFromTradeType(FinalizeTradeType(t, openDate, closeDate)) == product
  {
  }
}
