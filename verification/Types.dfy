/** Scalars, records and message formats shared by the exchange and its trading clients. */
module Types {

  datatype Side = NoSide | Buy | Sell

  /** Value of a side as a signed multiplier. */
  function SideValue(side: Side): int {
    match side
    case Buy => 1
    case Sell => -1
    case NoSide => 0
  }

  function Opposite(side: Side): Side {
    match side
    case Buy => Sell
    case Sell => Buy
    case NoSide => NoSide
  }

  function Min(a: nat, b: nat): nat {
    if a <= b then a else b
  }

  function Abs(x: int): nat {
    if x < 0 then -x else x
  }

  const TWO_32: nat := 0x1_0000_0000
  const ID_INVALID: nat := 0xFFFF_FFFF_FFFF_FFFF
  const TICKER_INVALID: nat := 0xFFFF_FFFF
  const PRICE_INVALID: int := 0x7FFF_FFFF_FFFF_FFFF
  const QTY_INVALID: nat := 0xFFFF_FFFF
  const PRIORITY_INVALID: nat := 0xFFFF_FFFF_FFFF_FFFF

  /** What the market sees of a resting order. */
  datatype MktOrder = MktOrder(id: nat, side: Side, price: int, qty: nat, priority: nat)

  /** A resting order together with the key under which its book indexes it. */
  datatype Entry<K> = Entry(key: K, order: MktOrder)

  /** The exchange indexes orders by client and client order id. */
  datatype ClientKey = ClientKey(client: nat, orderId: nat)

  type Resting = Entry<ClientKey>

  /** Trading clients index orders by market order id. */
  type Public = Entry<nat>

  datatype UpdateKind = INVALID | CLEAR | ADD | MODIFY | CANCEL | TRADE | SNAPSHOT_START | SNAPSHOT_END

  /** A market data message. */
  datatype Update = Update(kind: UpdateKind, id: nat, ticker: nat, side: Side, price: int, qty: nat, priority: nat)

  datatype ResponseKind = ACCEPTED | CANCELED | FILLED | CANCEL_REJECTED

  /** An order response sent to a client. */
  datatype Response = Response(kind: ResponseKind, key: ClientKey, ticker: nat, marketId: nat, side: Side,
                               price: int, execQty: nat, leavesQty: nat)

  /** A client request: a new order, or the cancellation of an earlier one. */
  datatype Request =
    | New(key: ClientKey, side: Side, price: int, qty: nat)
    | CancelOrder(key: ClientKey)
}
