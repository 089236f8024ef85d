/**
  The vocabulary of the exchange: orders, commands and output events.
  Prices are integer ticks, quantities are 64-bit unsigned integers.
 */
module Types {
  const U64_MAX: nat := 0xFFFF_FFFF_FFFF_FFFF

  type Price = int
  type Qty = q: nat | q <= U64_MAX
  type OrderId = nat
  type SymbolId = nat

  /** A place in the order arena. */
  type Slot = nat

  datatype Option<+T> = None | Some(value: T)

  datatype Side = Buy | Sell {
    function Opposite(): Side {
      if Buy? then Sell else Buy
    }
  }

  datatype OrderType = Limit | Market | Ioc | Fok | StopMarket | StopLimit

  datatype TimeInForce = Gtc | Day

  datatype RejectReason =
    | UnknownSymbol | DuplicateId | UnknownId | ZeroQty | BadPrice
    | FokUnfillable | MarketNoLiquidity | SelfTrade | RateLimited

  /** What the book knows about one order. The links of the intrusive list live in OrderBook.Node. */
  datatype Order = Order(
    id: OrderId, symbol: SymbolId, side: Side, kind: OrderType, tif: TimeInForce,
    price: Price, stopPrice: Price, qty: Qty, remaining: Qty, seqNo: nat, ts: nat)

  datatype NewOrder = NewOrder(
    id: OrderId, symbol: SymbolId, side: Side, kind: OrderType, tif: TimeInForce,
    price: Price, stopPrice: Price, qty: Qty)

  datatype Command =
    | New(order: NewOrder)
    | Cancel(id: OrderId, symbol: SymbolId)
    | Replace(id: OrderId, newPrice: Price, newQty: Qty, symbol: SymbolId)

  datatype Sequenced = Sequenced(seqNo: nat, ts: nat, cmd: Command)

  datatype OutputEvent =
    | Accepted(id: OrderId, seqNo: nat)
    | Rejected(id: OrderId, reason: RejectReason, seqNo: nat)
    | Trade(seqNo: nat, taker: OrderId, maker: OrderId, price: Price, qty: Qty, side: Side, ts: nat)
    | PartiallyFilled(id: OrderId, filled: Qty, remaining: Qty, seqNo: nat)
    | Filled(id: OrderId, seqNo: nat)
    | Cancelled(id: OrderId, seqNo: nat)
    | Replaced(id: OrderId, seqNo: nat)

  predicate IsStop(kind: OrderType) {
    kind.StopMarket? || kind.StopLimit?
  }

  /** Order kinds whose limit price the matching loop never looks at. */
  predicate IgnoresLimit(kind: OrderType) {
    kind.Market? || kind.Ioc? || kind.Fok?
  }

  predicate NeedsPrice(kind: OrderType) {
    kind.Limit? || kind.Ioc? || kind.Fok? || kind.StopLimit?
  }

  function OrderOf(no: NewOrder, seqNo: nat, ts: nat): Order {
    Order(no.id, no.symbol, no.side, no.kind, no.tif, no.price, no.stopPrice, no.qty, no.qty, seqNo, ts)
  }

  function CommandSymbol(cmd: Command): SymbolId {
    match cmd
    case New(no) => no.symbol
    case Cancel(_, symbol) => symbol
    case Replace(_, _, _, symbol) => symbol
  }

  function Min(a: nat, b: nat): nat {
    if a <= b then a else b
  }
}
