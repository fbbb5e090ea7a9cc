/** Domain values shared by every component: identifiers, commands, events, reject reasons. */
module Types {

  datatype Option<+T> = None | Some(value: T)

  const U64_MAX: nat := 0xFFFF_FFFF_FFFF_FFFF

  /** The number of 128-bit values: notionals are added modulo this. */
  const W128: nat := 0x1_0000_0000_0000_0000_0000_0000_0000_0000

  /** Prices are 64-bit ticks: a market order's bound relies on no price exceeding U64_MAX. */
  type Price = p: nat | p <= 0xFFFF_FFFF_FFFF_FFFF
  type Qty = nat
  type AccountId = nat
  type OrderId = nat

  datatype Side = Buy | Sell
  datatype OrderKind = Limit | Market
  datatype Tif = Gtc | Ioc | Fok | PostOnly
  datatype FillState = PartiallyFilled | FullyFilled

  datatype RejectReason =
    | MalformedMessage
    | UnknownMessageType
    | DuplicateOrderId
    | UnknownOrderId
    | ZeroQuantity
    | WouldCross
    | NotFullyFillable
    | KillSwitchActive
    | MaxOpenOrders
    | MaxNotional
    | PriceBandViolation
    | ZeroPrice

  /** Order ids are unique per account only, so every index is keyed on the pair. */
  datatype OrderKey = OrderKey(account: AccountId, order: OrderId)

  datatype Command =
    | NewOrder(key: OrderKey, side: Side, price: Price, qty: Qty, kind: OrderKind, tif: Tif, clientTs: nat)
    | CancelOrder(key: OrderKey)
    | CancelReplace(key: OrderKey, newPrice: Price, newQty: Qty)
    | MassCancel(account: AccountId)
    | KillSwitch(engaged: bool)
    | Snapshot

  /** One side of the top of book: best price and the total quantity resting there. */
  type Touch = Option<(Price, Qty)>

  datatype Event =
    | Accepted(key: OrderKey, restingQty: Qty)
    | Rejected(key: OrderKey, reason: RejectReason)
    | Filled(key: OrderKey, side: Side, price: Price, qty: Qty, restingQty: Qty, state: FillState)
    | Cancelled(key: OrderKey)
    | Replaced(key: OrderKey, newQty: Qty, priorityRetained: bool)
    | Trade(price: Price, qty: Qty, takerSide: Side)
    | BookUpdate(bestBid: Touch, bestAsk: Touch)
    | SnapshotLevel(side: Side, price: Price, qty: Qty, orderCount: nat)
    | SnapshotAccount(account: AccountId, openOrders: nat, notional: nat)
    | SnapshotSummary(bestBid: Touch, bestAsk: Touch, lastTrade: Option<Price>, levelCount: nat, accountCount: nat)

  function Opposite(side: Side): Side {
    match side
    case Buy => Sell
    case Sell => Buy
  }

  function Min(a: nat, b: nat): nat {
    if a <= b then a else b
  }

  /** Subtraction that stops at zero. */
  function Monus(a: nat, b: nat): nat {
    if a <= b then 0 else a - b
  }

  predicate CanRest(kind: OrderKind, tif: Tif) {
    kind.Limit? && (tif.Gtc? || tif.PostOnly?)
  }

  /** Orders that may come to rest beside those already there. An amend only reuses the slot it vacates. */
  predicate TakesSlot(c: Command) {
    c.NewOrder? && CanRest(c.kind, c.tif)
  }

  /** What the gateway has validated before a command reaches the engine. */
  predicate WellFormed(c: Command) {
    c.NewOrder? ==> c.qty > 0 && (c.kind.Limit? ==> c.price > 0)
  }
}
