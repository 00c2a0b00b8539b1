/** Identifiers, orders' sides, policies and the event vocabulary shared by every module.
    Prices are integer ticks; quantities and ids are unbounded naturals. */
module Types {
  type Price = int
  type Qty = nat
  type OrderId = nat
  type ParticipantId = nat

  datatype Option<+T> = None | Some(value: T)

  datatype Side = Bid | Ask {
    function Opposite(): Side {
      if Bid? then Ask else Bid
    }
  }

  datatype TimeInForce = GTC | IOC

  /** Self-trade prevention; `Allow` is the source's `StpPolicy::None`. */
  datatype StpPolicy = Allow | CancelResting | CancelIncoming

  datatype CancelReason = User | IocRemainder | MarketRemainder | SelfTradePrevention

  datatype RejectReason = DuplicateOrderId | UnknownOrderId | ZeroQty

  /** What the handler of an engine sees, in order. */
  datatype Event =
    | Accepted(id: OrderId, side: Side, price: Price, qty: Qty)
    | Traded(taker: OrderId, maker: OrderId, price: Price, qty: Qty, takerSide: Side)
    | Cancelled(id: OrderId, reason: CancelReason)
    | Rejected(id: OrderId, rejection: RejectReason)

  /** The order-entry message that travels over the ring. */
  datatype Message =
    | AddLimit(id: OrderId, participant: ParticipantId, side: Side, price: Price, qty: Qty, tif: TimeInForce)
    | AddMarket(id: OrderId, participant: ParticipantId, side: Side, qty: Qty)
    | Cancel(id: OrderId)
    | Modify(id: OrderId, price: Price, qty: Qty)

  /** `a` is closer to the touch than `b` on side `s`. */
  predicate Better(s: Side, a: Price, b: Price) {
    if s.Bid? then a > b else a < b
  }

  function Min(a: nat, b: nat): nat {
    if a < b then a else b
  }
}
