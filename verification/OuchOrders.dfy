/** OUCH messages, requests and orders (ouch_messages.h, order.h, ouch_order.cpp). */
module OuchOrders {
  import opened Bytes

  /** The 14 bytes of a token; `_str_` turns them into the key of the session's maps. */
  datatype Token = Token(val: Bytes)

  function Ascii(c: char): byte
    requires c as int < 128
  {
    c as int as byte
  }

  const MAX_SHARES: int := 999999
  const LARGEST_REQUEST: int := 1000000

  const BUY: byte := Ascii('B')
  const SELL: byte := Ascii('S')
  const SELL_SHORT: byte := Ascii('T')
  const SELL_SHORT_EXEMPT: byte := Ascii('E')

  /** Times in force with a meaning of their own; any other value is a number of seconds. */
  const IOC: uint32 := 0
  const MARKET: uint32 := 99998
  const SYSTEM: uint32 := 99999

  const DISPLAYS: seq<byte> :=
    [Ascii('A'), Ascii('Y'), Ascii('N'), Ascii('P'), Ascii('I'), Ascii('M'), Ascii('W'), Ascii('L'), Ascii('O'),
     Ascii('T'), Ascii('Q')]
  const SWEEPS: seq<byte> := [Ascii('Y'), Ascii('N'), Ascii('y')]
  const CROSS_TYPES: seq<byte> := [Ascii('N'), Ascii('O'), Ascii('C'), Ascii('H'), Ascii('S'), Ascii('R')]
  const CUSTOMER_TYPES: seq<byte> := [Ascii(' '), Ascii('R'), Ascii('N')]

  // ---------------------------------------------------------------- requests (client to exchange)

  datatype EnterOrder = EnterOrder(
    token: Token, side: byte, qty: uint32, symbol: Bytes, price: int32, timeInForce: uint32, firm: Bytes,
    display: byte, capacity: byte, sweep: byte, minQty: uint32, crossType: byte, customerType: byte)

  datatype ReplaceOrder = ReplaceOrder(
    existing: Token, token: Token, qty: uint32, price: int32, timeInForce: uint32, display: byte, sweep: byte,
    minQty: uint32)

  datatype CancelOrder = CancelOrder(token: Token, qty: uint32)

  datatype ModifyOrder = ModifyOrder(token: Token, side: byte, qty: uint32)

  predicate ValidPrice(price: int32) {
    price <= 1999999900 || price == 2147483647
  }

  predicate ValidEnter(eo: EnterOrder) {
    && eo.side in [BUY, SELL, SELL_SHORT, SELL_SHORT_EXEMPT]
    && ValidPrice(eo.price)
    && 0 < eo.qty <= LARGEST_REQUEST
    && eo.display in DISPLAYS
    && eo.sweep in SWEEPS
    && eo.crossType in CROSS_TYPES
    && eo.customerType in CUSTOMER_TYPES
  }

  predicate ValidReplace(ro: ReplaceOrder) {
    && 0 < ro.qty <= LARGEST_REQUEST
    && ro.display in DISPLAYS
    && ro.sweep in SWEEPS
    && ValidPrice(ro.price)
  }

  predicate ValidCancel(co: CancelOrder) {
    co.qty <= LARGEST_REQUEST
  }

  predicate ValidModify(mo: ModifyOrder) {
    mo.qty <= LARGEST_REQUEST
  }

  // ---------------------------------------------------------------- orders

  datatype OrderState = Live | Dead

  /** An order as the session stores it. Quantities are int64 in the source, messages carry uint32. */
  datatype OuchOrder = OuchOrder(
    token: Token, orderId: uint64, received: int, side: byte, symbol: Bytes, firm: Bytes, capacity: byte,
    display: byte, sweep: byte, crossType: byte, price: int32, minQty: uint32, timeInForce: uint32,
    remainTimeInForce: int32, remaining: int, executed: int, state: OrderState)

  /** A new order: `id` and `now` are what the constructor draws from rand() and the clock. */
  function ParseOrder(eo: EnterOrder, id: uint64, now: int): OuchOrder {
    OuchOrder(eo.token, id, now, eo.side, StrNCpy(eo.symbol), StrNCpy(eo.firm), eo.capacity, eo.display, eo.sweep,
              eo.crossType, eo.price, eo.minQty, eo.timeInForce, I32(eo.timeInForce), eo.qty, 0, Live)
  }

  datatype Verdict = Verdict(yes: bool, order: OuchOrder)

  /** Has the time in force run out? The answer is remembered in the order. */
  function Expired(o: OuchOrder, now: int): Verdict {
    var o1 := if o.timeInForce != IOC && o.timeInForce != MARKET && o.timeInForce != SYSTEM
              then o.(remainTimeInForce := I32(o.timeInForce - (now - o.received)))
              else o;
    Verdict(o1.remainTimeInForce <= 0, o1)
  }

  function StillActive(o: OuchOrder, now: int): Verdict {
    if o.remaining <= 0 then Verdict(false, o.(state := Dead))
    else
      var v := Expired(o, now);
      if v.yes || v.order.state == Dead then Verdict(false, v.order.(state := Dead)) else Verdict(true, v.order)
  }

  // ---------------------------------------------------------------- events (exchange to client)

  datatype CancelReason = UserRequested | ImmediateOrCancel | TimeOut | SystemCancel
  datatype RejectedReason = ExceededConfiguredSafety | Other
  datatype LoginRejectReason = NotAuthorized | SessionNotAvailable

  datatype OrderAccepted = OrderAccepted(
    token: Token, side: byte, qty: uint32, symbol: Bytes, price: int32, timeInForce: uint32, firm: Bytes,
    display: byte, reference: uint64, capacity: byte, sweep: byte, minQty: uint32, crossType: byte)

  datatype OrderReplaced = OrderReplaced(
    original: Token, token: Token, side: byte, qty: int, symbol: Bytes, price: int32, timeInForce: uint32,
    firm: Bytes, reference: uint64, capacity: byte, minQty: uint32)

  /** What the client can observe, in order: the messages sent, and the end of its login (a logout it asked for
      or a dropped connection), which is not a message. The quantities of Canceled, Modified, Executed and Replaced
      are the int64 values the messages are made from; what is sent of such a quantity q is U32(q). */
  datatype Event =
    | LoginAccepted
    | LoginRejected(loginReason: LoginRejectReason)
    | ServerHeartbeat
    | Accepted(accepted: OrderAccepted)
    | Rejected(token: Token, rejectReason: RejectedReason)
    | Canceled(token: Token, decrement: int, cancelReason: CancelReason)
    | CancelReject(token: Token)
    | Modified(token: Token, side: byte, shares: int)
    | Executed(token: Token, qty: int, price: int32)
    | Replaced(replaced: OrderReplaced)
    | SessionClosed

  type Log = seq<Event>

  function AcceptedMessage(o: OuchOrder): OrderAccepted {
    OrderAccepted(o.token, o.side, U32(o.remaining), StrNCpy(o.symbol), o.price, o.timeInForce, StrNCpy(o.firm),
                  o.display, o.orderId, o.capacity, o.sweep, o.minQty, o.crossType)
  }

  function ReplacedMessage(ro: ReplaceOrder, o: OuchOrder): OrderReplaced {
    OrderReplaced(ro.existing, o.token, o.side, o.remaining, StrNCpy(o.symbol), o.price, o.timeInForce,
                  StrNCpy(o.firm), o.orderId, o.capacity, o.minQty)
  }
}
