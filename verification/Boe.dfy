/** The BOE session as a state machine on values (boe_session.cpp, boe_order.cpp). Draws from outside are inputs, as
    in module Ouch. */
module Boe {
  import opened Bytes
  import opened Walks
  import Behavior

  // ---------------------------------------------------------------- requests, orders and events

  /** The 20 bytes of a token. */
  datatype Token = Token(val: Bytes)

  datatype NewOrder = NewOrder(
    token: Token, side: byte, qty: uint32, symbol: Bytes, firm: Bytes, price: uint64, minQty: uint32,
    timeInForce: byte, capacity: byte, display: byte)

  datatype ModifyOrder = ModifyOrder(token: Token, original: Token, firm: Bytes, qty: uint32, price: uint64, side: byte)

  datatype BoeOrder = BoeOrder(
    token: Token, orderId: uint64, side: byte, symbol: Bytes, firm: Bytes, capacity: byte, display: byte,
    timeInForce: byte, minQty: uint32, price: uint64, remaining: int, executed: int)

  const LARGEST_ACTIVE: int := 1000000

  function ParseOrder(no: NewOrder, id: uint64): BoeOrder {
    BoeOrder(no.token, id, no.side, StrNCpy(no.symbol), StrNCpy(no.firm), no.capacity, no.display, no.timeInForce,
             no.minQty, no.price, no.qty, 0)
  }

  predicate StillActive(o: BoeOrder) {
    0 < o.remaining <= LARGEST_ACTIVE
  }

  datatype LoginStatus = LoginOk | SessionDisabled | SessionInUse
  datatype Reason = TooLateToCancel | UnknownOrder | Unforeseen

  datatype Event =
    | LoginResponse(status: LoginStatus)
    | ServerHeartbeat
    | OrderAck(seqNum: uint32, token: Token, orderId: uint64, leaves: uint32)
    | OrderRejected(token: Token)
    | OrderExecution(seqNum: uint32, token: Token, shares: uint32, price: uint64, leaves: uint32)
    | OrderModified(token: Token, orderId: uint64, price: uint64, qty: uint32, leaves: uint32)
    | ModifyRejected(token: Token, reason: Reason)
    | OrderCanceled(token: Token)
    | CancelRejected(token: Token, reason: Reason)

  type Log = seq<Event>
  type Book = map<Token, BoeOrder>
  type Junk = nat -> BoeOrder
  type Manager = Behavior.Manager

  datatype Session = Session(
    active: Book, finished: Book, pendingModify: seq<ModifyOrder>, pendingCancel: seq<Token>, loggedIn: bool,
    seqNum: uint32, lastBeat: int, log: Log)

  datatype Outcome = Outcome(s: Session, m: Manager)

  datatype Phase = Phase(active: Book, finished: Book, log: Log, done: set<Token>, seqNum: uint32, m: Manager)

  function Initial(now: int): Session {
    Session(map[], map[], [], [], false, 0, now, [])
  }

  // ---------------------------------------------------------------- packets

  function HandleLogin(s: Session, m: Manager, coin: bool): Outcome {
    var a := Behavior.Ask(m, Behavior.Login, coin);
    if !a.ok then Outcome(s.(log := s.log + [LoginResponse(SessionDisabled)]), a.m)
    else if s.loggedIn then Outcome(s.(log := s.log + [LoginResponse(SessionInUse)]), a.m)
    else Outcome(s.(loggedIn := true, log := s.log + [LoginResponse(LoginOk)]), a.m)
  }

  function Close(s: Session): Session {
    s.(loggedIn := false)
  }

  function AckMessage(o: BoeOrder, seqNum: uint32): Event {
    OrderAck(seqNum, o.token, o.orderId, U32(o.remaining))
  }

  /** Only the active orders are looked up: a token of a finished order is taken for a new one. */
  function Enter(s: Session, m: Manager, no: NewOrder, id: uint64, coin: bool): Outcome {
    if no.token in s.active then Outcome(s.(log := s.log + [OrderRejected(no.token)]), m)
    else
      var a := Behavior.Ask(m, Behavior.NewOrder, coin);
      if !a.ok then Outcome(s.(log := s.log + [OrderRejected(no.token)]), a.m)
      else
        var o := ParseOrder(no, id);
        var n := U32(s.seqNum + 1);
        Outcome(s.(active := s.active[no.token := o], seqNum := n, log := s.log + [AckMessage(o, n)]), a.m)
  }

  function QueueModify(s: Session, m: Manager, mo: ModifyOrder, coin: bool): Outcome {
    if mo.original !in s.active && mo.original !in s.finished then
      Outcome(s.(log := s.log + [ModifyRejected(mo.original, UnknownOrder)]), m)
    else
      var a := Behavior.Ask(m, Behavior.ModifyOrder, coin);
      if !a.ok then Outcome(s.(log := s.log + [ModifyRejected(mo.original, Unforeseen)]), a.m)
      else Outcome(s.(pendingModify := s.pendingModify + [mo]), a.m)
  }

  /** For a token without active order the second test inserts an order, whose contents are `junk`; the test for an
      unknown order that follows is then never true. */
  function QueueCancel(s: Session, m: Manager, t: Token, junk: BoeOrder, coin: bool): Outcome {
    if t in s.active && s.active[t].remaining > 0 then Outcome(s.(pendingCancel := s.pendingCancel + [t]), m)
    else
      var active := if t in s.active then s.active else s.active[t := junk];
      if active[t].remaining <= 0 || t in s.finished then
        Outcome(s.(active := active, log := s.log + [CancelRejected(t, TooLateToCancel)]), m)
      else
        var a := Behavior.Ask(m, Behavior.CancelOrder, coin);
        if !a.ok then Outcome(s.(active := active, log := s.log + [CancelRejected(t, Unforeseen)]), a.m)
        else Outcome(s.(active := active), a.m)
  }

  // ---------------------------------------------------------------- the passes of one tick

  function Start(s: Session, m: Manager): Phase {
    Phase(s.active, s.finished, s.log, {}, s.seqNum, m)
  }

  function Finish(s: Session, p: Phase): Outcome {
    Outcome(s.(active := p.active - p.done, finished := p.finished, log := p.log, seqNum := p.seqNum), p.m)
  }

  function CancelStep(p: Phase, t: Token, coin: bool): Phase {
    if t !in p.active then p.(log := p.log + [CancelRejected(t, TooLateToCancel)])
    else
      var a := Behavior.Ask(p.m, Behavior.CancelOrder, coin);
      if !a.ok then p.(log := p.log + [CancelRejected(t, Unforeseen)], m := a.m)
      else p.(done := p.done + {t}, log := p.log + [OrderCanceled(t)], m := a.m)
  }

  function CancelAllOf(p: Phase, reqs: seq<Token>, coin: Coins): Phase {
    if reqs == [] then p
    else
      var n := |reqs| - 1;
      CancelStep(CancelAllOf(p, reqs[..n], coin), reqs[n], coin(n))
  }

  function CancelLogic(s: Session, m: Manager, coin: Coins): Outcome {
    Finish(s.(pendingCancel := []), CancelAllOf(Start(s, m), s.pendingCancel, coin))
  }

  function Amended(mo: ModifyOrder, o: BoeOrder): BoeOrder {
    o.(remaining := if o.executed >= mo.qty then 0 else mo.qty - o.executed, side := mo.side, price := mo.price,
       token := mo.token, firm := StrNCpy(mo.firm))
  }

  function ModifiedMessage(o: BoeOrder): Event {
    OrderModified(o.token, o.orderId, o.price, U32(o.remaining + o.executed), U32(o.remaining))
  }

  /** The order moves to its new token. When that is its old one, the order is erased and `operator[]` inserts
      another, with contents `junk`, under the token. A request that leaves no shares marks the old token for
      erasure, not the new one. */
  function ModifyStep(p: Phase, mo: ModifyOrder, junk: BoeOrder): Phase {
    if mo.original !in p.active then p
    else
      var o := p.active[mo.original];
      var moved := p.active[mo.token := Amended(mo, o)] - {mo.original};
      var active := if mo.token == mo.original then moved[mo.token := junk] else moved;
      p.(active := active, log := p.log + [ModifiedMessage(active[mo.token])],
         done := if o.executed >= mo.qty then p.done + {o.token} else p.done)
  }

  function ModifyAllOf(p: Phase, reqs: seq<ModifyOrder>, junk: Junk): Phase {
    if reqs == [] then p
    else
      var n := |reqs| - 1;
      ModifyStep(ModifyAllOf(p, reqs[..n], junk), reqs[n], junk(n))
  }

  /** The queue is not cleared: every request is tried again at the next tick. */
  function ModifyLogic(s: Session, m: Manager, junk: Junk): Outcome {
    Finish(s, ModifyAllOf(Start(s, m), s.pendingModify, junk))
  }

  /** A fill of `qty` shares at most; a negative `qty` leaves the amount to the roll, 0 means no fill. */
  function Fill(p: Phase, k: Token, qty: int, roll: Roll): Phase
    requires k in p.active
  {
    if qty == 0 then p
    else
      var o := p.active[k];
      var shares := Min(if qty < 0 then roll * 100 else qty, o.remaining);
      var o1 := o.(remaining := o.remaining - shares, executed := o.executed + shares);
      var n := U32(p.seqNum + 1);
      p.(active := p.active[k := o1], seqNum := n,
         log := p.log + [OrderExecution(n, o.token, U32(shares), o.price, U32(o1.remaining))])
  }

  function ExecuteStep(p: Phase, k: Token, coin: bool, roll: Roll): Phase
    requires k in p.active
  {
    var a := Behavior.Ask(p.m, Behavior.Execution, coin);
    if !a.ok then p.(m := a.m)
    else if StillActive(p.active[k]) then
      var q := Behavior.TakeExecutionQty(a.m);
      Fill(p.(m := q.m), k, q.qty, roll)
    else p.(finished := p.finished[k := p.active[k]], done := p.done + {k}, m := a.m)
  }

  function ExecuteAllOf(p: Phase, order: seq<Token>, coin: Coins, roll: Rolls): (r: Phase)
    requires forall i :: 0 <= i < |order| ==> order[i] in p.active
    ensures r.active.Keys == p.active.Keys
  {
    if order == [] then p
    else
      var n := |order| - 1;
      ExecuteStep(ExecuteAllOf(p, order[..n], coin, roll), order[n], coin(n), roll(n))
  }

  lemma ExecuteOneMore(p: Phase, order: seq<Token>, i: nat, coin: Coins, roll: Rolls)
    requires i < |order| && forall j :: 0 <= j < |order| ==> order[j] in p.active
    ensures ExecuteAllOf(p, order[..i + 1], coin, roll)
         == ExecuteStep(ExecuteAllOf(p, order[..i], coin, roll), order[i], coin(i), roll(i))
  {
    hide ExecuteStep;
    assert order[..i + 1][..i] == order[..i];
  }

  function ExecutionLogic(s: Session, m: Manager, order: seq<Token>, coin: Coins, roll: Rolls): Outcome
    requires IsOrder(order, s.active.Keys)
  {
    Finish(s, ExecuteAllOf(Start(s, m), order, coin, roll))
  }

  function Heartbeat(s: Session, now: int): Session {
    if s.loggedIn && now - s.lastBeat >= 1 then s.(lastBeat := now, log := s.log + [ServerHeartbeat]) else s
  }

  datatype Draws = Draws(now: int, cancelCoin: Coins, junk: Junk, order: seq<Token>, executeCoin: Coins, roll: Rolls)

  function BeforeExecution(s: Session, m: Manager, d: Draws): Outcome {
    var c := CancelLogic(Heartbeat(s, d.now), m, d.cancelCoin);
    ModifyLogic(c.s, c.m, d.junk)
  }

  function Tick(s: Session, m: Manager, d: Draws): Outcome
    requires IsOrder(d.order, BeforeExecution(s, m, d).s.active.Keys)
  {
    var o := BeforeExecution(s, m, d);
    ExecutionLogic(o.s, o.m, d.order, d.executeCoin, d.roll)
  }

  // ---------------------------------------------------------------- cancel_all

  function CancelAllLog(log: Log, b: Book, order: seq<Token>): Log
    requires forall i :: 0 <= i < |order| ==> order[i] in b
  {
    if order == [] then log
    else
      var n := |order| - 1;
      var before := CancelAllLog(log, b, order[..n]);
      if StillActive(b[order[n]]) then before + [OrderCanceled(b[order[n]].token)] else before
  }

  function CancelAll(s: Session, order: seq<Token>): Session
    requires IsOrder(order, s.active.Keys)
  {
    s.(active := map[], log := CancelAllLog(s.log, s.active, order))
  }

  // ---------------------------------------------------------------- steps

  datatype Step =
    | DoLogin(coin: bool)
    | DoClose
    | DoEnter(no: NewOrder, id: uint64, coin: bool)
    | DoModify(mo: ModifyOrder, coin: bool)
    | DoCancel(token: Token, inserted: BoeOrder, coin: bool)
    | DoTick(draws: Draws)
    | DoCancelAll(order: seq<Token>)

  predicate Legal(s: Session, m: Manager, step: Step) {
    match step
    case DoTick(d) => IsOrder(d.order, BeforeExecution(s, m, d).s.active.Keys)
    case DoCancelAll(order) => IsOrder(order, s.active.Keys)
    case _ => true
  }

  function Apply(s: Session, m: Manager, step: Step): Outcome
    requires Legal(s, m, step)
  {
    match step
    case DoLogin(coin) => HandleLogin(s, m, coin)
    case DoClose => Outcome(Close(s), m)
    case DoEnter(no, id, coin) => Enter(s, m, no, id, coin)
    case DoModify(mo, coin) => QueueModify(s, m, mo, coin)
    case DoCancel(t, junk, coin) => QueueCancel(s, m, t, junk, coin)
    case DoTick(d) => Tick(s, m, d)
    case DoCancelAll(order) => Outcome(CancelAll(s, order), m)
  }
}
