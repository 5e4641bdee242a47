/** The OUCH session as a state machine on values (ouch_session.cpp).

    Three things the program does not determine are inputs here: what a random behaviour draws (`coin`), what
    rand() draws for a fill (`roll`), and the contents of an order that `operator[]` inserts for a missing key
    (`junk`). The order in which a map is walked is an input as well, so every statement holds for all of them. */
module Ouch {
  import opened Bytes
  import opened OuchOrders
  import opened Walks
  import Behavior

  type Book = map<Token, OuchOrder>
  type Junk = nat -> OuchOrder
  type Manager = Behavior.Manager

  datatype Session = Session(
    active: Book, finished: Book, pendingCancel: seq<CancelOrder>, pendingModify: seq<ModifyOrder>,
    pendingReplace: seq<ReplaceOrder>, loggedIn: bool, lastBeat: int, log: Log)

  /** A session together with the manager it shares with the other session. */
  datatype Outcome = Outcome(s: Session, m: Manager)

  /** What one pass over a queue or over the book changes; `done` are the keys whose erasure is deferred. */
  datatype Phase = Phase(active: Book, finished: Book, log: Log, done: set<Token>, m: Manager)

  function Initial(now: int): Session {
    Session(map[], map[], [], [], [], false, now, [])
  }

  // ---------------------------------------------------------------- packets

  function HandleLogin(s: Session, m: Manager, coin: bool): Outcome {
    if s.loggedIn then Outcome(s.(log := s.log + [LoginRejected(SessionNotAvailable)]), m)
    else
      var a := Behavior.Ask(m, Behavior.Login, coin);
      if !a.ok then Outcome(s.(log := s.log + [LoginRejected(NotAuthorized)]), a.m)
      else Outcome(s.(loggedIn := true, log := s.log + [LoginAccepted]), a.m)
  }

  /** A logout request, and equally a dropped connection. */
  function Close(s: Session): Session {
    s.(loggedIn := false, log := s.log + [SessionClosed])
  }

  function Enter(s: Session, m: Manager, eo: EnterOrder, id: uint64, now: int, coin: bool): Outcome {
    if !ValidEnter(eo) then Outcome(s, m)
    else if eo.qty > MAX_SHARES then Outcome(s.(log := s.log + [Rejected(eo.token, ExceededConfiguredSafety)]), m)
    else if !s.loggedIn then Outcome(s.(log := s.log + [Rejected(eo.token, Other)]), m)
    else
      var a := Behavior.Ask(m, Behavior.NewOrder, coin);
      if !a.ok then Outcome(s.(log := s.log + [Rejected(eo.token, Other)]), a.m)
      else if eo.token !in s.active && eo.token !in s.finished then
        var o := ParseOrder(eo, id, now);
        Outcome(s.(active := s.active[eo.token := o], log := s.log + [Accepted(AcceptedMessage(o))]), a.m)
      else Outcome(s, a.m)
  }

  function QueueModify(s: Session, m: Manager, mo: ModifyOrder, coin: bool): Outcome {
    if !ValidModify(mo) || mo.token !in s.active then Outcome(s, m)
    else
      var a := Behavior.Ask(m, Behavior.ModifyOrder, coin);
      if !a.ok then Outcome(s, a.m) else Outcome(s.(pendingModify := s.pendingModify + [mo]), a.m)
  }

  function QueueReplace(s: Session, m: Manager, ro: ReplaceOrder, coin: bool): Outcome {
    if !ValidReplace(ro) then Outcome(s, m)
    else
      var a := Behavior.Ask(m, Behavior.ReplaceOrder, coin);
      if !a.ok then Outcome(s, a.m) else Outcome(s.(pendingReplace := s.pendingReplace + [ro]), a.m)
  }

  function QueueCancel(s: Session, m: Manager, co: CancelOrder, coin: bool): Outcome {
    if !ValidCancel(co) || co.token !in s.active then Outcome(s, m)
    else
      var a := Behavior.Ask(m, Behavior.CancelOrder, coin);
      if !a.ok then Outcome(s, a.m) else Outcome(s.(pendingCancel := s.pendingCancel + [co]), a.m)
  }

  // ---------------------------------------------------------------- the passes of one tick

  function Start(s: Session, m: Manager): Phase {
    Phase(s.active, s.finished, s.log, {}, m)
  }

  /** The deferred erasures at the end of a pass. */
  function Finish(s: Session, p: Phase): Outcome {
    Outcome(s.(active := p.active - p.done, finished := p.finished, log := p.log), p.m)
  }

  function CancelStep(p: Phase, co: CancelOrder, coin: bool): Phase {
    if co.token !in p.active then p.(log := p.log + [CancelReject(co.token)])
    else
      var a := Behavior.Ask(p.m, Behavior.CancelOrder, coin);
      if !a.ok then p.(log := p.log + [CancelReject(co.token)], m := a.m)
      else
        var o := p.active[co.token];
        var current := U32(o.remaining);
        if co.qty == 0 then
          p.(done := p.done + {co.token}, log := p.log + [Canceled(co.token, o.remaining, UserRequested)], m := a.m)
        else if co.qty >= current then p.(m := a.m)
        else
          p.(active := p.active[co.token := o.(remaining := co.qty)],
             log := p.log + [Canceled(co.token, o.remaining - co.qty, UserRequested)], m := a.m)
  }

  function CancelAllOf(p: Phase, reqs: seq<CancelOrder>, coin: Coins): Phase {
    if reqs == [] then p
    else
      var n := |reqs| - 1;
      CancelStep(CancelAllOf(p, reqs[..n], coin), reqs[n], coin(n))
  }

  function CancelLogic(s: Session, m: Manager, coin: Coins): Outcome {
    Finish(s.(pendingCancel := []), CancelAllOf(Start(s, m), s.pendingCancel, coin))
  }

  /** The switch of modify_logic. Its cases have no break: SELL runs into SELL_SHORT_EXEMPT, which runs into
      SELL_SHORT, so a sell order has to pass every test from its own case downwards. */
  predicate Admissible(side: byte, newSide: byte) {
    && (side == SELL ==> newSide in [SELL_SHORT, SELL_SHORT_EXEMPT])
    && (side in [SELL, SELL_SHORT_EXEMPT] ==> newSide in [SELL_SHORT, SELL])
    && (side in [SELL, SELL_SHORT_EXEMPT, SELL_SHORT] ==> newSide in [SELL_SHORT_EXEMPT, SELL])
  }

  function ModifyStep(p: Phase, mo: ModifyOrder): Phase {
    if mo.token !in p.active then p
    else
      var o := p.active[mo.token];
      if !Admissible(o.side, mo.side) then p
      else if o.executed >= mo.qty then
        p.(done := p.done + {o.token}, log := p.log + [Modified(mo.token, mo.side, 0)])
      else
        var o1 := o.(side := mo.side, remaining := mo.qty - o.executed);
        p.(active := p.active[mo.token := o1], log := p.log + [Modified(mo.token, mo.side, o1.remaining)])
  }

  function ModifyAllOf(p: Phase, reqs: seq<ModifyOrder>): Phase {
    if reqs == [] then p
    else
      var n := |reqs| - 1;
      ModifyStep(ModifyAllOf(p, reqs[..n]), reqs[n])
  }

  /** The queue is not cleared: every request is tried again at the next tick. */
  function ModifyLogic(s: Session, m: Manager): Outcome {
    Finish(s, ModifyAllOf(Start(s, m), s.pendingModify))
  }

  /** The order a replace works on: `operator[]` inserts one when the key is missing. */
  function Target(b: Book, t: Token, junk: OuchOrder): OuchOrder {
    if t in b then b[t] else junk
  }

  predicate Closes(ro: ReplaceOrder, o: OuchOrder) {
    ro.qty > MAX_SHARES || ro.qty <= o.executed
  }

  function Renewed(ro: ReplaceOrder, o: OuchOrder): OuchOrder {
    o.(token := ro.token, remaining := ro.qty - o.executed, timeInForce := ro.timeInForce,
       remainTimeInForce := I32(ro.timeInForce), price := ro.price, sweep := ro.sweep)
  }

  /** Swapping the two entries and erasing the existing key leaves the renewed order under the new token, except
      that a replacement by the same token erases it. Whatever was stored under the new token is dropped. */
  function ReplaceStep(p: Phase, ro: ReplaceOrder, junk: OuchOrder): Phase {
    var t := ro.existing;
    var o := Target(p.active, t, junk);
    if Closes(ro, o) then
      p.(active := p.active[t := o], done := p.done + {t},
         log := p.log + [Canceled(t, o.remaining, SystemCancel)])
    else
      p.(active := p.active[ro.token := Renewed(ro, o)] - {t},
         log := p.log + [Replaced(ReplacedMessage(ro, Renewed(ro, o)))])
  }

  function ReplaceAllOf(p: Phase, reqs: seq<ReplaceOrder>, junk: Junk): Phase {
    if reqs == [] then p
    else
      var n := |reqs| - 1;
      ReplaceStep(ReplaceAllOf(p, reqs[..n], junk), reqs[n], junk(n))
  }

  /** Each replace names an order that is in the book when its turn comes. */
  ghost predicate ReplacesLive(p: Phase, reqs: seq<ReplaceOrder>, junk: Junk) {
    forall i :: 0 <= i < |reqs| ==> reqs[i].existing in ReplaceAllOf(p, reqs[..i], junk).active
  }

  function ReplaceLogic(s: Session, m: Manager, junk: Junk): Outcome {
    Finish(s.(pendingReplace := []), ReplaceAllOf(Start(s, m), s.pendingReplace, junk))
  }

  /** What one admitted visit does to one order. */
  datatype Visit =
    | Keeps(order: OuchOrder, messages: Log)
    | Finishes(order: OuchOrder)
    | Drops(order: OuchOrder, messages: Log)

  /** A fill of `roll` hundred shares, or of what remains; none when that exceeds a minimum quantity. */
  function Fill(o: OuchOrder, roll: Roll): Visit {
    var qty := Min(roll * 100, o.remaining);
    if o.minQty != 0 && qty > o.minQty then Keeps(o, [])
    else
      Keeps(o.(remaining := o.remaining - qty, executed := o.executed + qty), [Executed(o.token, qty, o.price)])
  }

  function VisitOrder(o: OuchOrder, now: int, roll: Roll): Visit {
    var v := Expired(o, now);
    if v.yes then Drops(v.order, [Canceled(v.order.token, v.order.remaining, TimeOut)])
    else if v.order.timeInForce == IOC then
      Drops(v.order, if v.order.remaining != 0
                     then [Canceled(v.order.token, v.order.remaining, ImmediateOrCancel)] else [])
    else
      var w := StillActive(v.order, now);
      if w.yes then Fill(w.order, roll) else Finishes(w.order)
  }

  function Settle(p: Phase, k: Token, visit: Visit): Phase {
    match visit
    case Keeps(o, msgs) => p.(active := p.active[k := o], log := p.log + msgs)
    case Finishes(o) => p.(active := p.active[k := o], finished := p.finished[k := o], done := p.done + {k})
    case Drops(o, msgs) => p.(active := p.active[k := o], log := p.log + msgs, done := p.done + {k})
  }

  function ExecuteStep(p: Phase, k: Token, now: int, coin: bool, roll: Roll): Phase
    requires k in p.active
  {
    var a := Behavior.Ask(p.m, Behavior.Execution, coin);
    if !a.ok then p.(m := a.m) else Settle(p.(m := a.m), k, VisitOrder(p.active[k], now, roll))
  }

  function ExecuteAllOf(p: Phase, order: seq<Token>, now: int, coin: Coins, roll: Rolls): (r: Phase)
    requires forall i :: 0 <= i < |order| ==> order[i] in p.active
    ensures r.active.Keys == p.active.Keys
  {
    if order == [] then p
    else
      var n := |order| - 1;
      ExecuteStep(ExecuteAllOf(p, order[..n], now, coin, roll), order[n], now, coin(n), roll(n))
  }

  lemma ExecuteOneMore(p: Phase, order: seq<Token>, i: nat, now: int, coin: Coins, roll: Rolls)
    requires i < |order| && forall j :: 0 <= j < |order| ==> order[j] in p.active
    ensures ExecuteAllOf(p, order[..i + 1], now, coin, roll)
         == ExecuteStep(ExecuteAllOf(p, order[..i], now, coin, roll), order[i], now, coin(i), roll(i))
  {
    hide ExecuteStep;
    assert order[..i + 1][..i] == order[..i];
  }

  function ExecutionLogic(s: Session, m: Manager, order: seq<Token>, now: int, coin: Coins, roll: Rolls): Outcome
    requires IsOrder(order, s.active.Keys)
  {
    Finish(s, ExecuteAllOf(Start(s, m), order, now, coin, roll))
  }

  function Heartbeat(s: Session, now: int): Session {
    if s.loggedIn && now - s.lastBeat >= 1 then s.(lastBeat := now, log := s.log + [ServerHeartbeat]) else s
  }

  /** Everything one tick draws from outside; `order` is the walk of the book in execution_logic. */
  datatype Draws = Draws(now: int, cancelCoin: Coins, junk: Junk, order: seq<Token>, executeCoin: Coins, roll: Rolls)

  /** The tick up to the execution pass. */
  function BeforeExecution(s: Session, m: Manager, d: Draws): Outcome {
    var s0 := Heartbeat(s, d.now);
    var c := CancelLogic(s0, m, d.cancelCoin);
    var o := ModifyLogic(c.s, c.m);
    ReplaceLogic(o.s, o.m, d.junk)
  }

  function Tick(s: Session, m: Manager, d: Draws): Outcome
    requires IsOrder(d.order, BeforeExecution(s, m, d).s.active.Keys)
  {
    var o := BeforeExecution(s, m, d);
    ExecutionLogic(o.s, o.m, d.order, d.now, d.executeCoin, d.roll)
  }

  // ---------------------------------------------------------------- cancel_all

  function CancelAllStep(log: Log, o: OuchOrder, now: int): Log {
    var v := StillActive(o, now);
    if v.yes then log + [Canceled(v.order.token, v.order.remaining, SystemCancel)] else log
  }

  function CancelAllLog(log: Log, b: Book, order: seq<Token>, now: int): Log
    requires forall i :: 0 <= i < |order| ==> order[i] in b
  {
    if order == [] then log
    else
      var n := |order| - 1;
      CancelAllStep(CancelAllLog(log, b, order[..n], now), b[order[n]], now)
  }

  function CancelAll(s: Session, order: seq<Token>, now: int): Session
    requires IsOrder(order, s.active.Keys)
  {
    s.(active := map[], log := CancelAllLog(s.log, s.active, order, now))
  }

  // ---------------------------------------------------------------- steps and runs of one session

  datatype Step =
    | DoLogin(coin: bool)
    | DoClose
    | DoEnter(eo: EnterOrder, id: uint64, now: int, coin: bool)
    | DoModify(mo: ModifyOrder, coin: bool)
    | DoReplace(ro: ReplaceOrder, coin: bool)
    | DoCancel(co: CancelOrder, coin: bool)
    | DoTick(draws: Draws)
    | DoCancelAll(order: seq<Token>, now: int)

  /** The walk of the map that the step names is a walk of the map as it is then. */
  predicate Legal(s: Session, m: Manager, step: Step) {
    match step
    case DoTick(d) => IsOrder(d.order, BeforeExecution(s, m, d).s.active.Keys)
    case DoCancelAll(order, now) => IsOrder(order, s.active.Keys)
    case _ => true
  }

  function Apply(s: Session, m: Manager, step: Step): Outcome
    requires Legal(s, m, step)
  {
    match step
    case DoLogin(coin) => HandleLogin(s, m, coin)
    case DoClose => Outcome(Close(s), m)
    case DoEnter(eo, id, now, coin) => Enter(s, m, eo, id, now, coin)
    case DoModify(mo, coin) => QueueModify(s, m, mo, coin)
    case DoReplace(ro, coin) => QueueReplace(s, m, ro, coin)
    case DoCancel(co, coin) => QueueCancel(s, m, co, coin)
    case DoTick(d) => Tick(s, m, d)
    case DoCancelAll(order, now) => Outcome(CancelAll(s, order, now), m)
  }
}
