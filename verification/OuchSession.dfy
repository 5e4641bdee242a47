/** The OUCH session object: its fields are updated in place, and every method is proved against the state
    machine of module Ouch. */
module OuchSession {
  import opened Bytes
  import opened OuchOrders
  import opened Ouch
  import opened Walks
  import Behavior

  class OuchSession {
    var active: Book
    var finished: Book
    var pendingCancel: seq<CancelOrder>
    var pendingModify: seq<ModifyOrder>
    var pendingReplace: seq<ReplaceOrder>
    var loggedIn: bool
    var lastBeat: int
    var log: Log
    const bm: Behavior.BehaviorManager

    function View(): Session
      reads this
    {
      Session(active, finished, pendingCancel, pendingModify, pendingReplace, loggedIn, lastBeat, log)
    }

    function Both(): Outcome
      reads this, bm
    {
      Outcome(View(), bm.View())
    }

    constructor (bm: Behavior.BehaviorManager, now: int)
      ensures View() == Initial(now) && this.bm == bm
    {
      active, finished := map[], map[];
      pendingCancel, pendingModify, pendingReplace := [], [], [];
      loggedIn, lastBeat, log := false, now, [];
      this.bm := bm;
    }

    method Send(e: Event)
      modifies this`log
      ensures log == old(log) + [e]
    {
      log := log + [e];
    }

    // -------------------------------------------------------------- packets

    method HandleLoginRequest(coin: bool)
      modifies this, bm
      ensures Both() == HandleLogin(old(View()), old(bm.View()), coin)
    {
      if loggedIn {
        Send(LoginRejected(SessionNotAvailable));
      } else {
        var ok := bm.Question(Behavior.Login, coin);
        if !ok {
          Send(LoginRejected(NotAuthorized));
        } else {
          loggedIn := true;
          Send(LoginAccepted);
        }
      }
    }

    /** handle_logout_request, and disconnect when the connection is lost. */
    method Disconnect()
      modifies this
      ensures View() == Close(old(View()))
    {
      loggedIn := false;
      Send(SessionClosed);
    }

    method HandleEnterOrder(eo: EnterOrder, id: uint64, now: int, coin: bool)
      modifies this, bm
      ensures Both() == Enter(old(View()), old(bm.View()), eo, id, now, coin)
    {
      if !ValidEnter(eo) { return; }
      if eo.qty > MAX_SHARES {
        Send(Rejected(eo.token, ExceededConfiguredSafety));
        return;
      }
      var ok := false;
      if loggedIn {
        ok := bm.Question(Behavior.NewOrder, coin);
      }
      if !ok {
        Send(Rejected(eo.token, Other));
      } else if eo.token !in active && eo.token !in finished {
        var newOrder := ParseOrder(eo, id, now);
        active := active[eo.token := newOrder];
        Send(Accepted(AcceptedMessage(newOrder)));
      }
    }

    method HandleModifyOrder(mo: ModifyOrder, coin: bool)
      modifies this, bm
      ensures Both() == QueueModify(old(View()), old(bm.View()), mo, coin)
    {
      if !ValidModify(mo) { return; }
      if mo.token !in active { return; }
      var ok := bm.Question(Behavior.ModifyOrder, coin);
      if !ok { return; }
      pendingModify := pendingModify + [mo];
    }

    method HandleReplaceOrder(ro: ReplaceOrder, coin: bool)
      modifies this, bm
      ensures Both() == QueueReplace(old(View()), old(bm.View()), ro, coin)
    {
      if !ValidReplace(ro) { return; }
      var ok := bm.Question(Behavior.ReplaceOrder, coin);
      if !ok { return; }
      pendingReplace := pendingReplace + [ro];
    }

    method HandleCancelOrder(co: CancelOrder, coin: bool)
      modifies this, bm
      ensures Both() == QueueCancel(old(View()), old(bm.View()), co, coin)
    {
      if !ValidCancel(co) { return; }
      if co.token !in active { return; }
      var ok := bm.Question(Behavior.CancelOrder, coin);
      if !ok { return; }
      pendingCancel := pendingCancel + [co];
    }

    // -------------------------------------------------------------- the tick

    /** The loop that erases the keys collected during a pass. */
    method EraseAll(done: seq<Token>)
      modifies this`active
      ensures active == old(active) - Elements(done)
    {
      var i := 0;
      while i < |done|
        invariant 0 <= i <= |done|
        invariant active == old(active) - Elements(done[..i])
      {
        assert Elements(done[..i + 1]) == Elements(done[..i]) + {done[i]};
        active := active - {done[i]};
        i := i + 1;
      }
      assert done[..i] == done;
    }

    method HeartbeatLogic(now: int)
      modifies this
      ensures View() == Heartbeat(old(View()), now)
    {
      if !loggedIn { return; }
      if now - lastBeat >= 1 {
        lastBeat := now;
        Send(ServerHeartbeat);
      }
    }

    /** The fields a pass works on, with the keys collected so far. */
    function Pass(done: seq<Token>): Phase
      reads this, bm
    {
      Phase(active, finished, log, Elements(done), bm.View())
    }

    /** One round of the loop of cancel_logic. */
    method CancelOne(co: CancelOrder, coin: bool, done: seq<Token>) returns (done1: seq<Token>)
      modifies this`active, this`log, bm
      ensures Pass(done1) == CancelStep(old(Pass(done)), co, coin)
    {
      done1 := done;
      var ok := false;
      if co.token in active {
        ok := bm.Question(Behavior.CancelOrder, coin);
      }
      if !ok {
        Send(CancelReject(co.token));
        return;
      }
      var current := U32(active[co.token].remaining);
      var decrement := active[co.token].remaining;
      if co.qty == 0 {
        done1 := done + [co.token];
        assert Elements(done1) == Elements(done) + {co.token};
      } else {
        if co.qty >= current { return; }
        decrement := decrement - co.qty;
        active := active[co.token := active[co.token].(remaining := co.qty)];
      }
      Send(Canceled(co.token, decrement, UserRequested));
    }

    method CancelLogic(coin: Coins)
      modifies this, bm
      ensures Both() == Ouch.CancelLogic(old(View()), old(bm.View()), coin)
    {
      hide CancelStep;
      var done: seq<Token> := [];
      ghost var p0 := Start(View(), bm.View());
      var i := 0;
      while i < |pendingCancel|
        modifies this`active, this`log, bm
        invariant 0 <= i <= |pendingCancel|
        invariant Pass(done) == CancelAllOf(p0, pendingCancel[..i], coin)
      {
        assert pendingCancel[..i + 1][..i] == pendingCancel[..i];
        done := CancelOne(pendingCancel[i], coin(i), done);
        i := i + 1;
      }
      assert pendingCancel[..i] == pendingCancel;
      pendingCancel := [];
      EraseAll(done);
    }

    /** One round of the loop of modify_logic. */
    method ModifyOne(mo: ModifyOrder, done: seq<Token>) returns (done1: seq<Token>)
      modifies this`active, this`log
      ensures Pass(done1) == ModifyStep(old(Pass(done)), mo)
    {
      done1 := done;
      if mo.token !in active { return; }
      var target := active[mo.token];
      // The three cases of the switch, entered at the order's side and run to the end.
      if target.side == SELL {
        if mo.side != SELL_SHORT && mo.side != SELL_SHORT_EXEMPT { return; }
      }
      if target.side == SELL || target.side == SELL_SHORT_EXEMPT {
        if mo.side != SELL_SHORT && mo.side != SELL { return; }
      }
      if target.side == SELL || target.side == SELL_SHORT_EXEMPT || target.side == SELL_SHORT {
        if mo.side != SELL_SHORT_EXEMPT && mo.side != SELL { return; }
      }
      if target.executed >= mo.qty {
        done1 := done + [target.token];
        assert Elements(done1) == Elements(done) + {target.token};
        Send(Modified(mo.token, mo.side, 0));
        return;
      }
      target := target.(side := mo.side, remaining := mo.qty - target.executed);
      active := active[mo.token := target];
      Send(Modified(mo.token, mo.side, target.remaining));
    }

    /** The queue is left as it is. */
    method ModifyLogic()
      modifies this
      ensures Both() == Ouch.ModifyLogic(old(View()), old(bm.View()))
    {
      hide ModifyStep;
      var done: seq<Token> := [];
      ghost var p0 := Start(View(), bm.View());
      var i := 0;
      while i < |pendingModify|
        modifies this`active, this`log
        invariant 0 <= i <= |pendingModify|
        invariant Pass(done) == ModifyAllOf(p0, pendingModify[..i])
      {
        assert pendingModify[..i + 1][..i] == pendingModify[..i];
        done := ModifyOne(pendingModify[i], done);
        i := i + 1;
      }
      assert pendingModify[..i] == pendingModify;
      EraseAll(done);
    }

    /** One round of the loop of replace_logic; `junk` is what `operator[]` inserts for a missing key. */
    method ReplaceOne(ro: ReplaceOrder, junk: OuchOrder, done: seq<Token>) returns (done1: seq<Token>)
      modifies this`active, this`log
      ensures Pass(done1) == ReplaceStep(old(Pass(done)), ro, junk)
    {
      done1 := done;
      var t := ro.existing;
      if t !in active {
        active := active[t := junk];
      }
      if ro.qty > MAX_SHARES || ro.qty <= active[t].executed {
        done1 := done + [t];
        assert Elements(done1) == Elements(done) + {t};
        Send(Canceled(t, active[t].remaining, SystemCancel));
        assert active == old(active)[t := Target(old(active), t, junk)];
        return;
      }
      var target := active[t].(token := ro.token);
      target := target.(remaining := ro.qty - target.executed, timeInForce := ro.timeInForce,
                        remainTimeInForce := I32(ro.timeInForce), price := ro.price, sweep := ro.sweep);
      active := active[t := target];
      Send(Replaced(ReplacedMessage(ro, target)));
      SwapAndErase(t, ro.token);
    }

    /** swap(active_orders[t], active_orders[u]) and the erasure of t. */
    method SwapAndErase(t: Token, u: Token)
      requires t in active
      modifies this`active
      ensures active == old(active)[u := old(active)[t]] - {t}
    {
      if u in active {
        active := active[t := active[u]][u := active[t]];
      } else {
        active := active[u := active[t]];
      }
      active := active - {t};
    }

    method ReplaceLogic(junk: Junk)
      modifies this
      ensures Both() == Ouch.ReplaceLogic(old(View()), old(bm.View()), junk)
    {
      hide ReplaceStep;
      var done: seq<Token> := [];
      ghost var p0 := Start(View(), bm.View());
      var i := 0;
      while i < |pendingReplace|
        modifies this`active, this`log
        invariant 0 <= i <= |pendingReplace|
        invariant Pass(done) == ReplaceAllOf(p0, pendingReplace[..i], junk)
      {
        assert pendingReplace[..i + 1][..i] == pendingReplace[..i];
        done := ReplaceOne(pendingReplace[i], junk(i), done);
        i := i + 1;
      }
      assert pendingReplace[..i] == pendingReplace;
      EraseAll(done);
      pendingReplace := [];
    }

    /** One round of the loop of execution_logic. */
    method ExecuteOne(k: Token, now: int, coin: bool, roll: Roll, done: seq<Token>) returns (done1: seq<Token>)
      requires k in active
      modifies this`active, this`finished, this`log, bm
      ensures Pass(done1) == ExecuteStep(old(Pass(done)), k, now, coin, roll)
    {
      var ok := bm.Question(Behavior.Execution, coin);
      if !ok {
        done1 := done;
      } else {
        done1 := ExecuteAdmitted(k, now, roll, done);
      }
    }

    /** The rest of the round, once the manager let the order through. */
    method ExecuteAdmitted(k: Token, now: int, roll: Roll, done: seq<Token>) returns (done1: seq<Token>)
      requires k in active
      modifies this`active, this`finished, this`log
      ensures Pass(done1) == Settle(old(Pass(done)), k, VisitOrder(old(active)[k], now, roll))
    {
      done1 := done;
      assert Elements(done + [k]) == Elements(done) + {k};
      var expired := Expired(active[k], now);
      active := active[k := expired.order];
      if expired.yes {
        Send(Canceled(active[k].token, active[k].remaining, TimeOut));
        return done + [k];
      }
      if active[k].timeInForce == IOC {
        if active[k].remaining != 0 {
          Send(Canceled(active[k].token, active[k].remaining, ImmediateOrCancel));
        }
        return done + [k];
      }
      var live := StillActive(active[k], now);
      active := active[k := live.order];
      if live.yes {
        ConstructOrderExecuted(k, roll);
      } else {
        finished := finished[k := active[k]];
        return done + [k];
      }
    }

    method ExecuteEach(order: seq<Token>, now: int, coin: Coins, roll: Rolls) returns (done: seq<Token>)
      requires forall i :: 0 <= i < |order| ==> order[i] in active
      modifies this`active, this`finished, this`log, bm
      ensures Pass(done) == ExecuteAllOf(Start(old(View()), old(bm.View())), order, now, coin, roll)
    {
      done := [];
      ghost var p0 := Start(View(), bm.View());
      var i := 0;
      assert Pass(done) == ExecuteAllOf(p0, order[..i], now, coin, roll);
      hide ExecuteStep, ExecuteAllOf;
      while i < |order|
        invariant 0 <= i <= |order|
        invariant Pass(done) == ExecuteAllOf(p0, order[..i], now, coin, roll)
      {
        ExecuteOneMore(p0, order, i, now, coin, roll);
        assert order[i] in p0.active;
        done := ExecuteOne(order[i], now, coin(i), roll(i), done);
        i := i + 1;
      }
      assert order[..i] == order;
    }

    method ExecutionLogic(order: seq<Token>, now: int, coin: Coins, roll: Rolls)
      requires IsOrder(order, active.Keys)
      modifies this, bm
      ensures Both() == Ouch.ExecutionLogic(old(View()), old(bm.View()), order, now, coin, roll)
    {
      var done := ExecuteEach(order, now, coin, roll);
      ghost var p := Pass(done);
      EraseAll(done);
      assert active == p.active - p.done;
    }

    method ConstructOrderExecuted(k: Token, roll: Roll)
      requires k in active
      modifies this`active, this`log
      ensures active == old(active)[k := Fill(old(active)[k], roll).order]
      ensures log == old(log) + Fill(old(active)[k], roll).messages
    {
      var o := active[k];
      var exeQty := roll * 100;
      exeQty := Min(exeQty, o.remaining);
      if o.minQty != 0 && exeQty > o.minQty { return; }
      active := active[k := o.(remaining := o.remaining - exeQty, executed := o.executed + exeQty)];
      Send(Executed(o.token, exeQty, o.price));
    }

    method MarketLogic(d: Draws)
      requires IsOrder(d.order, BeforeExecution(View(), bm.View(), d).s.active.Keys)
      modifies this, bm
      ensures Both() == Tick(old(View()), old(bm.View()), d)
    {
      HeartbeatLogic(d.now);
      CancelLogic(d.cancelCoin);
      ModifyLogic();
      ReplaceLogic(d.junk);
      ExecutionLogic(d.order, d.now, d.executeCoin, d.roll);
    }

    /** The administrator's cancel_all; the answer is the number of orders reported cancelled. */
    method CancelAll(order: seq<Token>, now: int) returns (count: nat)
      requires IsOrder(order, active.Keys)
      modifies this
      ensures View() == Ouch.CancelAll(old(View()), order, now)
      ensures count == |log| - |old(log)|
    {
      count := 0;
      var i := 0;
      while i < |order|
        modifies this`log
        invariant 0 <= i <= |order|
        invariant log == CancelAllLog(old(log), old(active), order[..i], now)
        invariant count == |log| - |old(log)|
      {
        assert order[..i + 1][..i] == order[..i];
        var live := StillActive(active[order[i]], now);
        if live.yes {
          Send(Canceled(live.order.token, live.order.remaining, SystemCancel));
          count := count + 1;
        }
        i := i + 1;
      }
      assert order[..i] == order;
      active := map[];
    }
  }
}
