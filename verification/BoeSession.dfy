/** The BOE session object, updated in place and proved against the state machine of module Boe. */
module BoeSession {
  import opened Bytes
  import opened Boe
  import opened Walks
  import Behavior

  class BoeSession {
    var active: Book
    var finished: Book
    var pendingModify: seq<ModifyOrder>
    var pendingCancel: seq<Token>
    var loggedIn: bool
    var seqNum: uint32
    var lastBeat: int
    var log: Log
    const bm: Behavior.BehaviorManager

    function View(): Session
      reads this
    {
      Session(active, finished, pendingModify, pendingCancel, loggedIn, seqNum, lastBeat, log)
    }

    function Both(): Outcome
      reads this, bm
    {
      Outcome(View(), bm.View())
    }

    /** The fields a pass works on, with the keys collected so far. */
    function Pass(done: seq<Token>): Phase
      reads this, bm
    {
      Phase(active, finished, log, Elements(done), seqNum, bm.View())
    }

    constructor (bm: Behavior.BehaviorManager, now: int)
      ensures View() == Initial(now) && this.bm == bm
    {
      active, finished := map[], map[];
      pendingModify, pendingCancel := [], [];
      loggedIn, seqNum, lastBeat, log := false, 0, now, [];
      this.bm := bm;
    }

    method Send(e: Event)
      modifies this`log
      ensures log == old(log) + [e]
    {
      log := log + [e];
    }

    // -------------------------------------------------------------- packets

    method HandleLoginRequest(coin: bool)
      modifies this, bm
      ensures Both() == HandleLogin(old(View()), old(bm.View()), coin)
    {
      var ok := bm.Question(Behavior.Login, coin);
      if !ok {
        Send(LoginResponse(SessionDisabled));
      } else if loggedIn {
        Send(LoginResponse(SessionInUse));
      } else {
        Send(LoginResponse(LoginOk));
        loggedIn := true;
      }
    }

    method Disconnect()
      modifies this
      ensures View() == Close(old(View()))
    {
      loggedIn := false;
    }

    method HandleNewOrder(no: NewOrder, id: uint64, coin: bool)
      modifies this, bm
      ensures Both() == Enter(old(View()), old(bm.View()), no, id, coin)
    {
      var ok := false;
      if no.token !in active {
        ok := bm.Question(Behavior.NewOrder, coin);
      }
      if !ok {
        Send(OrderRejected(no.token));
      } else {
        var newOrder := ParseOrder(no, id);
        active := active[no.token := newOrder];
        seqNum := U32(seqNum + 1);
        Send(AckMessage(newOrder, seqNum));
      }
    }

    method HandleModifyOrder(mo: ModifyOrder, coin: bool)
      modifies this, bm
      ensures Both() == QueueModify(old(View()), old(bm.View()), mo, coin)
    {
      if mo.original !in active && mo.original !in finished {
        Send(ModifyRejected(mo.original, UnknownOrder));
        return;
      }
      var ok := bm.Question(Behavior.ModifyOrder, coin);
      if !ok {
        Send(ModifyRejected(mo.original, Unforeseen));
        return;
      }
      pendingModify := pendingModify + [mo];
    }

    method HandleCancelOrder(t: Token, junk: BoeOrder, coin: bool)
      modifies this, bm
      ensures Both() == QueueCancel(old(View()), old(bm.View()), t, junk, coin)
    {
      if t in active && active[t].remaining > 0 {
        pendingCancel := pendingCancel + [t];
        return;
      }
      if t !in active {
        active := active[t := junk];
      }
      if active[t].remaining <= 0 || t in finished {
        Send(CancelRejected(t, TooLateToCancel));
      } else {
        var ok := bm.Question(Behavior.CancelOrder, coin);
        if !ok {
          Send(CancelRejected(t, Unforeseen));
        }
      }
    }

    // -------------------------------------------------------------- the tick

    method EraseAll(done: seq<Token>)
      modifies this`active
      ensures active == old(active) - Elements(done)
    {
      var i := 0;
      while i < |done|
        invariant 0 <= i <= |done|
        invariant active == old(active) - Elements(done[..i])
      {
        assert Elements(done[..i + 1]) == Elements(done[..i]) + {done[i]};
        active := active - {done[i]};
        i := i + 1;
      }
      assert done[..i] == done;
    }

    method HeartbeatLogic(now: int)
      modifies this
      ensures View() == Heartbeat(old(View()), now)
    {
      if !loggedIn { return; }
      if now - lastBeat >= 1 {
        lastBeat := now;
        Send(ServerHeartbeat);
      }
    }

    method CancelOne(t: Token, coin: bool, done: seq<Token>) returns (done1: seq<Token>)
      modifies this`log, bm
      ensures Pass(done1) == CancelStep(old(Pass(done)), t, coin)
    {
      done1 := done;
      if t !in active {
        Send(CancelRejected(t, TooLateToCancel));
        return;
      }
      var ok := bm.Question(Behavior.CancelOrder, coin);
      if !ok {
        Send(CancelRejected(t, Unforeseen));
        return;
      }
      done1 := done + [t];
      assert Elements(done1) == Elements(done) + {t};
      Send(OrderCanceled(t));
    }

    method CancelLogic(coin: Coins)
      modifies this, bm
      ensures Both() == Boe.CancelLogic(old(View()), old(bm.View()), coin)
    {
      hide CancelStep;
      var done: seq<Token> := [];
      ghost var p0 := Start(View(), bm.View());
      var i := 0;
      while i < |pendingCancel|
        modifies this`log, bm
        invariant 0 <= i <= |pendingCancel|
        invariant Pass(done) == CancelAllOf(p0, pendingCancel[..i], coin)
      {
        assert pendingCancel[..i + 1][..i] == pendingCancel[..i];
        done := CancelOne(pendingCancel[i], coin(i), done);
        i := i + 1;
      }
      assert pendingCancel[..i] == pendingCancel;
      pendingCancel := [];
      EraseAll(done);
    }

    method ModifyOne(mo: ModifyOrder, junk: BoeOrder, done: seq<Token>) returns (done1: seq<Token>)
      modifies this`active, this`log
      ensures Pass(done1) == ModifyStep(old(Pass(done)), mo, junk)
    {
      done1 := done;
      if mo.original !in active { return; }
      var target := active[mo.original];
      if target.executed >= mo.qty {
        done1 := done + [target.token];
        assert Elements(done1) == Elements(done) + {target.token};
        target := target.(remaining := 0);
      } else {
        target := target.(remaining := mo.qty - target.executed);
      }
      target := target.(side := mo.side, price := mo.price, token := mo.token, firm := StrNCpy(mo.firm));
      assert target == Amended(mo, active[mo.original]);
      active := active[mo.original := target];
      SwapAndErase(mo.token, mo.original, target);
      if mo.token !in active {
        active := active[mo.token := junk];
      }
      Send(ModifiedMessage(active[mo.token]));
    }

    /** swap(active_orders[u], active_orders[t]) and the erasure of t. */
    method SwapAndErase(u: Token, t: Token, target: BoeOrder)
      requires t in active && active[t] == target
      modifies this`active
      ensures active == old(active)[u := target] - {t}
    {
      if u in active {
        active := active[t := active[u]][u := active[t]];
      } else {
        active := active[u := active[t]];
      }
      active := active - {t};
    }

    /** The queue is left as it is. */
    method ModifyLogic(junk: Junk)
      modifies this
      ensures Both() == Boe.ModifyLogic(old(View()), old(bm.View()), junk)
    {
      hide ModifyStep;
      var done: seq<Token> := [];
      ghost var p0 := Start(View(), bm.View());
      var i := 0;
      while i < |pendingModify|
        modifies this`active, this`log
        invariant 0 <= i <= |pendingModify|
        invariant Pass(done) == ModifyAllOf(p0, pendingModify[..i], junk)
      {
        assert pendingModify[..i + 1][..i] == pendingModify[..i];
        done := ModifyOne(pendingModify[i], junk(i), done);
        i := i + 1;
      }
      assert pendingModify[..i] == pendingModify;
      EraseAll(done);
    }

    method ConstructOrderExecuted(k: Token, qty: int, roll: Roll)
      requires k in active
      modifies this`active, this`log, this`seqNum
      ensures forall done :: Pass(done) == Fill(old(Pass(done)), k, qty, roll)
    {
      if qty == 0 { return; }
      seqNum := U32(seqNum + 1);
      var o := active[k];
      var exeQty := qty;
      if exeQty < 0 {
        exeQty := roll * 100;
      }
      exeQty := Min(exeQty, o.remaining);
      active := active[k := o.(remaining := o.remaining - exeQty, executed := o.executed + exeQty)];
      Send(OrderExecution(seqNum, o.token, U32(exeQty), o.price, U32(active[k].remaining)));
    }

    method ExecuteOne(k: Token, coin: bool, roll: Roll, done: seq<Token>) returns (done1: seq<Token>)
      requires k in active
      modifies this`active, this`finished, this`log, this`seqNum, bm
      ensures Pass(done1) == ExecuteStep(old(Pass(done)), k, coin, roll)
    {
      done1 := done;
      var ok := bm.Question(Behavior.Execution, coin);
      if !ok { return; }
      if StillActive(active[k]) {
        var qty := bm.ExecutionQty();
        ConstructOrderExecuted(k, qty, roll);
      } else {
        finished := finished[k := active[k]];
        done1 := done + [k];
        assert Elements(done1) == Elements(done) + {k};
      }
    }

    method ExecuteEach(order: seq<Token>, coin: Coins, roll: Rolls) returns (done: seq<Token>)
      requires forall i :: 0 <= i < |order| ==> order[i] in active
      modifies this`active, this`finished, this`log, this`seqNum, bm
      ensures Pass(done) == ExecuteAllOf(Start(old(View()), old(bm.View())), order, coin, roll)
    {
      done := [];
      ghost var p0 := Start(View(), bm.View());
      var i := 0;
      assert Pass(done) == ExecuteAllOf(p0, order[..i], coin, roll);
      hide ExecuteStep, ExecuteAllOf;
      while i < |order|
        invariant 0 <= i <= |order|
        invariant Pass(done) == ExecuteAllOf(p0, order[..i], coin, roll)
      {
        ExecuteOneMore(p0, order, i, coin, roll);
        assert order[i] in p0.active;
        done := ExecuteOne(order[i], coin(i), roll(i), done);
        i := i + 1;
      }
      assert order[..i] == order;
    }

    method ExecutionLogic(order: seq<Token>, coin: Coins, roll: Rolls)
      requires IsOrder(order, active.Keys)
      modifies this, bm
      ensures Both() == Boe.ExecutionLogic(old(View()), old(bm.View()), order, coin, roll)
    {
      var done := ExecuteEach(order, coin, roll);
      ghost var p := Pass(done);
      EraseAll(done);
      assert active == p.active - p.done;
    }

    method MarketLogic(d: Draws)
      requires IsOrder(d.order, BeforeExecution(View(), bm.View(), d).s.active.Keys)
      modifies this, bm
      ensures Both() == Tick(old(View()), old(bm.View()), d)
    {
      HeartbeatLogic(d.now);
      CancelLogic(d.cancelCoin);
      ModifyLogic(d.junk);
      ExecutionLogic(d.order, d.executeCoin, d.roll);
    }

    method CancelAll(order: seq<Token>) returns (count: nat)
      requires IsOrder(order, active.Keys)
      modifies this
      ensures View() == Boe.CancelAll(old(View()), order)
      ensures count == |log| - |old(log)|
    {
      count := 0;
      var i := 0;
      while i < |order|
        modifies this`log
        invariant 0 <= i <= |order|
        invariant log == CancelAllLog(old(log), old(active), order[..i])
        invariant count == |log| - |old(log)|
      {
        assert order[..i + 1][..i] == order[..i];
        if StillActive(active[order[i]]) {
          Send(OrderCanceled(active[order[i]].token));
          count := count + 1;
        }
        i := i + 1;
      }
      assert order[..i] == order;
      active := map[];
    }
  }
}
