/** What each part of the BOE session adds to its log, how the messages are numbered, and what they cost at the
    manager. */
module BoeTrace {
  import opened Bytes
  import opened Boe
  import opened Walks
  import Behavior

  /** What was written so far: the accepted logins, acknowledged orders, fills and cancels, how many shares were filled,
      how many messages carry a sequence number, and whether those are numbered 1, 2, 3 and so on, modulo 2^32. */
  datatype Tally = Tally(
    logins: nat, entries: nat, fills: nat, cancels: nat, shares: nat, sequenced: nat, inOrder: bool)

  function AddTo(t: Tally, e: Event): Tally {
    match e
    case LoginResponse(status) => if status == LoginOk then t.(logins := t.logins + 1) else t
    case OrderAck(n, _, _, _) =>
      t.(entries := t.entries + 1, sequenced := t.sequenced + 1, inOrder := t.inOrder && n == U32(t.sequenced + 1))
    case OrderExecution(n, _, shares, _, _) =>
      t.(fills := t.fills + 1, shares := t.shares + shares, sequenced := t.sequenced + 1,
         inOrder := t.inOrder && n == U32(t.sequenced + 1))
    case OrderCanceled(_) => t.(cancels := t.cancels + 1)
    case _ => t
  }

  function TallyOf(log: Log): Tally {
    if log == [] then Tally(0, 0, 0, 0, 0, 0, true) else AddTo(TallyOf(log[..|log| - 1]), log[|log| - 1])
  }

  /** Nothing but fills was written between the two tallies. */
  predicate OnlyFills(t: Tally, t1: Tally) {
    t1.(fills := t.fills, shares := t.shares, sequenced := t.sequenced, inOrder := t.inOrder) == t
  }

  lemma TallyOne(log: Log, e: Event)
    ensures TallyOf(log + [e]) == AddTo(TallyOf(log), e)
  {
    hide AddTo;
    assert (log + [e])[..|log|] == log;
  }

  /** The session's counter is the number of the last message, and the messages are numbered in order. */
  ghost predicate Numbered(log: Log, seqNum: uint32) {
    TallyOf(log).inOrder && seqNum == U32(TallyOf(log).sequenced)
  }

  /** `x` shares in `y` fills were paid for out of the one-shot quantity, which is never taken for the sentinel. */
  ghost predicate SharesPaid(m: Manager, m1: Manager, x: int, y: int) {
    if m.exeQty == Behavior.UNLIMITED then m1.exeQty == Behavior.UNLIMITED
    else if m.exeQty == 0 then m1.exeQty == 0 && x == 0 && y == 0
    else 0 < m.exeQty ==> (m1.exeQty == m.exeQty && x == 0 && y == 0) || (m1.exeQty == 0 && x <= m.exeQty && y <= 1)
  }

  // ---------------------------------------------------------------- the passes

  lemma CancelStepTally(p: Phase, t: Token, coin: bool)
    ensures var r := CancelStep(p, t, coin);
            && r.seqNum == p.seqNum && r.m.exeQty == p.m.exeQty
            && TallyOf(r.log) == TallyOf(p.log).(cancels := TallyOf(r.log).cancels)
            && Behavior.Paid(p.m, r.m, Behavior.CancelOrder, TallyOf(r.log).cancels - TallyOf(p.log).cancels)
            && (forall j :: Behavior.Paid(p.m, r.m, j, 0))
  {
    hide Behavior.Ask, TallyOf;
    TallyOne(p.log, CancelRejected(t, TooLateToCancel));
    TallyOne(p.log, CancelRejected(t, Unforeseen));
    TallyOne(p.log, OrderCanceled(t));
    Behavior.AskPays(p.m, Behavior.CancelOrder, coin, Behavior.CancelOrder);
    forall j ensures Behavior.Paid(p.m, CancelStep(p, t, coin).m, j, 0) {
      Behavior.AskPays(p.m, Behavior.CancelOrder, coin, j);
    }
  }

  lemma {:induction false} CancelsTally(p: Phase, reqs: seq<Token>, coin: Coins)
    ensures var r := CancelAllOf(p, reqs, coin);
            && r.seqNum == p.seqNum && r.m.exeQty == p.m.exeQty
            && TallyOf(r.log) == TallyOf(p.log).(cancels := TallyOf(r.log).cancels)
            && Behavior.Paid(p.m, r.m, Behavior.CancelOrder, TallyOf(r.log).cancels - TallyOf(p.log).cancels)
            && (forall j :: Behavior.Paid(p.m, r.m, j, 0))
  {
    hide CancelStep, TallyOf;
    if reqs != [] {
      var n := |reqs| - 1;
      var q := CancelAllOf(p, reqs[..n], coin);
      var r := CancelStep(q, reqs[n], coin(n));
      CancelsTally(p, reqs[..n], coin);
      CancelStepTally(q, reqs[n], coin(n));
      forall j ensures Behavior.Paid(p.m, r.m, j, 0) {
        assert Behavior.Paid(p.m, q.m, j, 0) && Behavior.Paid(q.m, r.m, j, 0);
      }
    }
  }

  lemma {:induction false} ModifiesTally(p: Phase, reqs: seq<ModifyOrder>, junk: Junk)
    ensures var r := ModifyAllOf(p, reqs, junk);
            r.seqNum == p.seqNum && r.m == p.m && TallyOf(r.log) == TallyOf(p.log)
  {
    hide TallyOf, Amended;
    if reqs != [] {
      var n := |reqs| - 1;
      var q, r := ModifyAllOf(p, reqs[..n], junk), ModifyAllOf(p, reqs, junk);
      ModifiesTally(p, reqs[..n], junk);
      if reqs[n].original in q.active {
        TallyOne(q.log, ModifiedMessage(r.active[reqs[n].token]));
      }
    }
  }

  lemma SmallStays(x: int)
    requires 0 <= x <= LARGEST_ACTIVE
    ensures U32(x) == x
  {
  }

  lemma NextNumber(n: nat)
    ensures U32(U32(n) + 1) == U32(n + 1)
  {
  }

  lemma FillTally(p: Phase, k: Token, qty: int, roll: Roll)
    requires k in p.active && StillActive(p.active[k])
    ensures var r, t := Fill(p, k, qty, roll), TallyOf(p.log);
            && r.m == p.m
            && OnlyFills(t, TallyOf(r.log))
            && TallyOf(r.log).fills - t.fills == (if qty == 0 then 0 else 1)
            && 0 <= TallyOf(r.log).shares - t.shares && (qty >= 0 ==> TallyOf(r.log).shares - t.shares <= qty)
            && (Numbered(p.log, p.seqNum) ==> Numbered(r.log, r.seqNum))
  {
    hide TallyOf, U32;
    if qty != 0 {
      var r, o := Fill(p, k, qty, roll), p.active[k];
      var shares := Min(if qty < 0 then roll * 100 else qty, o.remaining);
      var e := OrderExecution(U32(p.seqNum + 1), o.token, U32(shares), o.price, U32(o.remaining - shares));
      assert r.log == p.log + [e];
      TallyOne(p.log, e);
      SmallStays(shares);
      NextNumber(TallyOf(p.log).sequenced);
    }
  }

  /** A visit: a fill costs one execution and its shares, when a quantity is set. */
  lemma ExecuteStepTally(p: Phase, k: Token, coin: bool, roll: Roll)
    requires k in p.active
    ensures var r, t := ExecuteStep(p, k, coin, roll), TallyOf(p.log);
            && OnlyFills(t, TallyOf(r.log))
            && Behavior.Paid(p.m, r.m, Behavior.Execution, TallyOf(r.log).fills - t.fills)
            && (forall j :: Behavior.Paid(p.m, r.m, j, 0))
            && SharesPaid(p.m, r.m, TallyOf(r.log).shares - t.shares, TallyOf(r.log).fills - t.fills)
            && (Numbered(p.log, p.seqNum) ==> Numbered(r.log, r.seqNum))
  {
    hide Behavior.Ask, TallyOf, Fill, Numbered;
    var r := ExecuteStep(p, k, coin, roll);
    var a := Behavior.Ask(p.m, Behavior.Execution, coin);
    Behavior.AskPays(p.m, Behavior.Execution, coin, Behavior.Execution);
    if a.ok && StillActive(p.active[k]) {
      var q := Behavior.TakeExecutionQty(a.m);
      FillTally(p.(m := q.m), k, q.qty, roll);
    }
    forall j ensures Behavior.Paid(p.m, r.m, j, 0) {
      Behavior.AskPays(p.m, Behavior.Execution, coin, j);
    }
  }

  lemma {:induction false} ExecutesTally(p: Phase, order: seq<Token>, coin: Coins, roll: Rolls)
    requires forall i :: 0 <= i < |order| ==> order[i] in p.active
    ensures var r, t := ExecuteAllOf(p, order, coin, roll), TallyOf(p.log);
            && OnlyFills(t, TallyOf(r.log))
            && Behavior.Paid(p.m, r.m, Behavior.Execution, TallyOf(r.log).fills - t.fills)
            && (forall j :: Behavior.Paid(p.m, r.m, j, 0))
            && SharesPaid(p.m, r.m, TallyOf(r.log).shares - t.shares, TallyOf(r.log).fills - t.fills)
            && (Numbered(p.log, p.seqNum) ==> Numbered(r.log, r.seqNum))
  {
    hide ExecuteStep, TallyOf, Numbered;
    if order != [] {
      var n := |order| - 1;
      var q := ExecuteAllOf(p, order[..n], coin, roll);
      var r := ExecuteStep(q, order[n], coin(n), roll(n));
      ExecutesTally(p, order[..n], coin, roll);
      ExecuteStepTally(q, order[n], coin(n), roll(n));
      forall j ensures Behavior.Paid(p.m, r.m, j, 0) {
        assert Behavior.Paid(p.m, q.m, j, 0) && Behavior.Paid(q.m, r.m, j, 0);
      }
    }
  }

  lemma {:induction false} CancelAllTally(log: Log, b: Book, order: seq<Token>)
    requires forall i :: 0 <= i < |order| ==> order[i] in b
    ensures var l := CancelAllLog(log, b, order);
            TallyOf(l) == TallyOf(log).(cancels := TallyOf(l).cancels)
  {
    hide TallyOf;
    if order != [] {
      var n := |order| - 1;
      CancelAllTally(log, b, order[..n]);
      TallyOne(CancelAllLog(log, b, order[..n]), OrderCanceled(b[order[n]].token));
    }
  }

  // ---------------------------------------------------------------- the cost of a step

  type Spent = Behavior.Each<int>

  /** What the step achieved, by the action it is rationed under; cancels count when a client asked for them. */
  function Achieved(s: Session, step: Step, s1: Session): Spent {
    var t, t1 := TallyOf(s.log), TallyOf(s1.log);
    Behavior.Each(t1.logins - t.logins, 0, t1.entries - t.entries, |s1.pendingModify| - |s.pendingModify|, 0,
                  if step.DoTick? then t1.cancels - t.cancels else 0, t1.fills - t.fills)
  }

  ghost predicate PaidFor(m: Manager, m1: Manager, spent: Spent) {
    forall k :: Behavior.Paid(m, m1, k, spent.Get(k))
  }

  lemma BeforeExecutionTally(s: Session, m: Manager, d: Draws)
    ensures var o := BeforeExecution(s, m, d);
            && o.s.seqNum == s.seqNum && o.m.exeQty == m.exeQty && o.s.pendingModify == s.pendingModify
            && TallyOf(o.s.log) == TallyOf(s.log).(cancels := TallyOf(o.s.log).cancels)
            && Behavior.Paid(m, o.m, Behavior.CancelOrder, TallyOf(o.s.log).cancels - TallyOf(s.log).cancels)
            && (forall j :: Behavior.Paid(m, o.m, j, 0))
  {
    hide CancelAllOf, ModifyAllOf, TallyOf;
    TallyOne(s.log, ServerHeartbeat);
    var h := Heartbeat(s, d.now);
    CancelsTally(Start(h, m), h.pendingCancel, d.cancelCoin);
    var c := CancelLogic(h, m, d.cancelCoin);
    ModifiesTally(Start(c.s, c.m), c.s.pendingModify, d.junk);
  }

  lemma TickTally(s: Session, m: Manager, d: Draws)
    requires IsOrder(d.order, BeforeExecution(s, m, d).s.active.Keys)
    ensures var o := Tick(s, m, d);
            && PaidFor(m, o.m, Achieved(s, DoTick(d), o.s))
            && SharesPaid(m, o.m, TallyOf(o.s.log).shares - TallyOf(s.log).shares,
                          TallyOf(o.s.log).fills - TallyOf(s.log).fills)
            && (Numbered(s.log, s.seqNum) ==> Numbered(o.s.log, o.s.seqNum))
  {
    hide BeforeExecution, ExecuteAllOf, TallyOf;
    var b := BeforeExecution(s, m, d);
    var o := Tick(s, m, d);
    BeforeExecutionTally(s, m, d);
    ExecutesTally(Start(b.s, b.m), d.order, d.executeCoin, d.roll);
    forall k ensures Behavior.Paid(m, o.m, k, Achieved(s, DoTick(d), o.s).Get(k)) {
      assert Behavior.Paid(m, b.m, k, 0) && Behavior.Paid(b.m, o.m, k, 0);
    }
  }

  lemma LoginTally(s: Session, m: Manager, coin: bool)
    ensures var o := HandleLogin(s, m, coin);
            && PaidFor(m, o.m, Achieved(s, DoLogin(coin), o.s)) && o.m.exeQty == m.exeQty
            && TallyOf(o.s.log) == TallyOf(s.log).(logins := TallyOf(o.s.log).logins) && o.s.seqNum == s.seqNum
  {
    hide TallyOf, Behavior.Ask;
    TallyOne(s.log, LoginResponse(SessionDisabled));
    TallyOne(s.log, LoginResponse(SessionInUse));
    TallyOne(s.log, LoginResponse(LoginOk));
    Behavior.AskPays(m, Behavior.Login, coin, Behavior.Login);
    var o := HandleLogin(s, m, coin);
    forall k ensures Behavior.Paid(m, o.m, k, Achieved(s, DoLogin(coin), o.s).Get(k)) {
      Behavior.AskPays(m, Behavior.Login, coin, k);
    }
  }

  lemma EnterTally(s: Session, m: Manager, no: NewOrder, id: uint64, coin: bool)
    ensures var o := Enter(s, m, no, id, coin);
            && PaidFor(m, o.m, Achieved(s, DoEnter(no, id, coin), o.s)) && o.m.exeQty == m.exeQty
            && TallyOf(o.s.log).shares == TallyOf(s.log).shares && TallyOf(o.s.log).fills == TallyOf(s.log).fills
            && (Numbered(s.log, s.seqNum) ==> Numbered(o.s.log, o.s.seqNum))
  {
    hide TallyOf, Behavior.Ask;
    var o := Enter(s, m, no, id, coin);
    TallyOne(s.log, OrderRejected(no.token));
    TallyOne(s.log, AckMessage(ParseOrder(no, id), U32(s.seqNum + 1)));
    Behavior.AskPays(m, Behavior.NewOrder, coin, Behavior.NewOrder);
    forall k ensures Behavior.Paid(m, o.m, k, Achieved(s, DoEnter(no, id, coin), o.s).Get(k)) {
      Behavior.AskPays(m, Behavior.NewOrder, coin, k);
    }
  }

  lemma QueueModifyTally(s: Session, m: Manager, mo: ModifyOrder, coin: bool)
    ensures var o := QueueModify(s, m, mo, coin);
            && PaidFor(m, o.m, Achieved(s, DoModify(mo, coin), o.s)) && o.m.exeQty == m.exeQty
            && TallyOf(o.s.log) == TallyOf(s.log) && o.s.seqNum == s.seqNum
  {
    hide TallyOf, Behavior.Ask;
    var o := QueueModify(s, m, mo, coin);
    TallyOne(s.log, ModifyRejected(mo.original, UnknownOrder));
    TallyOne(s.log, ModifyRejected(mo.original, Unforeseen));
    Behavior.AskPays(m, Behavior.ModifyOrder, coin, Behavior.ModifyOrder);
    forall k ensures Behavior.Paid(m, o.m, k, Achieved(s, DoModify(mo, coin), o.s).Get(k)) {
      Behavior.AskPays(m, Behavior.ModifyOrder, coin, k);
    }
  }

  lemma QueueCancelTally(s: Session, m: Manager, t: Token, junk: BoeOrder, coin: bool)
    ensures var o := QueueCancel(s, m, t, junk, coin);
            && PaidFor(m, o.m, Achieved(s, DoCancel(t, junk, coin), o.s)) && o.m.exeQty == m.exeQty
            && TallyOf(o.s.log) == TallyOf(s.log) && o.s.seqNum == s.seqNum
  {
    hide TallyOf, Behavior.Ask;
    var o := QueueCancel(s, m, t, junk, coin);
    TallyOne(s.log, CancelRejected(t, TooLateToCancel));
    TallyOne(s.log, CancelRejected(t, Unforeseen));
    Behavior.AskPays(m, Behavior.CancelOrder, coin, Behavior.CancelOrder);
    forall k ensures Behavior.Paid(m, o.m, k, Achieved(s, DoCancel(t, junk, coin), o.s).Get(k)) {
      Behavior.AskPays(m, Behavior.CancelOrder, coin, k);
    }
  }

  /** Everything a step achieves, and every share it fills, was paid for at the manager; its messages continue the
      numbering. */
  lemma StepPays(s: Session, m: Manager, step: Step)
    requires Legal(s, m, step)
    ensures var o := Apply(s, m, step);
            && PaidFor(m, o.m, Achieved(s, step, o.s))
            && SharesPaid(m, o.m, TallyOf(o.s.log).shares - TallyOf(s.log).shares,
                          TallyOf(o.s.log).fills - TallyOf(s.log).fills)
            && (Numbered(s.log, s.seqNum) ==> Numbered(o.s.log, o.s.seqNum))
  {
    hide TallyOf, Tick, Enter, HandleLogin, QueueModify, QueueCancel, PaidFor, IsOrder;
    match step
    case DoLogin(coin) => LoginTally(s, m, coin);
    case DoEnter(no, id, coin) => EnterTally(s, m, no, id, coin);
    case DoTick(d) => TickTally(s, m, d);
    case DoCancelAll(order) => CancelAllStepTally(s, m, order);
    case DoClose => ClosePays(s, m);
    case DoModify(mo, coin) => QueueModifyTally(s, m, mo, coin);
    case DoCancel(t, junk, coin) => QueueCancelTally(s, m, t, junk, coin);
  }

  lemma ClosePays(s: Session, m: Manager)
    ensures PaidFor(m, m, Achieved(s, DoClose, Close(s)))
  {
  }

  lemma CancelAllStepTally(s: Session, m: Manager, order: seq<Token>)
    requires IsOrder(order, s.active.Keys)
    ensures var o := Apply(s, m, DoCancelAll(order));
            && PaidFor(m, o.m, Achieved(s, DoCancelAll(order), o.s))
            && TallyOf(o.s.log) == TallyOf(s.log).(cancels := TallyOf(o.s.log).cancels)
  {
    CancelAllTally(s.log, s.active, order);
  }
}
