/** A cancelled BOE order stays cancelled: with clients that never reuse a token, nothing is executed after it was
    reported as cancelled, and it does not come back. */
module BoeCancels {
  import opened Bytes
  import opened Boe
  import opened BoeTokens
  import opened Walks
  import Behavior

  ghost predicate Ended(log: Log, t: Token) {
    exists i :: 0 <= i < |log| && log[i] == OrderCanceled(t)
  }

  /** No execution is reported of an order that was reported as cancelled before. */
  ghost predicate NoneAfterEnd(log: Log) {
    forall i :: 0 <= i < |log| && log[i].OrderExecution? ==> !Ended(log[..i], log[i].token)
  }

  lemma EndedOne(log: Log, e: Event, t: Token)
    ensures Ended(log + [e], t) <==> Ended(log, t) || e == OrderCanceled(t)
  {
    var l1 := log + [e];
    if Ended(log, t) {
      var i :| 0 <= i < |log| && log[i] == OrderCanceled(t);
      assert l1[i] == OrderCanceled(t);
    }
    if e == OrderCanceled(t) {
      assert l1[|log|] == OrderCanceled(t);
    }
    if Ended(l1, t) && e != OrderCanceled(t) {
      var i :| 0 <= i < |l1| && l1[i] == OrderCanceled(t);
      assert log[i] == OrderCanceled(t);
    }
  }

  lemma OneMore(log: Log, e: Event)
    requires NoneAfterEnd(log) && (e.OrderExecution? ==> !Ended(log, e.token))
    ensures NoneAfterEnd(log + [e])
  {
    hide Ended;
    var l1 := log + [e];
    assert l1[..|log|] == log;
    forall i | 0 <= i < |l1| && l1[i].OrderExecution? ensures !Ended(l1[..i], l1[i].token) {
      if i < |log| {
        assert l1[..i] == log[..i];
      }
    }
  }

  /** A token that was reported as cancelled is used up: it is not active, except that it may still await erasure,
      and no queued modify can make it active again. */
  ghost predicate Gone(active: Book, awaiting: set<Token>, queue: seq<ModifyOrder>, log: Log, used: set<Token>,
                       t: Token)
  {
    Ended(log, t) ==>
      && t in used && (t !in active || t in awaiting)
      && forall i :: 0 <= i < |queue| && queue[i].token == t ==> Effects(log, t) > 0
  }

  ghost predicate AllGone(active: Book, awaiting: set<Token>, queue: seq<ModifyOrder>, log: Log, used: set<Token>) {
    NoneAfterEnd(log) && forall t :: Gone(active, awaiting, queue, log, used, t)
  }

  /** A message that ends no order, executes nothing and modifies nothing. */
  lemma OtherMessage(active: Book, awaiting: set<Token>, queue: seq<ModifyOrder>, log: Log, used: set<Token>, e: Event)
    requires AllGone(active, awaiting, queue, log, used)
    requires !e.OrderCanceled? && !e.OrderExecution? && !e.OrderModified?
    ensures AllGone(active, awaiting, queue, log + [e], used)
  {
    hide Ended, NoneAfterEnd, Effects;
    OneMore(log, e);
    forall t ensures Gone(active, awaiting, queue, log + [e], used, t) {
      assert Gone(active, awaiting, queue, log, used, t);
      EndedOne(log, e, t);
      ReadOne(log, e, queue, t);
    }
  }

  // ---------------------------------------------------------------- the passes

  /** One cancel: an order of the book that is reported is marked for erasure. */
  lemma CancelStepGone(p: Phase, t: Token, coin: bool, queue: seq<ModifyOrder>, used: set<Token>)
    requires Tidy(p.active, p.finished, queue, p.log, used) && AllGone(p.active, p.done, queue, p.log, used)
    ensures var r := CancelStep(p, t, coin); AllGone(r.active, r.done, queue, r.log, used)
  {
    hide Ended, NoneAfterEnd, Effects, LastLeaves, Filled, Answered, Behavior.Ask;
    OtherMessage(p.active, p.done, queue, p.log, used, CancelRejected(t, TooLateToCancel));
    OtherMessage(p.active, p.done, queue, p.log, used, CancelRejected(t, Unforeseen));
    var r := CancelStep(p, t, coin);
    if t in p.active && Behavior.Ask(p.m, Behavior.CancelOrder, coin).ok {
      OneMore(p.log, OrderCanceled(t));
      assert OrderKnown(p.active, queue, p.log, used, t);
      forall u ensures Gone(r.active, r.done, queue, r.log, used, u) {
        assert Gone(p.active, p.done, queue, p.log, used, u);
        EndedOne(p.log, OrderCanceled(t), u);
        ReadOne(p.log, OrderCanceled(t), queue, u);
        forall i | 0 <= i < |queue| && queue[i].token == t ensures Effects(p.log, t) > 0 {
          assert ModifyOnce(p.active, p.finished, p.log, used, queue[i]);
        }
      }
    }
  }

  lemma {:induction false} CancelsGone(p: Phase, reqs: seq<Token>, coin: Coins, queue: seq<ModifyOrder>,
                                       used: set<Token>)
    requires Tidy(p.active, p.finished, queue, p.log, used) && AllGone(p.active, p.done, queue, p.log, used)
    ensures var r := CancelAllOf(p, reqs, coin); AllGone(r.active, r.done, queue, r.log, used)
  {
    hide Tidy, AllGone, CancelStep;
    if reqs != [] {
      var n := |reqs| - 1;
      CancelsGone(p, reqs[..n], coin, queue, used);
      CancelsTidy(p, reqs[..n], coin, queue, used);
      CancelStepGone(CancelAllOf(p, reqs[..n], coin), reqs[n], coin(n), queue, used);
    }
  }

  /** A modify never makes a cancelled token active: its new token is still unborn. */
  lemma ModifyStepGone(p: Phase, queue: seq<ModifyOrder>, i: nat, junk: BoeOrder, used: set<Token>)
    requires i < |queue| && Tidy(p.active, p.finished, queue, p.log, used)
    requires AllGone(p.active, {}, queue, p.log, used)
    ensures var r := ModifyStep(p, queue[i], junk); AllGone(r.active, {}, queue, r.log, used)
  {
    hide Ended, NoneAfterEnd, Effects, LastLeaves, Filled, Answered;
    var mo := queue[i];
    if mo.original in p.active {
      var r := ModifyStep(p, mo, junk);
      assert ModifyOnce(p.active, p.finished, p.log, used, mo);
      var e := ModifiedMessage(Amended(mo, p.active[mo.original]));
      assert r.log == p.log + [e];
      OneMore(p.log, e);
      forall t ensures Gone(r.active, {}, queue, r.log, used, t) {
        assert Gone(p.active, {}, queue, p.log, used, t);
        EndedOne(p.log, e, t);
        ReadOne(p.log, e, queue, t);
      }
    }
  }

  lemma {:induction false} ModifiesGone(p: Phase, n: nat, junk: Junk, queue: seq<ModifyOrder>, used: set<Token>)
    requires n <= |queue| && Tidy(p.active, p.finished, queue, p.log, used) && MarksGone(p, queue)
    requires AllGone(p.active, {}, queue, p.log, used)
    ensures var r := ModifyAllOf(p, queue[..n], junk); AllGone(r.active, {}, queue, r.log, used)
  {
    hide Tidy, MarksGone, ModifyStep, AllGone;
    if n > 0 {
      assert queue[..n][..n - 1] == queue[..n - 1];
      ModifiesGone(p, n - 1, junk, queue, used);
      ModifiesTidy(p, n - 1, junk, queue, used);
      ModifyStepGone(ModifyAllOf(p, queue[..n - 1], junk), queue, n - 1, junk(n - 1), used);
    }
  }

  lemma ExecuteStepGone(p: Phase, k: Token, coin: bool, roll: Roll, queue: seq<ModifyOrder>, used: set<Token>)
    requires k in p.active && Tidy(p.active, p.finished, queue, p.log, used)
    requires AllGone(p.active, {}, queue, p.log, used)
    ensures var r := ExecuteStep(p, k, coin, roll); AllGone(r.active, {}, queue, r.log, used)
  {
    hide Ended, NoneAfterEnd, Effects, LastLeaves, Filled, Answered, Behavior.Ask;
    var r := ExecuteStep(p, k, coin, roll);
    assert OrderKnown(p.active, queue, p.log, used, k);
    assert Gone(p.active, {}, queue, p.log, used, k);
    if r.log != p.log {
      var e := r.log[|p.log|];
      assert r.log == p.log + [e] && e.OrderExecution? && e.token == k;
      OneMore(p.log, e);
      forall t ensures Gone(r.active, {}, queue, r.log, used, t) {
        assert Gone(p.active, {}, queue, p.log, used, t);
        EndedOne(p.log, e, t);
        ReadOne(p.log, e, queue, t);
      }
    } else {
      forall t ensures Gone(r.active, {}, queue, r.log, used, t) {
        assert Gone(p.active, {}, queue, p.log, used, t);
      }
    }
  }

  lemma {:induction false} ExecutesGone(p: Phase, order: seq<Token>, coin: Coins, roll: Rolls, queue: seq<ModifyOrder>,
                                        used: set<Token>)
    requires forall i :: 0 <= i < |order| ==> order[i] in p.active
    requires Tidy(p.active, p.finished, queue, p.log, used) && AllGone(p.active, {}, queue, p.log, used)
    ensures var r := ExecuteAllOf(p, order, coin, roll); AllGone(r.active, {}, queue, r.log, used)
  {
    hide Tidy, AllGone, ExecuteStep;
    if order != [] {
      var n := |order| - 1;
      ExecutesGone(p, order[..n], coin, roll, queue, used);
      ExecutesTidy(p, order[..n], coin, roll, queue, used);
      ExecuteStepGone(ExecuteAllOf(p, order[..n], coin, roll), order[n], coin(n), roll(n), queue, used);
    }
  }

  // ---------------------------------------------------------------- steps

  /** Fewer orders in the book, and more tokens used. */
  lemma FewerGone(active: Book, awaiting: set<Token>, active1: Book, queue: seq<ModifyOrder>, log: Log,
                  used: set<Token>, used1: set<Token>)
    requires AllGone(active, awaiting, queue, log, used) && used <= used1
    requires forall t :: t in active1 ==> t in active && t !in awaiting
    ensures AllGone(active1, {}, queue, log, used1)
  {
    hide Ended, NoneAfterEnd, Effects;
    forall t ensures Gone(active1, {}, queue, log, used1, t) {
      assert Gone(active, awaiting, queue, log, used, t);
    }
  }

  ghost predicate CancelsKept(s: Session, used: set<Token>) {
    AllGone(s.active, {}, s.pendingModify, s.log, used)
  }

  lemma TickGone(s: Session, m: Manager, d: Draws, used: set<Token>)
    requires TidySession(s, used) && CancelsKept(s, used) && IsOrder(d.order, BeforeExecution(s, m, d).s.active.Keys)
    ensures CancelsKept(Tick(s, m, d).s, used)
  {
    hide Tidy, AllGone, CancelAllOf, ModifyAllOf, ExecuteAllOf;
    var q := s.pendingModify;
    var h := Heartbeat(s, d.now);
    OtherMessage(s.active, {}, q, s.log, used, ServerHeartbeat);
    OneHarmless(s.active, s.finished, q, s.log, used, ServerHeartbeat);
    var pc := CancelAllOf(Start(h, m), h.pendingCancel, d.cancelCoin);
    CancelsGone(Start(h, m), h.pendingCancel, d.cancelCoin, q, used);
    CancelsTidy(Start(h, m), h.pendingCancel, d.cancelCoin, q, used);
    FewerGone(pc.active, pc.done, pc.active - pc.done, q, pc.log, used, used);
    FewerOrders(pc.active, pc.finished, q, pc.log, used, pc.active - pc.done, pc.finished);
    var c := CancelLogic(h, m, d.cancelCoin);
    assert q[..|q|] == q;
    var pm := ModifyAllOf(Start(c.s, c.m), q, d.junk);
    ModifiesGone(Start(c.s, c.m), |q|, d.junk, q, used);
    ModifiesTidy(Start(c.s, c.m), |q|, d.junk, q, used);
    FewerGone(pm.active, {}, pm.active - pm.done, q, pm.log, used, used);
    FewerOrders(pm.active, pm.finished, q, pm.log, used, pm.active - pm.done, pm.finished);
    var b := BeforeExecution(s, m, d);
    var pe := ExecuteAllOf(Start(b.s, b.m), d.order, d.executeCoin, d.roll);
    ExecutesGone(Start(b.s, b.m), d.order, d.executeCoin, d.roll, q, used);
    FewerGone(pe.active, {}, pe.active - pe.done, q, pe.log, used, used);
  }

  lemma EnterGone(s: Session, m: Manager, no: NewOrder, id: uint64, coin: bool, used: set<Token>)
    requires CancelsKept(s, used) && no.token !in used
    ensures CancelsKept(Enter(s, m, no, id, coin).s, used + {no.token})
  {
    hide Ended, NoneAfterEnd, Effects, Behavior.Ask;
    var q, r := s.pendingModify, Enter(s, m, no, id, coin).s;
    OtherMessage(s.active, {}, q, s.log, used, OrderRejected(no.token));
    OtherMessage(s.active, {}, q, s.log, used, AckMessage(ParseOrder(no, id), U32(s.seqNum + 1)));
    forall t ensures Gone(r.active, {}, q, r.log, used + {no.token}, t) {
      assert Gone(s.active, {}, q, r.log, used, t);
    }
  }

  lemma QueueModifyGone(s: Session, m: Manager, mo: ModifyOrder, coin: bool, used: set<Token>)
    requires CancelsKept(s, used) && mo.token !in used
    ensures CancelsKept(QueueModify(s, m, mo, coin).s, used + {mo.token})
  {
    hide Ended, NoneAfterEnd, Effects, Behavior.Ask;
    var q, r := s.pendingModify, QueueModify(s, m, mo, coin).s;
    OtherMessage(s.active, {}, q, s.log, used, ModifyRejected(mo.original, UnknownOrder));
    OtherMessage(s.active, {}, q, s.log, used, ModifyRejected(mo.original, Unforeseen));
    forall t ensures Gone(r.active, {}, r.pendingModify, r.log, used + {mo.token}, t) {
      assert Gone(s.active, {}, q, r.log, used, t);
      forall i | 0 <= i < |r.pendingModify| && Ended(r.log, t) && r.pendingModify[i].token == t
        ensures Effects(r.log, t) > 0
      {
        assert i < |q| && q[i].token == t;
      }
    }
  }

  lemma {:induction false} CancelAllEnds(queue: seq<ModifyOrder>, log: Log, b: Book, order: seq<Token>, finished: Book,
                                         used: set<Token>)
    requires (forall i :: 0 <= i < |order| ==> order[i] in b) && Tidy(b, finished, queue, log, used)
    requires AllGone(map[], {}, queue, log, used)
    ensures var l := CancelAllLog(log, b, order);
            AllGone(map[], {}, queue, l, used) && Tidy(b, finished, queue, l, used)
  {
    hide Ended, NoneAfterEnd, Effects, LastLeaves, Filled, Answered;
    if order != [] {
      var n := |order| - 1;
      var k := order[n];
      var before := CancelAllLog(log, b, order[..n]);
      CancelAllEnds(queue, log, b, order[..n], finished, used);
      OneHarmless(b, finished, queue, before, used, OrderCanceled(k));
      assert OrderKnown(b, queue, before, used, k);
      OneMore(before, OrderCanceled(k));
      forall t ensures Gone(map[], {}, queue, before + [OrderCanceled(k)], used, t) {
        assert Gone(map[], {}, queue, before, used, t);
        EndedOne(before, OrderCanceled(k), t);
        ReadOne(before, OrderCanceled(k), queue, t);
        forall i | 0 <= i < |queue| && queue[i].token == k ensures Effects(before, k) > 0 {
          assert ModifyOnce(b, finished, before, used, queue[i]);
        }
      }
    }
  }

  lemma CancelAllGone(s: Session, order: seq<Token>, used: set<Token>)
    requires TidySession(s, used) && CancelsKept(s, used) && IsOrder(order, s.active.Keys)
    ensures CancelsKept(CancelAll(s, order), used)
  {
    hide AllGone, Tidy;
    FewerGone(s.active, {}, map[], s.pendingModify, s.log, used, used);
    CancelAllEnds(s.pendingModify, s.log, s.active, order, s.finished, used);
  }

  /** One step of a disciplined client. */
  lemma StepGone(s: Session, m: Manager, step: Step, used: set<Token>)
    requires TidySession(s, used) && CancelsKept(s, used) && Legal(s, m, step) && Disciplined(s, used, step)
    ensures CancelsKept(Apply(s, m, step).s, used + Introduces(step))
  {
    hide Tidy, AllGone, Tick, Enter, QueueModify, CancelAll, IsOrder, Behavior.Ask, BeforeExecution;
    var q := s.pendingModify;
    assert Introduces(step) == {} ==> used + Introduces(step) == used;
    match step
    case DoLogin(coin) =>
      OtherMessage(s.active, {}, q, s.log, used, LoginResponse(SessionDisabled));
      OtherMessage(s.active, {}, q, s.log, used, LoginResponse(SessionInUse));
      OtherMessage(s.active, {}, q, s.log, used, LoginResponse(LoginOk));
    case DoClose =>
    case DoEnter(no, id, coin) => EnterGone(s, m, no, id, coin, used);
    case DoModify(mo, coin) => QueueModifyGone(s, m, mo, coin, used);
    case DoCancel(t, junk, coin) =>
      OtherMessage(s.active, {}, q, s.log, used, CancelRejected(t, TooLateToCancel));
      OtherMessage(s.active, {}, q, s.log, used, CancelRejected(t, Unforeseen));
    case DoTick(d) => TickGone(s, m, d, used);
    case DoCancelAll(order) => CancelAllGone(s, order, used);
  }
}
