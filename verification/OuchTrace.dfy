/** Which kinds of events each part of the OUCH session can add to its log, what follows for the login, and what
    each kind costs at the manager. */
module OuchTrace {
  import opened Bytes
  import opened OuchOrders
  import opened Ouch
  import opened Walks
  import Behavior

  datatype Class = ALogin | AnEntry | AFill | AUserCancel | AClosing | Another

  function ClassOf(e: Event): Class {
    match e
    case LoginAccepted => ALogin
    case Accepted(_) => AnEntry
    case Executed(_, _, _) => AFill
    case Canceled(_, _, reason) => if reason == UserRequested then AUserCancel else Another
    case SessionClosed => AClosing
    case _ => Another
  }

  /** `l1` continues `l0` with events of the given classes only. */
  ghost predicate Adds(l0: Log, l1: Log, cs: set<Class>) {
    && |l0| <= |l1| && l1[..|l0|] == l0
    && forall i :: |l0| <= i < |l1| ==> ClassOf(l1[i]) in cs
  }

  function Count(log: Log, c: Class): nat {
    if log == [] then 0
    else Count(log[..|log| - 1], c) + if ClassOf(log[|log| - 1]) == c then 1 else 0
  }

  lemma CountOne(log: Log, e: Event, c: Class)
    ensures Count(log + [e], c) == Count(log, c) + if ClassOf(e) == c then 1 else 0
  {
    assert (log + [e])[..|log|] == log;
  }

  lemma CountsOne(log: Log, e: Event)
    ensures forall c :: Count(log + [e], c) == Count(log, c) + if ClassOf(e) == c then 1 else 0
  {
    forall c ensures Count(log + [e], c) == Count(log, c) + if ClassOf(e) == c then 1 else 0 {
      CountOne(log, e, c);
    }
  }

  lemma {:induction false} AddsNone(l0: Log, l1: Log, cs: set<Class>, c: Class)
    requires Adds(l0, l1, cs) && c !in cs
    ensures Count(l1, c) == Count(l0, c)
    decreases |l1|
  {
    if |l0| < |l1| {
      assert l1[..|l1| - 1][..|l0|] == l0;
      AddsNone(l0, l1[..|l1| - 1], cs, c);
    } else {
      assert l1 == l0;
    }
  }

  lemma AddsTransitive(l0: Log, l1: Log, l2: Log, cs: set<Class>)
    requires Adds(l0, l1, cs) && Adds(l1, l2, cs)
    ensures Adds(l0, l2, cs)
  {
    assert l2[..|l0|] == l2[..|l1|][..|l0|];
  }

  // ---------------------------------------------------------------- what the passes add

  lemma CancelStepAdds(p: Phase, co: CancelOrder, coin: bool)
    ensures Adds(p.log, CancelStep(p, co, coin).log, {AUserCancel, Another})
  {
    hide Behavior.Ask;
  }

  lemma {:induction false} CancelsAdd(p: Phase, reqs: seq<CancelOrder>, coin: Coins)
    ensures Adds(p.log, CancelAllOf(p, reqs, coin).log, {AUserCancel, Another})
  {
    hide CancelStep, Adds;
    if reqs == [] {
      AddsNothing(p.log, {AUserCancel, Another});
    } else {
      var n := |reqs| - 1;
      var q, r := CancelAllOf(p, reqs[..n], coin), CancelAllOf(p, reqs, coin);
      CancelsAdd(p, reqs[..n], coin);
      CancelStepAdds(q, reqs[n], coin(n));
      AddsTransitive(p.log, q.log, r.log, {AUserCancel, Another});
    }
  }

  lemma {:induction false} ModifiesAdd(p: Phase, reqs: seq<ModifyOrder>)
    ensures Adds(p.log, ModifyAllOf(p, reqs).log, {Another}) && ModifyAllOf(p, reqs).m == p.m
  {
    hide Admissible;
    if reqs != [] {
      ModifiesAdd(p, reqs[..|reqs| - 1]);
    }
  }

  lemma {:induction false} ReplacesAdd(p: Phase, reqs: seq<ReplaceOrder>, junk: Junk)
    ensures Adds(p.log, ReplaceAllOf(p, reqs, junk).log, {Another}) && ReplaceAllOf(p, reqs, junk).m == p.m
  {
    hide ReplacedMessage, Renewed, Closes;
    if reqs != [] {
      ReplacesAdd(p, reqs[..|reqs| - 1], junk);
    }
  }

  lemma VisitAdds(o: OuchOrder, now: int, roll: Roll)
    ensures var v := VisitOrder(o, now, roll);
            v.Finishes? || v.messages == []
            || (|v.messages| == 1 && ClassOf(v.messages[0]) == if v.Keeps? then AFill else Another)
  {
  }

  lemma ExecuteStepAdds(p: Phase, k: Token, now: int, coin: bool, roll: Roll)
    requires k in p.active
    ensures var r := ExecuteStep(p, k, now, coin, roll);
            && Adds(p.log, r.log, {AFill, Another})
            && Behavior.Paid(p.m, r.m, Behavior.Execution, Count(r.log, AFill) - Count(p.log, AFill))
            && (forall j :: Behavior.Paid(p.m, r.m, j, 0))
            && r.m.exeQty == p.m.exeQty
  {
    hide VisitOrder, Behavior.Ask;
    var v := VisitOrder(p.active[k], now, roll);
    VisitAdds(p.active[k], now, roll);
    forall j {
      Behavior.AskPays(p.m, Behavior.Execution, coin, j);
    }
    Behavior.AskPays(p.m, Behavior.Execution, coin, Behavior.Execution);
    if !v.Finishes? && v.messages != [] {
      assert v.messages == [v.messages[0]];
      CountOne(p.log, v.messages[0], AFill);
    } else if !v.Finishes? {
      assert p.log + v.messages == p.log;
    }
  }

  lemma {:induction false} ExecutesAdd(p: Phase, order: seq<Token>, now: int, coin: Coins, roll: Rolls)
    requires forall i :: 0 <= i < |order| ==> order[i] in p.active
    ensures var r := ExecuteAllOf(p, order, now, coin, roll);
            && Adds(p.log, r.log, {AFill, Another})
            && Behavior.Paid(p.m, r.m, Behavior.Execution, Count(r.log, AFill) - Count(p.log, AFill))
            && (forall j :: Behavior.Paid(p.m, r.m, j, 0))
            && r.m.exeQty == p.m.exeQty
  {
    hide ExecuteStep, Adds, Behavior.Ask;
    if order != [] {
      var n := |order| - 1;
      var q := ExecuteAllOf(p, order[..n], now, coin, roll);
      var r := ExecuteStep(q, order[n], now, coin(n), roll(n));
      ExecutesAdd(p, order[..n], now, coin, roll);
      ExecuteStepAdds(q, order[n], now, coin(n), roll(n));
      AddsTransitive(p.log, q.log, r.log, {AFill, Another});
      forall j ensures Behavior.Paid(p.m, r.m, j, 0) {
        assert Behavior.Paid(p.m, q.m, j, 0) && Behavior.Paid(q.m, r.m, j, 0);
      }
    } else {
      assert Adds(p.log, p.log, {AFill, Another}) by {
        AddsNothing(p.log, {AFill, Another});
      }
    }
  }

  lemma AddsNothing(log: Log, cs: set<Class>)
    ensures Adds(log, log, cs)
  {
  }

  /** Working off one cancel: what it takes out of the queue and the second charge pay for the user's cancel. */
  lemma CancelStepPays(p: Phase, co: CancelOrder, coin: bool)
    ensures var r := CancelStep(p, co, coin);
            && Behavior.Paid(p.m, r.m, Behavior.CancelOrder,
                             2 * (Count(r.log, AUserCancel) - Count(p.log, AUserCancel)) - 1)
            && (forall j :: Behavior.Paid(p.m, r.m, j, 0))
            && r.m.exeQty == p.m.exeQty
  {
    hide Behavior.Ask, Count;
    forall j {
      Behavior.AskPays(p.m, Behavior.CancelOrder, coin, j);
    }
    Behavior.AskPays(p.m, Behavior.CancelOrder, coin, Behavior.CancelOrder);
    CountOne(p.log, CancelReject(co.token), AUserCancel);
    if co.token in p.active {
      var current := U32(p.active[co.token].remaining);
      var o := p.active[co.token];
      CountOne(p.log, Canceled(co.token, o.remaining, UserRequested), AUserCancel);
      if 0 < co.qty < current {
        CountOne(p.log, Canceled(co.token, o.remaining - co.qty, UserRequested), AUserCancel);
      }
    }
  }

  lemma {:induction false} CancelsPay(p: Phase, reqs: seq<CancelOrder>, coin: Coins)
    ensures var r := CancelAllOf(p, reqs, coin);
            && Behavior.Paid(p.m, r.m, Behavior.CancelOrder,
                             2 * (Count(r.log, AUserCancel) - Count(p.log, AUserCancel)) - |reqs|)
            && (forall j :: Behavior.Paid(p.m, r.m, j, 0))
            && r.m.exeQty == p.m.exeQty
  {
    hide CancelStep, Count;
    if reqs != [] {
      var n := |reqs| - 1;
      var q := CancelAllOf(p, reqs[..n], coin);
      var r := CancelStep(q, reqs[n], coin(n));
      CancelsPay(p, reqs[..n], coin);
      CancelStepPays(q, reqs[n], coin(n));
      forall j ensures Behavior.Paid(p.m, r.m, j, 0) {
        assert Behavior.Paid(p.m, q.m, j, 0) && Behavior.Paid(q.m, r.m, j, 0);
      }
    }
  }

  lemma {:induction false} CancelAllAdds(log: Log, b: Book, order: seq<Token>, now: int)
    requires forall i :: 0 <= i < |order| ==> order[i] in b
    ensures Adds(log, CancelAllLog(log, b, order, now), {Another})
  {
    hide StillActive;
    if order != [] {
      CancelAllAdds(log, b, order[..|order| - 1], now);
    }
  }

  // ---------------------------------------------------------------- the cost of a step

  type Spent = Behavior.Each<int>

  /** What the step achieved, by the action it is rationed under. A queued modify or replace counts when it enters
      its queue; a user's cancel counts twice, and queueing it is its first half. */
  function Achieved(s: Session, step: Step, s1: Session): Spent {
    Behavior.Each(
      Count(s1.log, ALogin) - Count(s.log, ALogin),
      0,
      Count(s1.log, AnEntry) - Count(s.log, AnEntry),
      |s1.pendingModify| - |s.pendingModify|,
      if step.DoReplace? then |s1.pendingReplace| - |s.pendingReplace| else 0,
      2 * (Count(s1.log, AUserCancel) - Count(s.log, AUserCancel)) + |s1.pendingCancel| - |s.pendingCancel|,
      Count(s1.log, AFill) - Count(s.log, AFill))
  }

  ghost predicate PaidFor(m: Manager, m1: Manager, spent: Spent) {
    m1.exeQty == m.exeQty && forall k :: Behavior.Paid(m, m1, k, spent.Get(k))
  }

  lemma SameCounts(l0: Log, l1: Log, cs: set<Class>)
    requires Adds(l0, l1, cs)
    ensures forall c :: c !in cs ==> Count(l1, c) == Count(l0, c)
  {
    forall c | c !in cs ensures Count(l1, c) == Count(l0, c) {
      AddsNone(l0, l1, cs, c);
    }
  }

  lemma HeartbeatAdds(s: Session, now: int)
    ensures Adds(s.log, Heartbeat(s, now).log, {Another})
  {
  }

  /** The passes before the execution pass, and the heartbeat. */
  lemma BeforeExecutionPays(s: Session, m: Manager, d: Draws)
    ensures var o := BeforeExecution(s, m, d);
            && Adds(s.log, o.s.log, {AUserCancel, Another})
            && o.m.exeQty == m.exeQty
            && (forall j :: Behavior.Paid(m, o.m, j, 0))
            && Behavior.Paid(m, o.m, Behavior.CancelOrder,
                             2 * (Count(o.s.log, AUserCancel) - Count(s.log, AUserCancel)) - |s.pendingCancel|)
            && |o.s.pendingCancel| == 0 && |o.s.pendingModify| == |s.pendingModify|
  {
    hide CancelAllOf, ModifyAllOf, ReplaceAllOf, Count, Adds;
    var h := Heartbeat(s, d.now);
    var pc := CancelAllOf(Start(h, m), h.pendingCancel, d.cancelCoin);
    var c := CancelLogic(h, m, d.cancelCoin);
    var pm := ModifyAllOf(Start(c.s, c.m), c.s.pendingModify);
    var o := ModifyLogic(c.s, c.m);
    var pr := ReplaceAllOf(Start(o.s, o.m), o.s.pendingReplace, d.junk);
    HeartbeatAdds(s, d.now);
    CancelsAdd(Start(h, m), h.pendingCancel, d.cancelCoin);
    CancelsPay(Start(h, m), h.pendingCancel, d.cancelCoin);
    ModifiesAdd(Start(c.s, c.m), c.s.pendingModify);
    ReplacesAdd(Start(o.s, o.m), o.s.pendingReplace, d.junk);
    SameCounts(s.log, h.log, {Another});
    SameCounts(pc.log, pm.log, {Another});
    SameCounts(pm.log, pr.log, {Another});
    AddsMore(s.log, h.log, {Another}, {AUserCancel, Another});
    AddsMore(pc.log, pm.log, {Another}, {AUserCancel, Another});
    AddsMore(pm.log, pr.log, {Another}, {AUserCancel, Another});
    AddsTransitive(s.log, h.log, pc.log, {AUserCancel, Another});
    AddsTransitive(s.log, pc.log, pm.log, {AUserCancel, Another});
    AddsTransitive(s.log, pm.log, pr.log, {AUserCancel, Another});
  }

  lemma AddsMore(l0: Log, l1: Log, cs: set<Class>, ds: set<Class>)
    requires Adds(l0, l1, cs) && cs <= ds
    ensures Adds(l0, l1, ds)
  {
  }

  lemma TickPays(s: Session, m: Manager, d: Draws)
    requires IsOrder(d.order, BeforeExecution(s, m, d).s.active.Keys)
    ensures var o := Tick(s, m, d);
            && Adds(s.log, o.s.log, {AUserCancel, AFill, Another})
            && PaidFor(m, o.m, Achieved(s, DoTick(d), o.s))
  {
    hide BeforeExecution, ExecuteAllOf, Count, Adds;
    var b := BeforeExecution(s, m, d);
    var p := Start(b.s, b.m);
    var r := ExecuteAllOf(p, d.order, d.now, d.executeCoin, d.roll);
    BeforeExecutionPays(s, m, d);
    ExecutesAdd(p, d.order, d.now, d.executeCoin, d.roll);
    SameCounts(s.log, b.s.log, {AUserCancel, Another});
    SameCounts(b.s.log, r.log, {AFill, Another});
    AddsMore(s.log, b.s.log, {AUserCancel, Another}, {AUserCancel, AFill, Another});
    AddsMore(b.s.log, r.log, {AFill, Another}, {AUserCancel, AFill, Another});
    AddsTransitive(s.log, b.s.log, r.log, {AUserCancel, AFill, Another});
    forall k
      ensures Behavior.Paid(m, r.m, k, Achieved(s, DoTick(d), Tick(s, m, d).s).Get(k))
    {
      assert Behavior.Paid(m, b.m, k, 0) && Behavior.Paid(b.m, r.m, k, 0);
    }
  }

  lemma LoginPays(s: Session, m: Manager, coin: bool)
    ensures var o := HandleLogin(s, m, coin); PaidFor(m, o.m, Achieved(s, DoLogin(coin), o.s))
  {
    hide Count, Behavior.Ask;
    var o := HandleLogin(s, m, coin);
    CountsOne(s.log, LoginRejected(SessionNotAvailable));
    CountsOne(s.log, LoginRejected(NotAuthorized));
    CountsOne(s.log, LoginAccepted);
    Behavior.AskPays(m, Behavior.Login, coin, Behavior.Login);
    forall k ensures Behavior.Paid(m, o.m, k, Achieved(s, DoLogin(coin), o.s).Get(k)) {
      Behavior.AskPays(m, Behavior.Login, coin, k);
    }
  }

  lemma ClosePays(s: Session, m: Manager)
    ensures PaidFor(m, m, Achieved(s, DoClose, Close(s)))
  {
    hide Count;
    CountsOne(s.log, SessionClosed);
  }

  lemma EnterPays(s: Session, m: Manager, eo: EnterOrder, id: uint64, now: int, coin: bool)
    ensures var o := Enter(s, m, eo, id, now, coin); PaidFor(m, o.m, Achieved(s, DoEnter(eo, id, now, coin), o.s))
  {
    hide Count, Behavior.Ask, AcceptedMessage, ValidEnter;
    var o := Enter(s, m, eo, id, now, coin);
    CountsOne(s.log, Rejected(eo.token, ExceededConfiguredSafety));
    CountsOne(s.log, Rejected(eo.token, Other));
    CountsOne(s.log, Accepted(AcceptedMessage(ParseOrder(eo, id, now))));
    Behavior.AskPays(m, Behavior.NewOrder, coin, Behavior.NewOrder);
    forall k ensures Behavior.Paid(m, o.m, k, Achieved(s, DoEnter(eo, id, now, coin), o.s).Get(k)) {
      Behavior.AskPays(m, Behavior.NewOrder, coin, k);
    }
  }

  lemma QueuePays(s: Session, m: Manager, step: Step)
    requires step.DoModify? || step.DoReplace? || step.DoCancel?
    ensures var o := Apply(s, m, step); PaidFor(m, o.m, Achieved(s, step, o.s)) && o.s.log == s.log
  {
    hide Count, Behavior.Ask, ValidModify, ValidReplace, ValidCancel;
    var o := Apply(s, m, step);
    var kind := if step.DoModify? then Behavior.ModifyOrder
                else if step.DoReplace? then Behavior.ReplaceOrder else Behavior.CancelOrder;
    Behavior.AskPays(m, kind, step.coin, kind);
    forall k ensures Behavior.Paid(m, o.m, k, Achieved(s, step, o.s).Get(k)) {
      Behavior.AskPays(m, kind, step.coin, k);
    }
  }

  /** Everything a step achieves was paid for at the manager. */
  lemma StepPays(s: Session, m: Manager, step: Step)
    requires Legal(s, m, step)
    ensures var o := Apply(s, m, step); PaidFor(m, o.m, Achieved(s, step, o.s))
  {
    hide Count, Adds, Tick, Behavior.Ask, PaidFor, CancelAll;
    match step
    case DoLogin(coin) => LoginPays(s, m, coin);
    case DoClose => ClosePays(s, m);
    case DoEnter(eo, id, now, coin) => EnterPays(s, m, eo, id, now, coin);
    case DoTick(d) => TickPays(s, m, d);
    case DoCancelAll(order, now) => CancelAllPays(s, m, order, now);
    case _ => QueuePays(s, m, step);
  }

  lemma CancelAllPays(s: Session, m: Manager, order: seq<Token>, now: int)
    requires IsOrder(order, s.active.Keys)
    ensures PaidFor(m, m, Achieved(s, DoCancelAll(order, now), CancelAll(s, order, now)))
  {
    hide Count, Adds;
    CancelAllAdds(s.log, s.active, order, now);
    SameCounts(s.log, CancelAll(s, order, now).log, {Another});
  }
}
