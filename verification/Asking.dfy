/** How many questions the two sessions ask of each kind, and that a counter answers yes to exactly as many as it was
    set to. */
module Asking {
  import opened Bytes
  import opened Walks
  import opened Exchange
  import opened Questions
  import Behavior
  import Ouch
  import OuchOrders
  import OuchEffects
  import OuchTrace
  import Boe
  import BoeTrace
  import Rationing

  // ---------------------------------------------------------------- OUCH

  /** How many of the cancels name an order of the book. */
  function Naming(keys: set<OuchOrders.Token>, reqs: seq<OuchOrders.CancelOrder>): nat {
    if reqs == [] then 0
    else Naming(keys, reqs[..|reqs| - 1]) + if reqs[|reqs| - 1].token in keys then 1 else 0
  }

  /** The questions of one OUCH step. */
  function OuchQuestions(s: Ouch.Session, step: Ouch.Step): Behavior.Each<nat> {
    var none := Behavior.Same<nat>(0);
    match step
    case DoLogin(_) => if s.loggedIn then none else none.(login := 1)
    case DoEnter(eo, _, _, _) =>
      if OuchOrders.ValidEnter(eo) && eo.qty <= 999999 && s.loggedIn then none.(newOrder := 1) else none
    case DoModify(mo, _) =>
      if OuchOrders.ValidModify(mo) && mo.token in s.active then none.(modifyOrder := 1) else none
    case DoReplace(ro, _) => if OuchOrders.ValidReplace(ro) then none.(replaceOrder := 1) else none
    case DoCancel(co, _) =>
      if OuchOrders.ValidCancel(co) && co.token in s.active then none.(cancelOrder := 1) else none
    case DoTick(d) => none.(cancelOrder := Naming(s.active.Keys, s.pendingCancel), execution := |d.order|)
    case _ => none
  }

  lemma CancelStepUses(p: Ouch.Phase, co: OuchOrders.CancelOrder, coin: bool, k: Behavior.Kind)
    ensures var r := Ouch.CancelStep(p, co, coin);
            && r.active.Keys == p.active.Keys
            && UsedUp(p.m, r.m, k, if k == Behavior.CancelOrder && co.token in p.active then 1 else 0)
  {
    hide Behavior.Ask;
    AskUses(p.m, Behavior.CancelOrder, coin, k);
  }

  lemma {:induction false} CancelsUse(p: Ouch.Phase, reqs: seq<OuchOrders.CancelOrder>, coin: Coins, k: Behavior.Kind)
    ensures var r := Ouch.CancelAllOf(p, reqs, coin);
            && r.active.Keys == p.active.Keys
            && UsedUp(p.m, r.m, k, if k == Behavior.CancelOrder then Naming(p.active.Keys, reqs) else 0)
  {
    hide Ouch.CancelStep;
    if reqs != [] {
      var n := |reqs| - 1;
      CancelsUse(p, reqs[..n], coin, k);
      CancelStepUses(Ouch.CancelAllOf(p, reqs[..n], coin), reqs[n], coin(n), k);
    }
  }

  lemma ExecuteStepUses(p: Ouch.Phase, key: OuchOrders.Token, now: int, coin: bool, roll: Roll, k: Behavior.Kind)
    requires key in p.active
    ensures UsedUp(p.m, Ouch.ExecuteStep(p, key, now, coin, roll).m, k, if k == Behavior.Execution then 1 else 0)
  {
    hide Behavior.Ask, Ouch.VisitOrder;
    AskUses(p.m, Behavior.Execution, coin, k);
  }

  lemma {:induction false} ExecutesUse(p: Ouch.Phase, order: seq<OuchOrders.Token>, now: int, coin: Coins, roll: Rolls,
                                       k: Behavior.Kind)
    requires forall i :: 0 <= i < |order| ==> order[i] in p.active
    ensures UsedUp(p.m, Ouch.ExecuteAllOf(p, order, now, coin, roll).m, k,
                   if k == Behavior.Execution then |order| else 0)
  {
    hide Ouch.ExecuteStep;
    if order != [] {
      var n := |order| - 1;
      var q := Ouch.ExecuteAllOf(p, order[..n], now, coin, roll);
      ExecutesUse(p, order[..n], now, coin, roll, k);
      ExecuteStepUses(q, order[n], now, coin(n), roll(n), k);
    }
  }

  lemma OuchTickUses(s: Ouch.Session, m: Behavior.Manager, d: Ouch.Draws, k: Behavior.Kind)
    requires IsOrder(d.order, Ouch.BeforeExecution(s, m, d).s.active.Keys)
    ensures UsedUp(m, Ouch.Tick(s, m, d).m, k, OuchQuestions(s, Ouch.DoTick(d)).Get(k))
  {
    hide Ouch.CancelAllOf, Ouch.ModifyAllOf, Ouch.ReplaceAllOf, Ouch.ExecuteAllOf;
    var h := Ouch.Heartbeat(s, d.now);
    var c := Ouch.CancelLogic(h, m, d.cancelCoin);
    var o := Ouch.ModifyLogic(c.s, c.m);
    var b := Ouch.BeforeExecution(s, m, d);
    CancelsUse(Ouch.Start(h, m), h.pendingCancel, d.cancelCoin, k);
    OuchTrace.ModifiesAdd(Ouch.Start(c.s, c.m), c.s.pendingModify);
    OuchTrace.ReplacesAdd(Ouch.Start(o.s, o.m), o.s.pendingReplace, d.junk);
    ExecutesUse(Ouch.Start(b.s, b.m), d.order, d.now, d.executeCoin, d.roll, k);
  }

  lemma OuchStepUses(s: Ouch.Session, m: Behavior.Manager, step: Ouch.Step, k: Behavior.Kind)
    requires Ouch.Legal(s, m, step)
    ensures UsedUp(m, Ouch.Apply(s, m, step).m, k, OuchQuestions(s, step).Get(k))
  {
    hide Ouch.Tick, Behavior.Ask, OuchOrders.ValidEnter, OuchOrders.ValidModify, OuchOrders.ValidReplace,
         OuchOrders.ValidCancel, OuchOrders.AcceptedMessage;
    match step
    case DoTick(d) => OuchTickUses(s, m, d, k);
    case DoLogin(coin) => AskUses(m, Behavior.Login, coin, k);
    case DoEnter(_, _, _, coin) => AskUses(m, Behavior.NewOrder, coin, k);
    case DoModify(_, coin) => AskUses(m, Behavior.ModifyOrder, coin, k);
    case DoReplace(_, coin) => AskUses(m, Behavior.ReplaceOrder, coin, k);
    case DoCancel(_, coin) => AskUses(m, Behavior.CancelOrder, coin, k);
    case _ =>
  }

  // ---------------------------------------------------------------- BOE

  function BoeNaming(keys: set<Boe.Token>, reqs: seq<Boe.Token>): nat {
    if reqs == [] then 0
    else BoeNaming(keys, reqs[..|reqs| - 1]) + if reqs[|reqs| - 1] in keys then 1 else 0
  }

  /** The questions of one BOE step. A cancel is asked about when it arrives only in the odd case of a token whose order
      is inserted by the very test for it. */
  function BoeQuestions(s: Boe.Session, step: Boe.Step): Behavior.Each<nat> {
    var none := Behavior.Same<nat>(0);
    match step
    case DoLogin(_) => none.(login := 1)
    case DoEnter(no, _, _) => if no.token in s.active then none else none.(newOrder := 1)
    case DoModify(mo, _) =>
      if mo.original in s.active || mo.original in s.finished then none.(modifyOrder := 1) else none
    case DoCancel(t, junk, _) =>
      if t !in s.active && t !in s.finished && junk.remaining > 0 then none.(cancelOrder := 1) else none
    case DoTick(d) => none.(cancelOrder := BoeNaming(s.active.Keys, s.pendingCancel), execution := |d.order|)
    case _ => none
  }

  lemma BoeCancelStepUses(p: Boe.Phase, t: Boe.Token, coin: bool, k: Behavior.Kind)
    ensures var r := Boe.CancelStep(p, t, coin);
            && r.active == p.active
            && UsedUp(p.m, r.m, k, if k == Behavior.CancelOrder && t in p.active then 1 else 0)
  {
    hide Behavior.Ask;
    AskUses(p.m, Behavior.CancelOrder, coin, k);
  }

  lemma {:induction false} BoeCancelsUse(p: Boe.Phase, reqs: seq<Boe.Token>, coin: Coins, k: Behavior.Kind)
    ensures var r := Boe.CancelAllOf(p, reqs, coin);
            && r.active == p.active
            && UsedUp(p.m, r.m, k, if k == Behavior.CancelOrder then BoeNaming(p.active.Keys, reqs) else 0)
  {
    hide Boe.CancelStep;
    if reqs != [] {
      var n := |reqs| - 1;
      BoeCancelsUse(p, reqs[..n], coin, k);
      BoeCancelStepUses(Boe.CancelAllOf(p, reqs[..n], coin), reqs[n], coin(n), k);
    }
  }

  lemma BoeExecuteStepUses(p: Boe.Phase, key: Boe.Token, coin: bool, roll: Roll, k: Behavior.Kind)
    requires key in p.active
    ensures UsedUp(p.m, Boe.ExecuteStep(p, key, coin, roll).m, k, if k == Behavior.Execution then 1 else 0)
  {
    hide Behavior.Ask;
    AskUses(p.m, Behavior.Execution, coin, k);
  }

  lemma {:induction false} BoeExecutesUse(p: Boe.Phase, order: seq<Boe.Token>, coin: Coins, roll: Rolls,
                                          k: Behavior.Kind)
    requires forall i :: 0 <= i < |order| ==> order[i] in p.active
    ensures UsedUp(p.m, Boe.ExecuteAllOf(p, order, coin, roll).m, k, if k == Behavior.Execution then |order| else 0)
  {
    hide Boe.ExecuteStep;
    if order != [] {
      var n := |order| - 1;
      BoeExecutesUse(p, order[..n], coin, roll, k);
      BoeExecuteStepUses(Boe.ExecuteAllOf(p, order[..n], coin, roll), order[n], coin(n), roll(n), k);
    }
  }

  lemma BoeTickUses(s: Boe.Session, m: Behavior.Manager, d: Boe.Draws, k: Behavior.Kind)
    requires IsOrder(d.order, Boe.BeforeExecution(s, m, d).s.active.Keys)
    ensures UsedUp(m, Boe.Tick(s, m, d).m, k, BoeQuestions(s, Boe.DoTick(d)).Get(k))
  {
    hide Boe.CancelAllOf, Boe.ModifyAllOf, Boe.ExecuteAllOf;
    var h := Boe.Heartbeat(s, d.now);
    var c := Boe.CancelLogic(h, m, d.cancelCoin);
    var b := Boe.BeforeExecution(s, m, d);
    BoeCancelsUse(Boe.Start(h, m), h.pendingCancel, d.cancelCoin, k);
    BoeTrace.ModifiesTally(Boe.Start(c.s, c.m), c.s.pendingModify, d.junk);
    BoeExecutesUse(Boe.Start(b.s, b.m), d.order, d.executeCoin, d.roll, k);
  }

  lemma BoeStepUses(s: Boe.Session, m: Behavior.Manager, step: Boe.Step, k: Behavior.Kind)
    requires Boe.Legal(s, m, step)
    ensures UsedUp(m, Boe.Apply(s, m, step).m, k, BoeQuestions(s, step).Get(k))
  {
    hide Boe.Tick, Behavior.Ask;
    match step
    case DoTick(d) => BoeTickUses(s, m, d, k);
    case DoLogin(coin) => AskUses(m, Behavior.Login, coin, k);
    case DoEnter(_, _, coin) => AskUses(m, Behavior.NewOrder, coin, k);
    case DoModify(_, coin) => AskUses(m, Behavior.ModifyOrder, coin, k);
    case DoCancel(_, _, coin) => AskUses(m, Behavior.CancelOrder, coin, k);
    case _ =>
  }

  // ---------------------------------------------------------------- runs

  function QuestionsOf(x: Market, step: Step, k: Behavior.Kind): nat {
    if !Legal(x, step) then 0
    else
      match step
      case OnOuch(o) => OuchQuestions(x.ouch, o).Get(k)
      case OnBoe(b) => BoeQuestions(x.boe, b).Get(k)
      case OnManager(_) => 0
  }

  /** The questions of kind `k` that both sessions ask in the run. */
  function Asked(x: Market, steps: seq<Step>, k: Behavior.Kind): nat {
    if steps == [] then 0
    else
      var n := |steps| - 1;
      Asked(x, steps[..n], k) + QuestionsOf(Run(x, steps[..n]), steps[n], k)
  }

  lemma NextUses(x: Market, step: Step, k: Behavior.Kind)
    requires step.OnManager? ==> Behavior.Spares(step.command, k)
    ensures UsedUp(x.m, Next(x, step).m, k, QuestionsOf(x, step, k))
  {
    hide OuchQuestions, BoeQuestions, Ouch.Apply, Ouch.Legal, Boe.Apply, Boe.Legal;
    if Legal(x, step) {
      match step
      case OnOuch(o) => OuchStepUses(x.ouch, x.m, o, k);
      case OnBoe(b) => BoeStepUses(x.boe, x.m, b, k);
      case OnManager(_) =>
    }
  }

  lemma {:induction false} RunUses(x: Market, steps: seq<Step>, k: Behavior.Kind)
    requires Rationing.Untouched(steps, k)
    ensures UsedUp(x.m, Run(x, steps).m, k, Asked(x, steps, k))
  {
    hide Next, QuestionsOf;
    if steps != [] {
      var n := |steps| - 1;
      RunUses(x, steps[..n], k);
      NextUses(Run(x, steps[..n]), steps[n], k);
    }
  }

  /** After `bm set count k n`, until the behaviour of kind k is set again, the counter stands at n less the questions
      asked by both sessions, and not below 0: exactly the first n of them were answered yes, and the next one will be
      if fewer were asked. */
  lemma CountIsUsedUp(x: Market, k: Behavior.Kind, n: nat, steps: seq<Step>, coin: bool)
    requires Rationing.Untouched(steps, k)
    ensures var y := Next(x, OnManager(Behavior.SetCount(k, n)));
            var m := Run(y, steps).m;
            && m.times.Get(k) == Max(0, n - Asked(y, steps, k))
            && (Behavior.Ask(m, k, coin).ok <==> Asked(y, steps, k) < n)
  {
    hide Run, Asked;
    var y := Next(x, OnManager(Behavior.SetCount(k, n)));
    RunUses(y, steps, k);
    assert y.m.mode.Get(k) == Behavior.Counted && y.m.times.Get(k) == n;
  }

  /** A valid order with a new token, sent by a logged-in client, is accepted after the run if and only if fewer than n
      orders were asked about before. */
  lemma NewOrdersAreCounted(x: Market, n: nat, steps: seq<Step>, eo: OuchOrders.EnterOrder, id: uint64, now: int,
                            coin: bool)
    requires Rationing.Untouched(steps, Behavior.NewOrder)
    requires OuchOrders.ValidEnter(eo) && eo.qty <= 999999
    requires var y := Run(Next(x, OnManager(Behavior.SetCount(Behavior.NewOrder, n))), steps).ouch;
             y.loggedIn && eo.token !in y.active && eo.token !in y.finished
    ensures var z := Next(x, OnManager(Behavior.SetCount(Behavior.NewOrder, n)));
            var y := Run(z, steps);
            eo.token in Next(y, OnOuch(Ouch.DoEnter(eo, id, now, coin))).ouch.active <==>
              Asked(z, steps, Behavior.NewOrder) < n
  {
    hide Run, Asked, OuchOrders.ValidEnter, Behavior.Obey, Rationing.Untouched;
    var z := Next(x, OnManager(Behavior.SetCount(Behavior.NewOrder, n)));
    var y := Run(z, steps);
    CountIsUsedUp(x, Behavior.NewOrder, n, steps, coin);
    OuchEffects.EnterOfOrder(y.ouch, y.m, eo, id, now, coin);
  }
}
