/** A token of a finished OUCH order is never accepted again. */
module OuchEntries {
  import opened OuchOrders
  import opened Ouch
  import opened Walks
  import opened OuchTrace
  import Behavior

  /** How often an order with token `t` was accepted. */
  function EntriesOf(log: Log, t: Token): nat {
    if log == [] then 0
    else
      var e := log[|log| - 1];
      EntriesOf(log[..|log| - 1], t) + if e.Accepted? && e.accepted.token == t then 1 else 0
  }

  lemma EntriesOne(log: Log, e: Event, t: Token)
    ensures EntriesOf(log + [e], t) == EntriesOf(log, t) + if e.Accepted? && e.accepted.token == t then 1 else 0
  {
    assert (log + [e])[..|log|] == log;
  }

  lemma {:induction false} NoEntryAdded(l0: Log, l1: Log, cs: set<Class>, t: Token)
    requires Adds(l0, l1, cs) && AnEntry !in cs
    ensures EntriesOf(l1, t) == EntriesOf(l0, t)
    decreases |l1|
  {
    if |l0| < |l1| {
      assert l1[..|l1| - 1][..|l0|] == l0;
      NoEntryAdded(l0, l1[..|l1| - 1], cs, t);
    } else {
      assert l1 == l0;
    }
  }

  lemma {:induction false} CancelsKeepFinished(p: Phase, reqs: seq<CancelOrder>, coin: Coins)
    ensures CancelAllOf(p, reqs, coin).finished == p.finished
  {
    hide Behavior.Ask;
    if reqs != [] {
      CancelsKeepFinished(p, reqs[..|reqs| - 1], coin);
    }
  }

  lemma {:induction false} ModifiesKeepFinished(p: Phase, reqs: seq<ModifyOrder>)
    ensures ModifyAllOf(p, reqs).finished == p.finished
  {
    hide Admissible;
    if reqs != [] {
      ModifiesKeepFinished(p, reqs[..|reqs| - 1]);
    }
  }

  lemma {:induction false} ReplacesKeepFinished(p: Phase, reqs: seq<ReplaceOrder>, junk: Junk)
    ensures ReplaceAllOf(p, reqs, junk).finished == p.finished
  {
    hide ReplacedMessage, Renewed, Closes;
    if reqs != [] {
      ReplacesKeepFinished(p, reqs[..|reqs| - 1], junk);
    }
  }

  lemma {:induction false} ExecutesKeepFinished(p: Phase, order: seq<Token>, now: int, coin: Coins, roll: Rolls,
                                                t: Token)
    requires t in p.finished && forall i :: 0 <= i < |order| ==> order[i] in p.active
    ensures t in ExecuteAllOf(p, order, now, coin, roll).finished
  {
    hide VisitOrder, Behavior.Ask;
    if order != [] {
      ExecutesKeepFinished(p, order[..|order| - 1], now, coin, roll, t);
    }
  }

  lemma TickKeepsFinished(s: Session, m: Manager, d: Draws, t: Token)
    requires t in s.finished && IsOrder(d.order, BeforeExecution(s, m, d).s.active.Keys)
    ensures t in Tick(s, m, d).s.finished
  {
    hide CancelAllOf, ModifyAllOf, ReplaceAllOf, ExecuteAllOf;
    var h := Heartbeat(s, d.now);
    var c := CancelLogic(h, m, d.cancelCoin);
    var o := ModifyLogic(c.s, c.m);
    var b := BeforeExecution(s, m, d);
    CancelsKeepFinished(Start(h, m), h.pendingCancel, d.cancelCoin);
    ModifiesKeepFinished(Start(c.s, c.m), c.s.pendingModify);
    ReplacesKeepFinished(Start(o.s, o.m), o.s.pendingReplace, d.junk);
    ExecutesKeepFinished(Start(b.s, b.m), d.order, d.now, d.executeCoin, d.roll, t);
  }

  lemma StepKeepsFinished(s: Session, m: Manager, step: Step, t: Token)
    requires Legal(s, m, step) && t in s.finished
    ensures var r := Apply(s, m, step).s; t in r.finished && EntriesOf(r.log, t) == EntriesOf(s.log, t)
  {
    hide EntriesOf, Adds, Tick, Behavior.Ask, ValidEnter, IsOrder, PaidFor;
    match step
    case DoTick(d) =>
      TickKeepsFinished(s, m, d, t);
      TickPays(s, m, d);
      NoEntryAdded(s.log, Tick(s, m, d).s.log, {AUserCancel, AFill, Another}, t);
    case DoCancelAll(order, now) =>
      WalkIsInBook(s, order);
      CancelAllAdds(s.log, s.active, order, now);
      NoEntryAdded(s.log, CancelAll(s, order, now).log, {Another}, t);
    case DoEnter(eo, id, now, coin) =>
      EntriesOne(s.log, Rejected(eo.token, ExceededConfiguredSafety), t);
      EntriesOne(s.log, Rejected(eo.token, Other), t);
      EntriesOne(s.log, Accepted(AcceptedMessage(ParseOrder(eo, id, now))), t);
    case DoLogin(coin) =>
      EntriesOne(s.log, LoginRejected(SessionNotAvailable), t);
      EntriesOne(s.log, LoginRejected(NotAuthorized), t);
      EntriesOne(s.log, LoginAccepted, t);
    case DoClose => EntriesOne(s.log, SessionClosed, t);
    case _ => QueuePays(s, m, step);
  }

  lemma WalkIsInBook(s: Session, order: seq<Token>)
    requires IsOrder(order, s.active.Keys)
    ensures forall i :: 0 <= i < |order| ==> order[i] in s.active
  {
  }
}
