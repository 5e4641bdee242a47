/** The side of an order in its life, for any requests at all: a sell order stays a sell order, and every modification
    that does not close it takes it down from SELL_SHORT over SELL_SHORT_EXEMPT to SELL. */
module OuchSides {
  import opened OuchOrders
  import opened Ouch
  import opened Walks
  import opened OuchLedger
  import opened OuchRenaming
  import Behavior

  /** How many modifications of the order under `t` were reported that did not close it. */
  function Alterations(log: Log, t: Token): nat {
    if log == [] then 0
    else
      var e := log[|log| - 1];
      Alterations(log[..|log| - 1], t) + if e.Modified? && e.token == t && e.shares > 0 then 1 else 0
  }

  lemma AlterationsOne(log: Log, e: Event, t: Token)
    ensures Alterations(log + [e], t)
         == Alterations(log, t) + if e.Modified? && e.token == t && e.shares > 0 then 1 else 0
  {
    assert (log + [e])[..|log|] == log;
  }

  /** The order under `k` is still there, on the same side, and no modification was reported. */
  ghost predicate SideKept(p: Phase, r: Phase, k: Token) {
    k in p.active ==>
      k in r.active && r.active[k].side == p.active[k].side && Alterations(r.log, k) == Alterations(p.log, k)
  }

  // ---------------------------------------------------------------- the passes

  lemma CancelStepKeepsSide(p: Phase, co: CancelOrder, coin: bool, k: Token)
    ensures SideKept(p, CancelStep(p, co, coin), k)
  {
    hide Alterations, Behavior.Ask;
    AlterationsOne(p.log, CancelReject(co.token), k);
    if co.token in p.active {
      var o := p.active[co.token];
      var decrement := if co.qty == 0 then o.remaining else o.remaining - co.qty;
      AlterationsOne(p.log, Canceled(co.token, decrement, UserRequested), k);
    }
  }

  lemma {:induction false} CancelsKeepSide(p: Phase, reqs: seq<CancelOrder>, coin: Coins, k: Token)
    ensures SideKept(p, CancelAllOf(p, reqs, coin), k)
  {
    hide CancelStep, Alterations;
    if reqs != [] {
      var n := |reqs| - 1;
      CancelsKeepSide(p, reqs[..n], coin, k);
      CancelStepKeepsSide(CancelAllOf(p, reqs[..n], coin), reqs[n], coin(n), k);
    }
  }

  /** The sell order under `k` went down by the number of its alterations at least. */
  ghost predicate Descended(log0: Log, o0: OuchOrder, log1: Log, k0: Token, o1: OuchOrder) {
    IsSell(o1.side) && Alterations(log1, k0) - Alterations(log0, k0) + Rank(o1.side) <= Rank(o0.side)
  }

  lemma ModifyStepDescends(p: Phase, mo: ModifyOrder, k: Token)
    requires k in p.active && IsSell(p.active[k].side)
    ensures var r := ModifyStep(p, mo); k in r.active && Descended(p.log, p.active[k], r.log, k, r.active[k])
  {
    hide Alterations;
    if mo.token in p.active {
      var o := p.active[mo.token];
      AlterationsOne(p.log, Modified(mo.token, mo.side, if o.executed >= mo.qty then 0 else mo.qty - o.executed), k);
      if mo.token == k && Admissible(o.side, mo.side) {
        AdmissibleDescends(o.side, mo.side);
      }
    }
  }

  lemma {:induction false} ModifiesDescend(p: Phase, reqs: seq<ModifyOrder>, k: Token)
    requires k in p.active && IsSell(p.active[k].side)
    ensures var r := ModifyAllOf(p, reqs); k in r.active && Descended(p.log, p.active[k], r.log, k, r.active[k])
  {
    hide ModifyStep, Alterations, IsSell, Rank;
    if reqs != [] {
      var n := |reqs| - 1;
      ModifiesDescend(p, reqs[..n], k);
      ModifyStepDescends(ModifyAllOf(p, reqs[..n]), reqs[n], k);
    }
  }

  /** No replace of the batch gives its order the token that the followed order has when it is worked off. */
  ghost predicate NotTaken(t: Trail, reqs: seq<ReplaceOrder>) {
    forall i :: 0 <= i < |reqs| ==> reqs[i].token != FollowAll(t, reqs[..i]).key
  }

  /** The followed order is where its trail says, or it awaits erasure. */
  ghost predicate Found(p: Phase, t: Trail) {
    if t.closed then t.key in p.done else t.key in p.active && p.active[t.key] == t.order
  }

  lemma ReplaceStepFollows(p: Phase, t: Trail, ro: ReplaceOrder, junk: OuchOrder)
    requires Found(p, t) && ro.token != t.key
    ensures Found(ReplaceStep(p, ro, junk), Follow(t, ro)) && Follow(t, ro).order.side == t.order.side
  {
    hide ReplacedMessage;
  }

  lemma ReplaceStepAlters(p: Phase, ro: ReplaceOrder, junk: OuchOrder, k: Token)
    ensures Alterations(ReplaceStep(p, ro, junk).log, k) == Alterations(p.log, k)
  {
    hide Alterations;
    var o := Target(p.active, ro.existing, junk);
    AlterationsOne(p.log, Canceled(ro.existing, o.remaining, SystemCancel), k);
    AlterationsOne(p.log, Replaced(ReplacedMessage(ro, Renewed(ro, o))), k);
  }

  /** One order through a batch of replaces, whatever the others do: unknown, colliding or repeated tokens included. */
  lemma {:induction false} ReplacesFollow(p: Phase, t: Trail, reqs: seq<ReplaceOrder>, junk: Junk, k: Token)
    requires Found(p, t) && NotTaken(t, reqs)
    ensures var r := ReplaceAllOf(p, reqs, junk);
            && Found(r, FollowAll(t, reqs)) && FollowAll(t, reqs).order.side == t.order.side
            && Alterations(r.log, k) == Alterations(p.log, k)
  {
    hide ReplaceStep, Follow, Found, Alterations;
    if reqs != [] {
      var n := |reqs| - 1;
      assert forall i :: 0 <= i < n ==> reqs[..n][..i] == reqs[..i];
      ReplacesFollow(p, t, reqs[..n], junk, k);
      ReplaceStepFollows(ReplaceAllOf(p, reqs[..n], junk), FollowAll(t, reqs[..n]), reqs[n], junk(n));
      ReplaceStepAlters(ReplaceAllOf(p, reqs[..n], junk), reqs[n], junk(n), k);
    }
  }

  lemma VisitKeepsSide(o: OuchOrder, now: int, roll: Roll)
    ensures var v := VisitOrder(o, now, roll);
            && v.order.side == o.side
            && (v.Finishes? || v.messages == [] || (|v.messages| == 1 && !v.messages[0].Modified?))
  {
  }

  lemma ExecuteStepKeepsSide(p: Phase, key: Token, now: int, coin: bool, roll: Roll, k: Token, t: Token)
    requires key in p.active
    ensures var r := ExecuteStep(p, key, now, coin, roll);
            && (k in p.active ==> k in r.active && r.active[k].side == p.active[k].side)
            && Alterations(r.log, t) == Alterations(p.log, t)
  {
    hide Alterations, VisitOrder, Behavior.Ask;
    var v := VisitOrder(p.active[key], now, roll);
    VisitKeepsSide(p.active[key], now, roll);
    if !v.Finishes? && v.messages != [] {
      AlterationsOne(p.log, v.messages[0], t);
      assert v.messages == [v.messages[0]];
    } else if !v.Finishes? {
      assert p.log + v.messages == p.log;
    }
  }

  lemma {:induction false} ExecutesKeepSide(p: Phase, order: seq<Token>, now: int, coin: Coins, roll: Rolls, k: Token,
                                            t: Token)
    requires forall i :: 0 <= i < |order| ==> order[i] in p.active
    ensures var r := ExecuteAllOf(p, order, now, coin, roll);
            && (k in p.active ==> k in r.active && r.active[k].side == p.active[k].side)
            && Alterations(r.log, t) == Alterations(p.log, t)
  {
    hide ExecuteStep, Alterations;
    if order != [] {
      var n := |order| - 1;
      var q := ExecuteAllOf(p, order[..n], now, coin, roll);
      ExecutesKeepSide(p, order[..n], now, coin, roll, k, t);
      ExecuteStepKeepsSide(q, order[n], now, coin(n), roll(n), k, t);
    }
  }

  // ---------------------------------------------------------------- steps

  /** Where the order under `k` is after the step: a tick takes it along its replaces. */
  ghost function KeyAfter(s: Session, m: Manager, step: Step, k: Token): Token {
    match step
    case DoTick(d) =>
      var b := AfterModify(s, m, d).s;
      if k in b.active then TrailOf(b.active, b.pendingReplace, k).key else k
    case _ => k
  }

  /** The step leaves the order in the book: it is neither cancelled, closed nor filled up, and no other order is given
      its token. */
  ghost predicate Stays(s: Session, m: Manager, step: Step, k: Token)
    requires Legal(s, m, step)
  {
    && k in s.active
    && (step.DoTick? ==>
          var b := AfterModify(s, m, step.draws).s;
          k in b.active && NotTaken(Begin(k, b.active[k]), b.pendingReplace))
    && KeyAfter(s, m, step, k) in Apply(s, m, step).s.active
  }

  lemma StaysMeans(s: Session, m: Manager, step: Step, k: Token)
    requires Legal(s, m, step) && Stays(s, m, step, k)
    ensures KeyAfter(s, m, step, k) in Apply(s, m, step).s.active
  {
    hide Apply, KeyAfter, Legal, NotTaken, AfterModify;
  }

  lemma BeforeReplacesDescends(s: Session, m: Manager, d: Draws, k: Token)
    requires k in s.active && IsSell(s.active[k].side) && k in AfterModify(s, m, d).s.active
    ensures var b := AfterModify(s, m, d).s; Descended(s.log, s.active[k], b.log, k, b.active[k])
  {
    hide Alterations, CancelAllOf, ModifyAllOf, IsSell, Rank;
    var h := Heartbeat(s, d.now);
    var c := AfterCancel(s, m, d);
    AlterationsOne(s.log, ServerHeartbeat, k);
    CancelsKeepSide(Start(h, m), h.pendingCancel, d.cancelCoin, k);
    ModifiesKeepExecuted(Start(c.s, c.m), c.s.pendingModify, k);
    ModifiesDescend(Start(c.s, c.m), c.s.pendingModify, k);
  }

  lemma TickDescends(s: Session, m: Manager, d: Draws, k: Token)
    requires IsOrder(d.order, BeforeExecution(s, m, d).s.active.Keys)
    requires Stays(s, m, DoTick(d), k) && IsSell(s.active[k].side)
    ensures var s1, k1 := Tick(s, m, d).s, KeyAfter(s, m, DoTick(d), k);
            Descended(s.log, s.active[k], s1.log, k, s1.active[k1])
  {
    hide Alterations, CancelLogic, ModifyLogic, ReplaceAllOf, ExecuteAllOf, FollowAll, IsSell, Rank;
    var b := AfterModify(s, m, d);
    var r := ReplaceLogic(b.s, b.m, d.junk);
    var t := TrailOf(b.s.active, b.s.pendingReplace, k);
    BeforeReplacesDescends(s, m, d, k);
    ReplacesFollow(Start(b.s, b.m), Begin(k, b.s.active[k]), b.s.pendingReplace, d.junk, k);
    ExecutesKeepSide(Start(r.s, r.m), d.order, d.now, d.executeCoin, d.roll, t.key, k);
  }

  /** One step of any kind: the sell order is still a sell order, wherever it is now. */
  lemma StepDescends(s: Session, m: Manager, step: Step, k: Token)
    requires Legal(s, m, step) && Stays(s, m, step, k) && IsSell(s.active[k].side)
    ensures var s1, k1 := Apply(s, m, step).s, KeyAfter(s, m, step, k);
            Descended(s.log, s.active[k], s1.log, k, s1.active[k1])
  {
    hide Alterations, Tick, AfterModify, Behavior.Ask, AcceptedMessage, ValidEnter, IsSell, Rank, IsOrder;
    match step
    case DoTick(d) => TickDescends(s, m, d, k);
    case DoLogin(coin) =>
      AlterationsOne(s.log, LoginRejected(SessionNotAvailable), k);
      AlterationsOne(s.log, LoginRejected(NotAuthorized), k);
      AlterationsOne(s.log, LoginAccepted, k);
    case DoClose => AlterationsOne(s.log, SessionClosed, k);
    case DoEnter(eo, id, now, coin) =>
      AlterationsOne(s.log, Rejected(eo.token, ExceededConfiguredSafety), k);
      AlterationsOne(s.log, Rejected(eo.token, Other), k);
      AlterationsOne(s.log, Accepted(AcceptedMessage(ParseOrder(eo, id, now))), k);
    case _ =>
  }
}
