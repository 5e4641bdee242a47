/** The minimum quantity of an order over whole runs, for any requests at all: no fill of it exceeds its minimum. */
module OuchMinimum {
  import opened Bytes
  import opened OuchOrders
  import opened Ouch
  import opened Walks
  import opened OuchKeys
  import opened OuchExecution
  import Behavior

  type Minimums = map<Token, uint32>

  /** What the messages say about the minimum quantity of each token: Accepted and Replaced carry it. */
  function MinimumsOf(log: Log): Minimums {
    if log == [] then map[]
    else
      var before := MinimumsOf(log[..|log| - 1]);
      match log[|log| - 1]
      case Accepted(a) => before[a.token := a.minQty]
      case Replaced(r) => before[r.token := r.minQty]
      case _ => before
  }

  /** The fill respects the minimum quantity the client knows by then. */
  predicate Allowed(before: Minimums, e: Event) {
    e.Executed? ==> e.token in before && (before[e.token] == 0 || e.qty <= before[e.token])
  }

  ghost predicate AllAllowed(log: Log) {
    forall i :: 0 <= i < |log| ==> Allowed(MinimumsOf(log[..i]), log[i])
  }

  lemma OneMoreMessage(log: Log, e: Event)
    requires AllAllowed(log) && Allowed(MinimumsOf(log), e)
    ensures AllAllowed(log + [e])
    ensures MinimumsOf(log + [e]) == match e
                                     case Accepted(a) => MinimumsOf(log)[a.token := a.minQty]
                                     case Replaced(r) => MinimumsOf(log)[r.token := r.minQty]
                                     case _ => MinimumsOf(log)
  {
    hide Allowed;
    var l1 := log + [e];
    assert l1[..|log|] == log;
    forall i | 0 <= i < |l1| ensures Allowed(MinimumsOf(l1[..i]), l1[i]) {
      if i < |log| {
        assert l1[..i] == log[..i];
      }
    }
  }

  /** The order under `k` has its own token and the minimum quantity the client knows. */
  ghost predicate KnownAt(b: Book, awaiting: set<Token>, mins: Minimums, k: Token) {
    k in b && k !in awaiting ==> b[k].token == k && k in mins && mins[k] == b[k].minQty
  }

  ghost predicate Kept(b: Book, awaiting: set<Token>, log: Log) {
    AllAllowed(log) && forall k :: KnownAt(b, awaiting, MinimumsOf(log), k)
  }

  // ---------------------------------------------------------------- the passes

  /** One message that is neither of the two kinds, nor a fill. */
  lemma OtherMessage(b: Book, awaiting: set<Token>, log: Log, e: Event)
    requires Kept(b, awaiting, log) && !e.Accepted? && !e.Replaced? && !e.Executed?
    ensures Kept(b, awaiting, log + [e]) && MinimumsOf(log + [e]) == MinimumsOf(log)
  {
    hide AllAllowed, MinimumsOf, KnownAt;
    OneMoreMessage(log, e);
  }

  lemma CancelStepKeeps(p: Phase, co: CancelOrder, coin: bool)
    requires Kept(p.active, {}, p.log)
    ensures var r := CancelStep(p, co, coin); Kept(r.active, {}, r.log)
  {
    hide AllAllowed, MinimumsOf, Behavior.Ask;
    OtherMessage(p.active, {}, p.log, CancelReject(co.token));
    if co.token in p.active {
      var o := p.active[co.token];
      assert KnownAt(p.active, {}, MinimumsOf(p.log), co.token);
      OtherMessage(p.active, {}, p.log,
                   Canceled(co.token, if co.qty == 0 then o.remaining else o.remaining - co.qty, UserRequested));
    }
    var r := CancelStep(p, co, coin);
    forall k ensures KnownAt(r.active, {}, MinimumsOf(r.log), k) {
      assert KnownAt(p.active, {}, MinimumsOf(p.log), k);
    }
  }

  lemma {:induction false} CancelsKeep(p: Phase, reqs: seq<CancelOrder>, coin: Coins)
    requires Kept(p.active, {}, p.log)
    ensures var r := CancelAllOf(p, reqs, coin); Kept(r.active, {}, r.log)
  {
    hide Kept, CancelStep;
    if reqs != [] {
      var n := |reqs| - 1;
      CancelsKeep(p, reqs[..n], coin);
      CancelStepKeeps(CancelAllOf(p, reqs[..n], coin), reqs[n], coin(n));
    }
  }

  lemma ModifyStepKeeps(p: Phase, mo: ModifyOrder)
    requires Kept(p.active, {}, p.log)
    ensures var r := ModifyStep(p, mo); Kept(r.active, {}, r.log)
  {
    hide AllAllowed, MinimumsOf, Admissible;
    if mo.token in p.active {
      var o := p.active[mo.token];
      assert KnownAt(p.active, {}, MinimumsOf(p.log), mo.token);
      OtherMessage(p.active, {}, p.log,
                   Modified(mo.token, mo.side, if o.executed >= mo.qty then 0 else mo.qty - o.executed));
    }
    var r := ModifyStep(p, mo);
    forall k ensures KnownAt(r.active, {}, MinimumsOf(r.log), k) {
      assert KnownAt(p.active, {}, MinimumsOf(p.log), k);
    }
  }

  lemma {:induction false} ModifiesKeep(p: Phase, reqs: seq<ModifyOrder>)
    requires Kept(p.active, {}, p.log)
    ensures var r := ModifyAllOf(p, reqs); Kept(r.active, {}, r.log)
  {
    hide Kept, ModifyStep;
    if reqs != [] {
      var n := |reqs| - 1;
      ModifiesKeep(p, reqs[..n]);
      ModifyStepKeeps(ModifyAllOf(p, reqs[..n]), reqs[n]);
    }
  }

  /** An order that `operator[]` inserts either awaits erasure, or its Replaced message tells its minimum quantity. */
  lemma ReplaceStepKeeps(p: Phase, ro: ReplaceOrder, junk: OuchOrder)
    requires Kept(p.active, p.done, p.log)
    ensures var r := ReplaceStep(p, ro, junk); Kept(r.active, r.done, r.log)
  {
    hide AllAllowed, MinimumsOf;
    var o := Target(p.active, ro.existing, junk);
    OtherMessage(p.active, p.done, p.log, Canceled(ro.existing, o.remaining, SystemCancel));
    OneMoreMessage(p.log, Replaced(ReplacedMessage(ro, Renewed(ro, o))));
    var r := ReplaceStep(p, ro, junk);
    forall k ensures KnownAt(r.active, r.done, MinimumsOf(r.log), k) {
      assert KnownAt(p.active, p.done, MinimumsOf(p.log), k);
    }
  }

  lemma {:induction false} ReplacesKeep(p: Phase, reqs: seq<ReplaceOrder>, junk: Junk)
    requires Kept(p.active, p.done, p.log)
    ensures var r := ReplaceAllOf(p, reqs, junk); Kept(r.active, r.done, r.log)
  {
    hide Kept, ReplaceStep;
    if reqs != [] {
      var n := |reqs| - 1;
      ReplacesKeep(p, reqs[..n], junk);
      ReplaceStepKeeps(ReplaceAllOf(p, reqs[..n], junk), reqs[n], junk(n));
    }
  }

  lemma VisitRespectsMinimum(o: OuchOrder, now: int, roll: Roll)
    ensures var v := VisitOrder(o, now, roll);
            && v.order.token == o.token && v.order.minQty == o.minQty
            && (v.Finishes? || v.messages == []
                || (|v.messages| == 1 && !v.messages[0].Accepted? && !v.messages[0].Replaced?
                    && (v.messages[0].Executed? ==>
                          v.messages[0].token == o.token && (o.minQty == 0 || v.messages[0].qty <= o.minQty))))
  {
  }

  lemma ExecuteStepKeeps(p: Phase, k: Token, now: int, coin: bool, roll: Roll)
    requires k in p.active && Kept(p.active, {}, p.log)
    ensures var r := ExecuteStep(p, k, now, coin, roll); Kept(r.active, {}, r.log)
  {
    hide AllAllowed, MinimumsOf, Behavior.Ask, VisitOrder;
    var v := VisitOrder(p.active[k], now, roll);
    VisitRespectsMinimum(p.active[k], now, roll);
    assert KnownAt(p.active, {}, MinimumsOf(p.log), k);
    if !v.Finishes? && v.messages != [] {
      OneMoreMessage(p.log, v.messages[0]);
      assert v.messages == [v.messages[0]];
    } else if !v.Finishes? {
      assert p.log + v.messages == p.log;
    }
    var r := ExecuteStep(p, k, now, coin, roll);
    forall j ensures KnownAt(r.active, {}, MinimumsOf(r.log), j) {
      assert KnownAt(p.active, {}, MinimumsOf(p.log), j);
    }
  }

  lemma {:induction false} ExecutesKeep(p: Phase, order: seq<Token>, now: int, coin: Coins, roll: Rolls)
    requires Kept(p.active, {}, p.log) && forall i :: 0 <= i < |order| ==> order[i] in p.active
    ensures var r := ExecuteAllOf(p, order, now, coin, roll); Kept(r.active, {}, r.log)
  {
    hide Kept, ExecuteStep;
    if order != [] {
      var n := |order| - 1;
      ExecutesKeep(p, order[..n], now, coin, roll);
      ExecuteStepKeeps(ExecuteAllOf(p, order[..n], now, coin, roll), order[n], now, coin(n), roll(n));
    }
  }

  lemma {:induction false} CancelAllKeeps(log: Log, b: Book, order: seq<Token>, now: int)
    requires AllAllowed(log) && forall i :: 0 <= i < |order| ==> order[i] in b
    ensures AllAllowed(CancelAllLog(log, b, order, now))
  {
    hide AllAllowed, MinimumsOf, Expired;
    if order != [] {
      var n := |order| - 1;
      var before := CancelAllLog(log, b, order[..n], now);
      CancelAllKeeps(log, b, order[..n], now);
      var o := StillActive(b[order[n]], now).order;
      OneMoreMessage(before, Canceled(o.token, o.remaining, SystemCancel));
    }
  }

  // ---------------------------------------------------------------- steps

  lemma ErasingKeeps(b: Book, awaiting: set<Token>, log: Log)
    requires Kept(b, awaiting, log)
    ensures Kept(b - awaiting, {}, log) && Kept(b, awaiting, log)
  {
    hide AllAllowed, MinimumsOf;
    forall k ensures KnownAt(b - awaiting, {}, MinimumsOf(log), k) {
      assert KnownAt(b, awaiting, MinimumsOf(log), k);
    }
  }

  lemma MarkingKeeps(b: Book, awaiting: set<Token>, log: Log)
    requires Kept(b, {}, log)
    ensures Kept(b, awaiting, log) && Kept(b - awaiting, {}, log)
  {
    hide AllAllowed, MinimumsOf;
    forall k ensures KnownAt(b, awaiting, MinimumsOf(log), k) && KnownAt(b - awaiting, {}, MinimumsOf(log), k) {
      assert KnownAt(b, {}, MinimumsOf(log), k);
    }
  }

  lemma TickKeeps(s: Session, m: Manager, d: Draws)
    requires Kept(s.active, {}, s.log) && IsOrder(d.order, BeforeExecution(s, m, d).s.active.Keys)
    ensures var r := Tick(s, m, d).s; Kept(r.active, {}, r.log)
  {
    hide Kept, CancelAllOf, ModifyAllOf, ReplaceAllOf, ExecuteAllOf;
    var h := Heartbeat(s, d.now);
    OtherMessage(s.active, {}, s.log, ServerHeartbeat);
    var pc := CancelAllOf(Start(h, m), h.pendingCancel, d.cancelCoin);
    CancelsKeep(Start(h, m), h.pendingCancel, d.cancelCoin);
    MarkingKeeps(pc.active, pc.done, pc.log);
    var c := CancelLogic(h, m, d.cancelCoin);
    var pm := ModifyAllOf(Start(c.s, c.m), c.s.pendingModify);
    ModifiesKeep(Start(c.s, c.m), c.s.pendingModify);
    MarkingKeeps(pm.active, pm.done, pm.log);
    var o := ModifyLogic(c.s, c.m);
    var pr := ReplaceAllOf(Start(o.s, o.m), o.s.pendingReplace, d.junk);
    ReplacesKeep(Start(o.s, o.m), o.s.pendingReplace, d.junk);
    ErasingKeeps(pr.active, pr.done, pr.log);
    var b := ReplaceLogic(o.s, o.m, d.junk);
    var pe := ExecuteAllOf(Start(b.s, b.m), d.order, d.now, d.executeCoin, d.roll);
    ExecutesKeep(Start(b.s, b.m), d.order, d.now, d.executeCoin, d.roll);
    MarkingKeeps(pe.active, pe.done, pe.log);
  }

  lemma EnterKeeps(s: Session, m: Manager, eo: EnterOrder, id: uint64, now: int, coin: bool)
    requires Kept(s.active, {}, s.log)
    ensures var r := Enter(s, m, eo, id, now, coin).s; Kept(r.active, {}, r.log)
  {
    hide AllAllowed, MinimumsOf, ValidEnter, Behavior.Ask;
    OtherMessage(s.active, {}, s.log, Rejected(eo.token, ExceededConfiguredSafety));
    OtherMessage(s.active, {}, s.log, Rejected(eo.token, Other));
    OneMoreMessage(s.log, Accepted(AcceptedMessage(ParseOrder(eo, id, now))));
    var r := Enter(s, m, eo, id, now, coin).s;
    forall k ensures KnownAt(r.active, {}, MinimumsOf(r.log), k) {
      assert KnownAt(s.active, {}, MinimumsOf(s.log), k);
    }
  }

  lemma StepKeeps(s: Session, m: Manager, step: Step)
    requires Kept(s.active, {}, s.log) && Legal(s, m, step)
    ensures var r := Apply(s, m, step).s; Kept(r.active, {}, r.log)
  {
    hide AllAllowed, MinimumsOf, Tick, Enter, Behavior.Ask, ValidModify, ValidReplace, ValidCancel;
    match step
    case DoTick(d) => TickKeeps(s, m, d);
    case DoEnter(eo, id, now, coin) => EnterKeeps(s, m, eo, id, now, coin);
    case DoLogin(coin) =>
      OtherMessage(s.active, {}, s.log, LoginRejected(SessionNotAvailable));
      OtherMessage(s.active, {}, s.log, LoginRejected(NotAuthorized));
      OtherMessage(s.active, {}, s.log, LoginAccepted);
    case DoClose => OtherMessage(s.active, {}, s.log, SessionClosed);
    case DoCancelAll(order, now) => CancelAllKeeps(s.log, s.active, order, now);
    case _ =>
  }
}
