/** Keys, tokens and times in force of the OUCH books, for any requests at all. */
module OuchKeys {
  import opened Bytes
  import opened OuchOrders
  import opened Ouch
  import opened Walks
  import Behavior

  /** For the times in force with a meaning of their own, the remaining time is the time itself. */
  predicate TermsKept(o: OuchOrder) {
    o.timeInForce in [IOC, MARKET, SYSTEM] ==> o.remainTimeInForce == o.timeInForce
  }

  ghost predicate Keyed(b: Book) {
    forall k :: k in b ==> b[k].token == k
  }

  /** Every entry is stored under its own token, keys awaiting erasure excepted. */
  ghost predicate Proper(b: Book, awaiting: set<Token>) {
    forall k :: k in b && k !in awaiting ==> b[k].token == k && TermsKept(b[k])
  }

  /** No order was ever reported cancelled for being immediate-or-cancel. */
  ghost predicate NeverImmediate(log: Log) {
    forall i :: 0 <= i < |log| && log[i].Canceled? ==> log[i].cancelReason != ImmediateOrCancel
  }

  ghost predicate WellKept(s: Session) {
    Proper(s.active, {}) && Proper(s.finished, {}) && NeverImmediate(s.log)
  }

  ghost predicate PassKept(p: Phase, awaiting: set<Token>) {
    Proper(p.active, awaiting) && Proper(p.finished, {}) && NeverImmediate(p.log)
  }

  lemma CancelStepKeepsKeys(p: Phase, co: CancelOrder, coin: bool)
    requires PassKept(p, {})
    ensures PassKept(CancelStep(p, co, coin), {})
  {
    hide Behavior.Ask;
  }

  lemma {:induction false} CancelKeepsKeys(p: Phase, reqs: seq<CancelOrder>, coin: Coins)
    requires PassKept(p, {})
    ensures PassKept(CancelAllOf(p, reqs, coin), {})
  {
    hide CancelStep;
    if reqs != [] {
      var n := |reqs| - 1;
      CancelKeepsKeys(p, reqs[..n], coin);
      CancelStepKeepsKeys(CancelAllOf(p, reqs[..n], coin), reqs[n], coin(n));
    }
  }

  function ModifiedTokens(reqs: seq<ModifyOrder>): set<Token> {
    set i | 0 <= i < |reqs| :: reqs[i].token
  }

  /** The key a closing modify erases, read from the order, is a key some request named. */
  lemma {:induction false} ModifyKeepsKeys(p: Phase, reqs: seq<ModifyOrder>)
    requires PassKept(p, {})
    ensures PassKept(ModifyAllOf(p, reqs), {})
    ensures ModifyAllOf(p, reqs).done <= p.done + ModifiedTokens(reqs)
  {
    if reqs != [] {
      var n := |reqs| - 1;
      ModifyKeepsKeys(p, reqs[..n]);
      assert ModifiedTokens(reqs) == ModifiedTokens(reqs[..n]) + {reqs[n].token};
    }
  }

  lemma ReplaceStepKeepsKeys(p: Phase, ro: ReplaceOrder, junk: OuchOrder)
    requires PassKept(p, p.done)
    ensures PassKept(ReplaceStep(p, ro, junk), ReplaceStep(p, ro, junk).done)
  {
  }

  /** While replaces are worked off, the keys awaiting erasure are the only ones that may hold another token,
      whatever is requested: unknown tokens, tokens in use, the same token twice. */
  lemma {:induction false} ReplaceKeepsKeys(p: Phase, reqs: seq<ReplaceOrder>, junk: Junk)
    requires PassKept(p, p.done)
    ensures var r := ReplaceAllOf(p, reqs, junk); PassKept(r, r.done)
  {
    if reqs != [] {
      var n := |reqs| - 1;
      ReplaceKeepsKeys(p, reqs[..n], junk);
      ReplaceStepKeepsKeys(ReplaceAllOf(p, reqs[..n], junk), reqs[n], junk(n));
    }
  }

  /** A visit keeps the token; immediate-or-cancel orders are dropped before their own branch is reached. */
  lemma VisitKeepsToken(o: OuchOrder, now: int, roll: Roll)
    requires TermsKept(o)
    ensures var v := VisitOrder(o, now, roll);
            && v.order.token == o.token && TermsKept(v.order)
            && (v.Finishes? || NeverImmediate(v.messages))
  {
  }

  lemma ExecuteStepKeepsKeys(p: Phase, k: Token, now: int, coin: bool, roll: Roll)
    requires k in p.active && PassKept(p, {})
    ensures PassKept(ExecuteStep(p, k, now, coin, roll), {})
  {
    hide Behavior.Ask, VisitOrder, TermsKept;
    VisitKeepsToken(p.active[k], now, roll);
  }

  lemma {:induction false} ExecuteKeepsKeys(p: Phase, order: seq<Token>, now: int, coin: Coins, roll: Rolls)
    requires PassKept(p, {})
    requires forall i :: 0 <= i < |order| ==> order[i] in p.active
    ensures PassKept(ExecuteAllOf(p, order, now, coin, roll), {})
  {
    hide ExecuteStep, PassKept;
    if order != [] {
      var n := |order| - 1;
      var q := ExecuteAllOf(p, order[..n], now, coin, roll);
      ExecuteKeepsKeys(p, order[..n], now, coin, roll);
      ExecuteStepKeepsKeys(q, order[n], now, coin(n), roll(n));
    }
  }

  lemma {:induction false} CancelAllReportsNoImmediate(log: Log, b: Book, order: seq<Token>, now: int)
    requires NeverImmediate(log)
    requires forall i :: 0 <= i < |order| ==> order[i] in b
    ensures NeverImmediate(CancelAllLog(log, b, order, now))
  {
    if order != [] {
      CancelAllReportsNoImmediate(log, b, order[..|order| - 1], now);
    }
  }

  lemma BeforeExecutionKeepsKeys(s: Session, m: Manager, d: Draws)
    requires WellKept(s)
    ensures WellKept(BeforeExecution(s, m, d).s)
  {
    var s0 := Heartbeat(s, d.now);
    CancelKeepsKeys(Start(s0, m), s0.pendingCancel, d.cancelCoin);
    var c := CancelLogic(s0, m, d.cancelCoin);
    ModifyKeepsKeys(Start(c.s, c.m), c.s.pendingModify);
    var o := ModifyLogic(c.s, c.m);
    ReplaceKeepsKeys(Start(o.s, o.m), o.s.pendingReplace, d.junk);
  }

  lemma TickKeepsKeys(s: Session, m: Manager, d: Draws)
    requires WellKept(s)
    requires IsOrder(d.order, BeforeExecution(s, m, d).s.active.Keys)
    ensures WellKept(Tick(s, m, d).s)
  {
    BeforeExecutionKeepsKeys(s, m, d);
    var o := BeforeExecution(s, m, d);
    ExecuteKeepsKeys(Start(o.s, o.m), d.order, d.now, d.executeCoin, d.roll);
  }

  lemma EnterKeepsKeys(s: Session, m: Manager, eo: EnterOrder, id: uint64, now: int, coin: bool)
    requires WellKept(s)
    ensures WellKept(Enter(s, m, eo, id, now, coin).s)
  {
    hide Behavior.Ask, AcceptedMessage, ValidEnter;
    assert TermsKept(ParseOrder(eo, id, now));
  }

  lemma PacketKeepsKeys(s: Session, m: Manager, step: Step)
    requires WellKept(s) && !step.DoTick? && !step.DoCancelAll?
    ensures WellKept(Apply(s, m, step).s)
  {
    hide Behavior.Ask, Enter, Proper, ValidReplace, ValidModify, ValidCancel;
    match step
    case DoEnter(eo, id, now, coin) => EnterKeepsKeys(s, m, eo, id, now, coin);
    case _ =>
  }

  lemma StepKeepsKeys(s: Session, m: Manager, step: Step)
    requires WellKept(s) && Legal(s, m, step)
    ensures WellKept(Apply(s, m, step).s)
  {
    hide Tick;
    match step
    case DoTick(d) => TickKeepsKeys(s, m, d);
    case DoCancelAll(order, now) => CancelAllReportsNoImmediate(s.log, s.active, order, now);
    case _ => PacketKeepsKeys(s, m, step);
  }

  // ---------------------------------------------------------------- time in force

  /** What the time in force of an order in the book means: IOC is over at once, MARKET and SYSTEM never, and T
      seconds are over when T seconds have passed (as long as the 32-bit arithmetic does not wrap). */
  lemma ExpiryMeaning(o: OuchOrder, now: int)
    requires TermsKept(o)
    ensures o.timeInForce == IOC ==> Expired(o, now).yes
    ensures o.timeInForce in [MARKET, SYSTEM] ==> !Expired(o, now).yes
    ensures o.timeInForce !in [IOC, MARKET, SYSTEM] && o.timeInForce < TWO_TO_31 && o.received <= now
            && now - o.received <= TWO_TO_31
            ==> (Expired(o, now).yes <==> now - o.received >= o.timeInForce)
  {
  }

  /** Reported TimeOut means the time is over, even when the arithmetic wraps. */
  lemma TimeOutIsDue(o: OuchOrder, now: int)
    requires TermsKept(o) && o.received <= now
    requires Expired(o, now).yes
    requires 0 < o.timeInForce < TWO_TO_31
    ensures o.timeInForce !in [MARKET, SYSTEM] && now - o.received >= o.timeInForce
  {
  }
}
