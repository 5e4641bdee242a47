/** The int64 quantities that OUCH messages are made from fit the uint32 they are sent as. */
module OuchNarrowing {
  import opened Bytes
  import opened OuchOrders
  import opened Ouch
  import opened Walks
  import opened OuchLedger
  import Behavior

  /** The quantity a message is made from. */
  function QuantityOf(e: Event): int {
    match e
    case Accepted(a) => a.qty
    case Canceled(_, decrement, _) => decrement
    case Modified(_, _, shares) => shares
    case Executed(_, qty, _) => qty
    case Replaced(r) => r.qty
    case _ => 0
  }

  predicate Fits(e: Event) {
    0 <= QuantityOf(e) <= LARGEST_REQUEST
  }

  ghost predicate AllFit(log: Log) {
    forall i :: 0 <= i < |log| ==> Fits(log[i])
  }

  lemma FittingIsKept(e: Event)
    requires Fits(e)
    ensures U32(QuantityOf(e)) == QuantityOf(e)
  {
  }

  /** cancel_logic narrows before it subtracts; what it sends is the narrowed difference all the same. */
  lemma DecrementIsNarrowed(remaining: int, qty: uint32)
    requires qty < U32(remaining)
    ensures U32(remaining) - qty == U32(remaining - qty)
  {
  }

  // ---------------------------------------------------------------- the passes

  /** The order under `k`, if there is one, has quantities in range. */
  ghost predicate InRange(b: Book, k: Token) {
    k in b ==> 0 <= b[k].executed && 0 <= b[k].remaining && b[k].executed + b[k].remaining <= LARGEST_REQUEST
  }

  lemma SoundIsInRange(b: Book, except: set<Token>, l: Ledger, k: Token)
    requires SoundAt(b, except, l, k) && k !in except
    ensures InRange(b, k)
  {
  }

  lemma CancelStepFits(p: Phase, co: CancelOrder, coin: bool)
    requires AllFit(p.log) && InRange(p.active, co.token)
    ensures AllFit(CancelStep(p, co, coin).log)
  {
    hide Behavior.Ask;
  }

  lemma {:induction false} CancelsFit(p: Phase, reqs: seq<CancelOrder>, coin: Coins)
    requires SoundBook(p.active, {}, Replay(p.log)) && AllFit(p.log)
    ensures AllFit(CancelAllOf(p, reqs, coin).log)
  {
    hide Replay, CancelStep, AllFit, SoundAt, InRange, PassAgreesAt;
    if reqs != [] {
      var n := |reqs| - 1;
      var q := CancelAllOf(p, reqs[..n], coin);
      CancelsFit(p, reqs[..n], coin);
      CancelsAt(p, reqs[..n], coin, reqs[n].token);
      SoundIsInRange(q.active, {}, Replay(q.log), reqs[n].token);
      CancelStepFits(q, reqs[n], coin(n));
    }
  }

  lemma ModifyStepFits(p: Phase, mo: ModifyOrder)
    requires AllFit(p.log) && ValidModify(mo) && (mo.token in p.active ==> 0 <= p.active[mo.token].executed)
    ensures AllFit(ModifyStep(p, mo).log)
  {
    hide Admissible;
  }

  lemma {:induction false} ModifiesFit(p: Phase, reqs: seq<ModifyOrder>)
    requires forall i :: 0 <= i < |reqs| ==> ValidModify(reqs[i])
    requires AllFit(p.log) && forall k :: InRange(p.active, k)
    ensures AllFit(ModifyAllOf(p, reqs).log)
  {
    hide ModifyStep, AllFit;
    if reqs != [] {
      var n := |reqs| - 1;
      ModifiesFit(p, reqs[..n]);
      ModifiesKeepExecuted(p, reqs[..n], reqs[n].token);
      assert InRange(p.active, reqs[n].token);
      ModifyStepFits(ModifyAllOf(p, reqs[..n]), reqs[n]);
    }
  }

  lemma ReplaceStepFits(p: Phase, ro: ReplaceOrder, junk: OuchOrder)
    requires AllFit(p.log) && ro.existing in p.active && InRange(p.active, ro.existing)
    ensures AllFit(ReplaceStep(p, ro, junk).log)
  {
  }

  lemma {:induction false} ReplacesFit(p: Phase, reqs: seq<ReplaceOrder>, junk: Junk)
    requires forall i :: 0 <= i < |reqs| ==> ValidReplace(reqs[i])
    requires SoundBook(p.active, {}, Replay(p.log)) && ReplacesLive(p, reqs, junk) && AllFit(p.log)
    ensures AllFit(ReplaceAllOf(p, reqs, junk).log)
  {
    hide Replay, ReplaceStep, AllFit, SoundAt, ValidReplace, InRange;
    if reqs != [] {
      var n := |reqs| - 1;
      var q := ReplaceAllOf(p, reqs[..n], junk);
      assert forall i :: 0 <= i < n ==> reqs[..n][..i] == reqs[..i];
      ReplacesFit(p, reqs[..n], junk);
      ReplacesSound(p, reqs[..n], junk);
      SoundIsInRange(q.active, {}, Replay(q.log), reqs[n].existing);
      ReplaceStepFits(q, reqs[n], junk(n));
    }
  }

  lemma ExecuteStepFits(p: Phase, k: Token, now: int, coin: bool, roll: Roll)
    requires AllFit(p.log) && k in p.active && InRange(p.active, k)
    ensures AllFit(ExecuteStep(p, k, now, coin, roll).log)
  {
    hide Behavior.Ask, VisitOrder;
    VisitFits(p.active[k], now, roll);
  }

  lemma VisitFits(o: OuchOrder, now: int, roll: Roll)
    requires 0 <= o.executed && 0 <= o.remaining && o.executed + o.remaining <= LARGEST_REQUEST
    ensures var v := VisitOrder(o, now, roll); v.Finishes? || AllFit(v.messages)
  {
  }

  lemma {:induction false} ExecutesFit(p: Phase, order: seq<Token>, now: int, coin: Coins, roll: Rolls)
    requires forall i :: 0 <= i < |order| ==> order[i] in p.active
    requires Distinct(order) && forall i :: 0 <= i < |order| ==> order[i] !in p.done
    requires SoundBook(p.active, p.done, Replay(p.log)) && FinishedBook(p.finished) && AllFit(p.log)
    ensures AllFit(ExecuteAllOf(p, order, now, coin, roll).log)
  {
    hide Replay, ExecuteStep, AllFit, SoundAt, FinishedBook, InRange;
    if order != [] {
      var n := |order| - 1;
      var q := ExecuteAllOf(p, order[..n], now, coin, roll);
      ExecutesFit(p, order[..n], now, coin, roll);
      ExecutesSound(p, order[..n], now, coin, roll);
      assert order[n] !in Elements(order[..n]);
      SoundIsInRange(q.active, q.done, Replay(q.log), order[n]);
      ExecuteStepFits(q, order[n], now, coin(n), roll(n));
    }
  }

  lemma {:induction false} CancelAllFits(log: Log, b: Book, order: seq<Token>, now: int)
    requires forall i :: 0 <= i < |order| ==> order[i] in b
    requires AllFit(log) && forall k :: InRange(b, k)
    ensures AllFit(CancelAllLog(log, b, order, now))
  {
    if order != [] {
      var n := |order| - 1;
      CancelAllFits(log, b, order[..n], now);
      assert InRange(b, order[n]);
    }
  }

  // ---------------------------------------------------------------- steps

  lemma SoundBookInRange(b: Book, l: Ledger)
    requires SoundBook(b, {}, l)
    ensures forall k :: InRange(b, k)
  {
    forall k ensures InRange(b, k) {
      assert SoundAt(b, {}, l, k);
    }
  }

  lemma TickFits(s: Session, m: Manager, d: Draws)
    requires SoundSession(s) && AllFit(s.log) && IsOrder(d.order, BeforeExecution(s, m, d).s.active.Keys)
    requires LiveStep(s, m, DoTick(d))
    ensures AllFit(Tick(s, m, d).s.log)
  {
    hide SoundBook, Replay, CancelAllOf, ModifyAllOf, ReplaceAllOf, ExecuteAllOf, ReplacesLive, FinishedBook, InRange,
         IsOrder, Rebuilt, CancelsOrderly, ModifiesOrderly, ReplacesOrderly, ValidModify, ValidReplace;
    var h := Heartbeat(s, d.now);
    var c := AfterCancel(s, m, d);
    var o := AfterModify(s, m, d);
    var r := ReplaceLogic(o.s, o.m, d.junk);
    HeartbeatSound(s, d.now);
    CancelLogicSound(h, m, d.cancelCoin);
    ModifyLogicSound(c.s, c.m);
    ReplaceLogicSound(o.s, o.m, d.junk);
    CancelsFit(Start(h, m), h.pendingCancel, d.cancelCoin);
    SoundBookInRange(c.s.active, Replay(c.s.log));
    ModifiesFit(Start(c.s, c.m), c.s.pendingModify);
    ReplacesFit(Start(o.s, o.m), o.s.pendingReplace, d.junk);
    StartsApart(r.s, r.m, d.order);
    ExecutesFit(Start(r.s, r.m), d.order, d.now, d.executeCoin, d.roll);
  }

  lemma StartsApart(s: Session, m: Manager, order: seq<Token>)
    requires IsOrder(order, s.active.Keys)
    ensures Distinct(order) && forall i :: 0 <= i < |order| ==> order[i] !in Start(s, m).done && order[i] in s.active
  {
  }

  /** One step of any kind adds only messages whose quantities fit. */
  lemma StepFits(s: Session, m: Manager, step: Step)
    requires SoundSession(s) && AllFit(s.log) && Legal(s, m, step) && LiveStep(s, m, step)
    ensures AllFit(Apply(s, m, step).s.log)
  {
    hide SoundBook, Replay, FinishedBook, Behavior.Ask, Tick, ReplacesLive, IsOrder, InRange;
    match step
    case DoTick(d) => TickFits(s, m, d);
    case DoCancelAll(order, now) =>
      SoundBookInRange(s.active, Replay(s.log));
      StartsApart(s, m, order);
      CancelAllFits(s.log, s.active, order, now);
    case _ =>
  }
}
