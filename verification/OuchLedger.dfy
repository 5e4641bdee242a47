/** What a client can work out from the OUCH messages alone, and that it agrees with the book. */
module OuchLedger {
  import opened Bytes
  import opened OuchOrders
  import opened Ouch
  import opened Walks
  import opened OuchKeys
  import Behavior

  // ---------------------------------------------------------------- the ledger

  /** One line of the client's ledger. `changes` counts the modifications, other than closing ones, that the order
      met since it is a sell order. */
  datatype Row = Row(open: int, filled: int, side: byte, price: int32, timeInForce: uint32, changes: nat)

  type Ledger = map<Token, Row>

  predicate IsSell(side: byte) {
    side == SELL || side == SELL_SHORT || side == SELL_SHORT_EXEMPT
  }

  /** SELL_SHORT above SELL_SHORT_EXEMPT above SELL. */
  function Rank(side: byte): nat {
    if side == SELL_SHORT then 2 else if side == SELL_SHORT_EXEMPT then 1 else 0
  }

  function Absorb(l: Ledger, e: Event): Ledger {
    match e
    case Accepted(a) => l[a.token := Row(a.qty, 0, a.side, a.price, a.timeInForce, 0)]
    case Executed(t, qty, _) =>
      if t in l then l[t := l[t].(open := l[t].open - U32(qty), filled := l[t].filled + U32(qty))] else l
    case Canceled(t, qty, _) => if t in l then l[t := l[t].(open := l[t].open - U32(qty))] else l
    case Modified(t, side, shares) =>
      if t !in l then l
      else
        var changes := l[t].changes + if U32(shares) > 0 && IsSell(l[t].side) then 1 else 0;
        l[t := l[t].(open := U32(shares), side := side, changes := changes)]
    case Replaced(r) =>
      var row := if r.original in l then l[r.original] else Row(0, 0, r.side, r.price, r.timeInForce, 0);
      (l - {r.original})[r.token := row.(open := U32(r.qty), side := r.side, price := r.price,
                                         timeInForce := r.timeInForce)]
    case _ => l
  }

  function Replay(log: Log): Ledger {
    if log == [] then map[] else Absorb(Replay(log[..|log| - 1]), log[|log| - 1])
  }

  lemma ReplayOne(log: Log, e: Event)
    ensures Replay(log + [e]) == Absorb(Replay(log), e)
  {
    hide Absorb;
    assert (log + [e])[..|log|] == log;
  }

  // ---------------------------------------------------------------- the invariants

  /** Order `o` under key `k` is in range, and row and order agree on what was filled and on side, price and time in
      force. */
  ghost predicate Sound(k: Token, o: OuchOrder, l: Ledger) {
    && o.token == k
    && 0 <= o.executed && 0 <= o.remaining && o.executed + o.remaining <= LARGEST_REQUEST
    && o.state == Live
    && k in l
    && l[k].filled == o.executed
    && l[k].side == o.side && l[k].price == o.price && l[k].timeInForce == o.timeInForce
    && (if IsSell(o.side) then l[k].changes + Rank(o.side) <= 2 else l[k].changes == 0)
  }

  ghost predicate SoundAt(b: Book, except: set<Token>, l: Ledger, k: Token) {
    k in b && k !in except ==> Sound(k, b[k], l)
  }

  ghost predicate SoundBook(b: Book, except: set<Token>, l: Ledger) {
    forall k :: SoundAt(b, except, l, k)
  }

  /** The open quantity of an order is its remaining quantity; a row without order has nothing open. */
  ghost predicate AgreesAt(b: Book, except: set<Token>, l: Ledger, k: Token) {
    if k in b && k !in except then k in l && l[k].open == b[k].remaining
    else k in l ==> l[k].open == 0
  }

  ghost predicate Agrees(b: Book, except: set<Token>, l: Ledger) {
    forall k :: AgreesAt(b, except, l, k)
  }

  predicate FinishedOrder(o: OuchOrder) {
    o.remaining == 0 && 0 <= o.executed <= LARGEST_REQUEST && o.state == Dead
  }

  ghost predicate FinishedBook(b: Book) {
    forall k :: k in b ==> FinishedOrder(b[k])
  }

  ghost predicate ValidQueues(s: Session) {
    && (forall i :: 0 <= i < |s.pendingModify| ==> ValidModify(s.pendingModify[i]))
    && (forall i :: 0 <= i < |s.pendingReplace| ==> ValidReplace(s.pendingReplace[i]))
  }

  ghost predicate SoundSession(s: Session) {
    SoundBook(s.active, {}, Replay(s.log)) && FinishedBook(s.finished) && ValidQueues(s)
  }

  ghost predicate Rebuilt(s: Session) {
    Agrees(s.active, {}, Replay(s.log))
  }

  ghost predicate PassSoundAt(p: Phase, k: Token) {
    SoundAt(p.active, p.done, Replay(p.log), k)
  }

  ghost predicate PassAgreesAt(p: Phase, k: Token) {
    AgreesAt(p.active, p.done, Replay(p.log), k)
  }

  // ---------------------------------------------------------------- what a client has to observe

  /** The cancel takes no shares, admitted as it is, from an order that an earlier one of the same pass closed. */
  predicate CancelOrderly(p: Phase, co: CancelOrder, coin: bool) {
    co.token in p.active && co.token in p.done && Behavior.Ask(p.m, Behavior.CancelOrder, coin).ok
    ==> co.qty >= U32(p.active[co.token].remaining)
  }

  ghost predicate CancelsOrderly(p: Phase, reqs: seq<CancelOrder>, coin: Coins) {
    forall i :: 0 <= i < |reqs| ==> CancelOrderly(CancelAllOf(p, reqs[..i], coin), reqs[i], coin(i))
  }

  /** The modify would give shares to an order that an earlier one of the same pass closed. */
  predicate Reopens(p: Phase, mo: ModifyOrder) {
    && mo.token in p.active && mo.token in p.done
    && Admissible(p.active[mo.token].side, mo.side) && p.active[mo.token].executed < mo.qty
  }

  ghost predicate ModifiesOrderly(p: Phase, reqs: seq<ModifyOrder>) {
    forall i :: 0 <= i < |reqs| ==> !Reopens(ModifyAllOf(p, reqs[..i]), reqs[i])
  }

  /** The replace names an order in the book. If it closes it, the pass has not closed it before, with shares left;
      if not, it goes neither to itself nor to a token the pass closed. */
  predicate ReplaceOrderly(p: Phase, ro: ReplaceOrder) {
    && ro.existing in p.active
    && if Closes(ro, p.active[ro.existing]) then ro.existing !in p.done || p.active[ro.existing].remaining == 0
       else ro.token != ro.existing && ro.token !in p.done
  }

  ghost predicate ReplacesOrderly(p: Phase, reqs: seq<ReplaceOrder>, junk: Junk) {
    forall i :: 0 <= i < |reqs| ==> ReplaceOrderly(ReplaceAllOf(p, reqs[..i], junk), reqs[i])
  }

  /** cancel_all would pass over this order without a word. */
  predicate Overlooked(o: OuchOrder, now: int) {
    Expired(o, now).yes && o.remaining > 0
  }

  ghost predicate NoneOverlooked(b: Book, now: int) {
    forall k :: k in b ==> !Overlooked(b[k], now)
  }

  function AfterCancel(s: Session, m: Manager, d: Draws): Outcome {
    CancelLogic(Heartbeat(s, d.now), m, d.cancelCoin)
  }

  function AfterModify(s: Session, m: Manager, d: Draws): Outcome {
    ModifyLogic(AfterCancel(s, m, d).s, AfterCancel(s, m, d).m)
  }

  /** The replaces of the step name live orders. */
  ghost predicate LiveStep(s: Session, m: Manager, step: Step) {
    match step
    case DoTick(d) =>
      var o := AfterModify(s, m, d);
      ReplacesLive(Start(o.s, o.m), o.s.pendingReplace, d.junk)
    case _ => true
  }

  /** The step is one of an orderly client and administrator. */
  ghost predicate OrderlyStep(s: Session, m: Manager, step: Step) {
    match step
    case DoTick(d) =>
      var h := Heartbeat(s, d.now);
      var c := AfterCancel(s, m, d);
      var o := AfterModify(s, m, d);
      && CancelsOrderly(Start(h, m), h.pendingCancel, d.cancelCoin)
      && ModifiesOrderly(Start(c.s, c.m), c.s.pendingModify)
      && ReplacesOrderly(Start(o.s, o.m), o.s.pendingReplace, d.junk)
    case DoCancelAll(_, now) => NoneOverlooked(s.active, now)
    case _ => true
  }

  // ---------------------------------------------------------------- the side of a sell order

  /** A sell order stays a sell order and goes down in rank with every change of its side. */
  lemma AdmissibleDescends(side: byte, newSide: byte)
    requires IsSell(side) && Admissible(side, newSide)
    ensures IsSell(newSide) && Rank(newSide) < Rank(side)
  {
  }

  /** Section 2.4 of OUCH 4.2: between which sides an order may be changed. */
  predicate SpecAllows(side: byte, newSide: byte) {
    || (side == SELL && newSide in [SELL_SHORT, SELL_SHORT_EXEMPT])
    || (side == SELL_SHORT_EXEMPT && newSide in [SELL_SHORT, SELL])
    || (side == SELL_SHORT && newSide in [SELL_SHORT_EXEMPT, SELL])
  }

  /** Falling through the cases keeps exactly the descending half of what the specification allows. */
  lemma FallThroughKeepsDescents(side: byte, newSide: byte)
    requires IsSell(side)
    ensures Admissible(side, newSide) <==> SpecAllows(side, newSide) && Rank(newSide) < Rank(side)
  {
  }

  // ---------------------------------------------------------------- cancels

  /** In the cancel pass even the orders awaiting erasure stay sound. */
  lemma CancelStepAt(p: Phase, co: CancelOrder, coin: bool, k: Token)
    requires SoundAt(p.active, {}, Replay(p.log), k)
    ensures var r := CancelStep(p, co, coin); SoundAt(r.active, {}, Replay(r.log), k) && r.finished == p.finished
    ensures PassAgreesAt(p, k) && CancelOrderly(p, co, coin) ==> PassAgreesAt(CancelStep(p, co, coin), k)
  {
    hide Behavior.Ask, Replay;
    ReplayOne(p.log, CancelReject(co.token));
    if co.token in p.active {
      var remaining := p.active[co.token].remaining;
      ReplayOne(p.log, Canceled(co.token, if co.qty == 0 then remaining else remaining - co.qty, UserRequested));
    }
  }

  lemma {:induction false} CancelsAt(p: Phase, reqs: seq<CancelOrder>, coin: Coins, k: Token)
    requires SoundAt(p.active, {}, Replay(p.log), k)
    ensures var r := CancelAllOf(p, reqs, coin); SoundAt(r.active, {}, Replay(r.log), k) && r.finished == p.finished
    ensures PassAgreesAt(p, k) && CancelsOrderly(p, reqs, coin) ==> PassAgreesAt(CancelAllOf(p, reqs, coin), k)
  {
    hide CancelStep, CancelOrderly, SoundAt, PassAgreesAt, Replay;
    if reqs != [] {
      var n := |reqs| - 1;
      var q := CancelAllOf(p, reqs[..n], coin);
      CancelsAt(p, reqs[..n], coin, k);
      if CancelsOrderly(p, reqs, coin) {
        assert CancelsOrderly(p, reqs[..n], coin) by {
          assert forall i :: 0 <= i < n ==> reqs[..n][..i] == reqs[..i];
        }
      }
      CancelStepAt(q, reqs[n], coin(n), k);
    }
  }

  /** One cancel keeps the ledger right exactly when it is orderly. */
  lemma CancelStepExact(p: Phase, co: CancelOrder, coin: bool)
    requires SoundBook(p.active, {}, Replay(p.log)) && Agrees(p.active, p.done, Replay(p.log))
    ensures var r := CancelStep(p, co, coin);
            Agrees(r.active, r.done, Replay(r.log)) <==> CancelOrderly(p, co, coin)
  {
    hide CancelStep, CancelOrderly, SoundAt, AgreesAt, Replay;
    var r := CancelStep(p, co, coin);
    if CancelOrderly(p, co, coin) {
      forall k ensures AgreesAt(r.active, r.done, Replay(r.log), k) {
        CancelStepAt(p, co, coin, k);
      }
    } else {
      DisorderlyCancel(p, co, coin);
    }
  }

  lemma DisorderlyCancel(p: Phase, co: CancelOrder, coin: bool)
    requires SoundAt(p.active, {}, Replay(p.log), co.token) && PassAgreesAt(p, co.token) && !CancelOrderly(p, co, coin)
    ensures !PassAgreesAt(CancelStep(p, co, coin), co.token)
  {
    hide Behavior.Ask, Replay;
    var remaining := p.active[co.token].remaining;
    ReplayOne(p.log, Canceled(co.token, if co.qty == 0 then remaining else remaining - co.qty, UserRequested));
  }

  // ---------------------------------------------------------------- modifies

  lemma ModifyStepAt(p: Phase, mo: ModifyOrder, k: Token)
    requires ValidModify(mo) && PassSoundAt(p, k)
    requires mo.token in p.active ==> p.active[mo.token].token == mo.token
    ensures PassSoundAt(ModifyStep(p, mo), k) && ModifyStep(p, mo).finished == p.finished
    ensures PassAgreesAt(p, k) && !Reopens(p, mo) ==> PassAgreesAt(ModifyStep(p, mo), k)
  {
    hide Replay;
    if mo.token in p.active && Admissible(p.active[mo.token].side, mo.side) {
      var o := p.active[mo.token];
      if IsSell(o.side) {
        AdmissibleDescends(o.side, mo.side);
      }
      hide Admissible;
      ReplayOne(p.log, Modified(mo.token, mo.side, if o.executed >= mo.qty then 0 else mo.qty - o.executed));
    }
  }

  lemma {:induction false} ModifiesAt(p: Phase, reqs: seq<ModifyOrder>, k: Token)
    requires forall i :: 0 <= i < |reqs| ==> ValidModify(reqs[i])
    requires PassSoundAt(p, k) && Keyed(p.active)
    ensures PassSoundAt(ModifyAllOf(p, reqs), k) && Keyed(ModifyAllOf(p, reqs).active)
    ensures ModifyAllOf(p, reqs).finished == p.finished
    ensures PassAgreesAt(p, k) && ModifiesOrderly(p, reqs) ==> PassAgreesAt(ModifyAllOf(p, reqs), k)
  {
    hide PassSoundAt, PassAgreesAt, Reopens, Admissible;
    if reqs != [] {
      var n := |reqs| - 1;
      var q := ModifyAllOf(p, reqs[..n]);
      ModifiesAt(p, reqs[..n], k);
      if ModifiesOrderly(p, reqs) {
        assert ModifiesOrderly(p, reqs[..n]) by {
          assert forall i :: 0 <= i < n ==> reqs[..n][..i] == reqs[..i];
        }
      }
      ModifyStepAt(q, reqs[n], k);
    }
  }

  /** Modifies change neither who is in the book nor what was executed, for the orders they close too. */
  lemma {:induction false} ModifiesKeepExecuted(p: Phase, reqs: seq<ModifyOrder>, k: Token)
    ensures var r := ModifyAllOf(p, reqs);
            (k in r.active <==> k in p.active) && (k in p.active ==> r.active[k].executed == p.active[k].executed)
  {
    hide Admissible;
    if reqs != [] {
      ModifiesKeepExecuted(p, reqs[..|reqs| - 1], k);
    }
  }

  /** One modify keeps the ledger right exactly when it does not reopen an order. */
  lemma ModifyStepExact(p: Phase, mo: ModifyOrder)
    requires ValidModify(mo) && SoundBook(p.active, p.done, Replay(p.log)) && Agrees(p.active, p.done, Replay(p.log))
    requires mo.token in p.active ==>
               p.active[mo.token].token == mo.token && 0 <= p.active[mo.token].executed && mo.token in Replay(p.log)
    ensures var r := ModifyStep(p, mo); Agrees(r.active, r.done, Replay(r.log)) <==> !Reopens(p, mo)
  {
    hide ModifyStep, SoundAt, AgreesAt, Replay, Admissible;
    var r := ModifyStep(p, mo);
    if !Reopens(p, mo) {
      forall k ensures AgreesAt(r.active, r.done, Replay(r.log), k) {
        ModifyStepAt(p, mo, k);
      }
    } else {
      ReopenedModify(p, mo);
    }
  }

  lemma ReopenedModify(p: Phase, mo: ModifyOrder)
    requires ValidModify(mo) && Reopens(p, mo) && 0 <= p.active[mo.token].executed && mo.token in Replay(p.log)
    ensures !PassAgreesAt(ModifyStep(p, mo), mo.token)
  {
    hide Replay, Admissible;
    ReplayOne(p.log, Modified(mo.token, mo.side, mo.qty - p.active[mo.token].executed));
  }

  // ---------------------------------------------------------------- replaces

  /** In the replace pass even the orders awaiting erasure stay sound: a later replace may carry one on. */
  lemma ReplaceStepAt(p: Phase, ro: ReplaceOrder, junk: OuchOrder, k: Token)
    requires ValidReplace(ro) && ro.existing in p.active
    requires SoundAt(p.active, {}, Replay(p.log), k) && SoundAt(p.active, {}, Replay(p.log), ro.existing)
    ensures var r := ReplaceStep(p, ro, junk);
            SoundAt(r.active, {}, Replay(r.log), k) && r.finished == p.finished
    ensures PassAgreesAt(p, k) && PassAgreesAt(p, ro.existing) && ReplaceOrderly(p, ro)
            ==> PassAgreesAt(ReplaceStep(p, ro, junk), k)
  {
    hide Replay;
    var o := p.active[ro.existing];
    if Closes(ro, o) {
      ReplayOne(p.log, Canceled(ro.existing, o.remaining, SystemCancel));
    } else {
      ReplayOne(p.log, Replaced(ReplacedMessage(ro, Renewed(ro, o))));
    }
  }

  lemma ReplaceStepSound(p: Phase, ro: ReplaceOrder, junk: OuchOrder)
    requires ValidReplace(ro) && ro.existing in p.active
    requires SoundBook(p.active, {}, Replay(p.log))
    ensures var r := ReplaceStep(p, ro, junk); SoundBook(r.active, {}, Replay(r.log)) && r.finished == p.finished
    ensures Agrees(p.active, p.done, Replay(p.log)) && ReplaceOrderly(p, ro)
            ==> var r := ReplaceStep(p, ro, junk); Agrees(r.active, r.done, Replay(r.log))
  {
    hide SoundAt, AgreesAt, ReplaceStep, Replay, ReplaceOrderly;
    var r := ReplaceStep(p, ro, junk);
    ReplaceStepAt(p, ro, junk, ro.existing);
    forall k
      ensures SoundAt(r.active, {}, Replay(r.log), k)
    {
      ReplaceStepAt(p, ro, junk, k);
    }
    if Agrees(p.active, p.done, Replay(p.log)) && ReplaceOrderly(p, ro) {
      forall k
        ensures AgreesAt(r.active, r.done, Replay(r.log), k)
      {
        ReplaceStepAt(p, ro, junk, k);
      }
    }
  }

  /** One replace of a live order keeps the ledger right exactly when it is orderly. A replacement of an order by its
      own token is not: the order is erased while the message says that it lives. */
  lemma ReplaceStepExact(p: Phase, ro: ReplaceOrder, junk: OuchOrder)
    requires ValidReplace(ro) && ro.existing in p.active
    requires SoundBook(p.active, {}, Replay(p.log)) && Agrees(p.active, p.done, Replay(p.log))
    ensures var r := ReplaceStep(p, ro, junk);
            Agrees(r.active, r.done, Replay(r.log)) <==> ReplaceOrderly(p, ro)
  {
    hide ReplaceStep, ReplaceOrderly, SoundAt, AgreesAt, Replay;
    if ReplaceOrderly(p, ro) {
      ReplaceStepSound(p, ro, junk);
    } else {
      DisorderlyReplace(p, ro, junk);
    }
  }

  lemma DisorderlyReplace(p: Phase, ro: ReplaceOrder, junk: OuchOrder)
    requires ValidReplace(ro) && ro.existing in p.active && SoundAt(p.active, {}, Replay(p.log), ro.existing)
    requires PassAgreesAt(p, ro.existing) && !ReplaceOrderly(p, ro)
    ensures var r := ReplaceStep(p, ro, junk); !PassAgreesAt(r, ro.existing) || !PassAgreesAt(r, ro.token)
  {
    hide Replay;
    var o := p.active[ro.existing];
    if Closes(ro, o) {
      ReplayOne(p.log, Canceled(ro.existing, o.remaining, SystemCancel));
    } else {
      ReplayOne(p.log, Replaced(ReplacedMessage(ro, Renewed(ro, o))));
    }
  }

  lemma {:induction false} ReplacesSound(p: Phase, reqs: seq<ReplaceOrder>, junk: Junk)
    requires forall i :: 0 <= i < |reqs| ==> ValidReplace(reqs[i])
    requires SoundBook(p.active, {}, Replay(p.log)) && ReplacesLive(p, reqs, junk)
    ensures var r := ReplaceAllOf(p, reqs, junk); SoundBook(r.active, {}, Replay(r.log)) && r.finished == p.finished
    ensures Agrees(p.active, p.done, Replay(p.log)) && ReplacesOrderly(p, reqs, junk)
            ==> var r := ReplaceAllOf(p, reqs, junk); Agrees(r.active, r.done, Replay(r.log))
  {
    hide SoundBook, Agrees, Replay, ReplaceStep, ReplaceOrderly, ValidReplace;
    if reqs != [] {
      var n := |reqs| - 1;
      var q := ReplaceAllOf(p, reqs[..n], junk);
      assert forall i :: 0 <= i < n ==> reqs[..n][..i] == reqs[..i];
      ReplacesSound(p, reqs[..n], junk);
      ReplaceStepSound(q, reqs[n], junk(n));
    }
  }

  // ---------------------------------------------------------------- executions

  /** What a visit does to a sound order, in quantities and in messages. */
  lemma VisitSound(k: Token, o: OuchOrder, l: Ledger, now: int, roll: Roll)
    requires Sound(k, o, l)
    ensures match VisitOrder(o, now, roll)
            case Keeps(o1, msgs) =>
              && o1.(remaining := o.remaining, executed := o.executed, remainTimeInForce := o.remainTimeInForce) == o
              && o1.executed + o1.remaining == o.executed + o.remaining
              && o.executed <= o1.executed <= o.executed + o.remaining
              && msgs == if o1.executed == o.executed then [] else [Executed(k, o1.executed - o.executed, o.price)]
            case Finishes(o1) => FinishedOrder(o1)  && o.remaining == 0
            case Drops(o1, msgs) =>
              msgs == [Canceled(k, o.remaining, TimeOut)]
              || msgs == if o.remaining == 0 then [] else [Canceled(k, o.remaining, ImmediateOrCancel)]
  {
  }

  lemma VisitFinishes(o: OuchOrder, now: int, roll: Roll)
    ensures var v := VisitOrder(o, now, roll); v.Finishes? ==> v.order.executed == o.executed
  {
  }

  lemma ExecuteStepCloses(p: Phase, key: Token, now: int, coin: bool, roll: Roll)
    requires key in p.active
    ensures ExecuteStep(p, key, now, coin, roll).done <= p.done + {key}
  {
    hide Behavior.Ask, VisitOrder;
  }

  lemma ExecuteStepAt(p: Phase, key: Token, now: int, coin: bool, roll: Roll, k: Token)
    requires key in p.active && key !in p.done && PassSoundAt(p, k) && PassSoundAt(p, key)
    ensures PassSoundAt(ExecuteStep(p, key, now, coin, roll), k)
    ensures FinishedBook(p.finished) ==> FinishedBook(ExecuteStep(p, key, now, coin, roll).finished)
    ensures PassAgreesAt(p, k) && PassAgreesAt(p, key) ==> PassAgreesAt(ExecuteStep(p, key, now, coin, roll), k)
  {
    hide Behavior.Ask, VisitOrder, Replay, FinishedOrder;
    var o := p.active[key];
    var l := Replay(p.log);
    VisitSound(key, o, l, now, roll);
    var v := VisitOrder(o, now, roll);
    if !v.Finishes? && v.messages != [] {
      ReplayOne(p.log, v.messages[0]);
      assert p.log + v.messages == p.log + [v.messages[0]];
    } else if !v.Finishes? {
      assert p.log + v.messages == p.log;
    }
  }

  lemma ExecuteStepSound(p: Phase, key: Token, now: int, coin: bool, roll: Roll)
    requires key in p.active && key !in p.done
    requires SoundBook(p.active, p.done, Replay(p.log)) && FinishedBook(p.finished)
    ensures var r := ExecuteStep(p, key, now, coin, roll);
            && SoundBook(r.active, r.done, Replay(r.log)) && FinishedBook(r.finished)
            && (Agrees(p.active, p.done, Replay(p.log)) ==> Agrees(r.active, r.done, Replay(r.log)))
            && r.done <= p.done + {key}
  {
    hide SoundAt, AgreesAt, FinishedBook, Replay, ExecuteStep;
    var r := ExecuteStep(p, key, now, coin, roll);
    ExecuteStepCloses(p, key, now, coin, roll);
    ExecuteStepAt(p, key, now, coin, roll, key);
    forall k
      ensures SoundAt(r.active, r.done, Replay(r.log), k)
    {
      ExecuteStepAt(p, key, now, coin, roll, k);
    }
    if Agrees(p.active, p.done, Replay(p.log)) {
      forall k
        ensures AgreesAt(r.active, r.done, Replay(r.log), k)
      {
        ExecuteStepAt(p, key, now, coin, roll, k);
      }
    }
  }

  lemma {:induction false} ExecutesSound(p: Phase, order: seq<Token>, now: int, coin: Coins, roll: Rolls)
    requires forall i :: 0 <= i < |order| ==> order[i] in p.active
    requires Distinct(order) && forall i :: 0 <= i < |order| ==> order[i] !in p.done
    requires SoundBook(p.active, p.done, Replay(p.log)) && FinishedBook(p.finished)
    ensures var r := ExecuteAllOf(p, order, now, coin, roll);
            && SoundBook(r.active, r.done, Replay(r.log)) && FinishedBook(r.finished)
            && (Agrees(p.active, p.done, Replay(p.log)) ==> Agrees(r.active, r.done, Replay(r.log)))
            && r.done <= p.done + Elements(order)
  {
    hide SoundBook, Agrees, FinishedBook, Replay, ExecuteStep;
    if order != [] {
      var n := |order| - 1;
      ExecutesSound(p, order[..n], now, coin, roll);
      assert order[n] !in Elements(order[..n]);
      ExecuteStepSound(ExecuteAllOf(p, order[..n], now, coin, roll), order[n], now, coin(n), roll(n));
      assert Elements(order) == Elements(order[..n]) + {order[n]};
    }
  }

  // ---------------------------------------------------------------- passes and steps

  lemma ErasingDone(b: Book, done: set<Token>, l: Ledger)
    ensures SoundBook(b, done, l) ==> SoundBook(b - done, {}, l)
    ensures Agrees(b, done, l) ==> Agrees(b - done, {}, l)
  {
    hide Sound;
    if SoundBook(b, done, l) {
      forall k ensures SoundAt(b - done, {}, l, k) {
        assert SoundAt(b, done, l, k);
      }
    }
    if Agrees(b, done, l) {
      forall k ensures AgreesAt(b - done, {}, l, k) {
        assert AgreesAt(b, done, l, k);
      }
    }
  }

  lemma ExemptingDone(b: Book, done: set<Token>, l: Ledger)
    requires SoundBook(b, {}, l)
    ensures SoundBook(b, done, l) && Keyed(b)
  {
    forall k ensures SoundAt(b, done, l, k) && (k in b ==> b[k].token == k) {
      assert SoundAt(b, {}, l, k);
    }
  }

  lemma CancelLogicSound(s: Session, m: Manager, coin: Coins)
    requires SoundSession(s)
    ensures SoundSession(CancelLogic(s, m, coin).s)
    ensures Rebuilt(s) && CancelsOrderly(Start(s, m), s.pendingCancel, coin) ==> Rebuilt(CancelLogic(s, m, coin).s)
  {
    hide SoundAt, AgreesAt, Replay;
    var p := Start(s, m);
    var r := CancelAllOf(p, s.pendingCancel, coin);
    CancelsAt(p, s.pendingCancel, coin, Token([]));
    forall k ensures SoundAt(r.active, {}, Replay(r.log), k) {
      CancelsAt(p, s.pendingCancel, coin, k);
    }
    if Rebuilt(s) && CancelsOrderly(p, s.pendingCancel, coin) {
      forall k ensures AgreesAt(r.active, r.done, Replay(r.log), k) {
        CancelsAt(p, s.pendingCancel, coin, k);
      }
    }
    ExemptingDone(r.active, r.done, Replay(r.log));
    ErasingDone(r.active, r.done, Replay(r.log));
  }

  lemma ModifyLogicSound(s: Session, m: Manager)
    requires SoundSession(s)
    ensures SoundSession(ModifyLogic(s, m).s)
    ensures Rebuilt(s) && ModifiesOrderly(Start(s, m), s.pendingModify) ==> Rebuilt(ModifyLogic(s, m).s)
  {
    hide SoundAt, AgreesAt, Replay;
    var p := Start(s, m);
    var r := ModifyAllOf(p, s.pendingModify);
    ExemptingDone(p.active, {}, Replay(p.log));
    ModifiesAt(p, s.pendingModify, Token([]));
    forall k ensures SoundAt(r.active, r.done, Replay(r.log), k) {
      ModifiesAt(p, s.pendingModify, k);
    }
    if Rebuilt(s) && ModifiesOrderly(p, s.pendingModify) {
      forall k ensures AgreesAt(r.active, r.done, Replay(r.log), k) {
        ModifiesAt(p, s.pendingModify, k);
      }
    }
    ErasingDone(r.active, r.done, Replay(r.log));
  }

  lemma ReplaceLogicSound(s: Session, m: Manager, junk: Junk)
    requires SoundSession(s) && ReplacesLive(Start(s, m), s.pendingReplace, junk)
    ensures SoundSession(ReplaceLogic(s, m, junk).s)
    ensures Rebuilt(s) && ReplacesOrderly(Start(s, m), s.pendingReplace, junk) ==> Rebuilt(ReplaceLogic(s, m, junk).s)
  {
    hide SoundBook, Agrees, Replay;
    var p := Start(s, m);
    var r := ReplaceAllOf(p, s.pendingReplace, junk);
    ReplacesSound(p, s.pendingReplace, junk);
    ExemptingDone(r.active, r.done, Replay(r.log));
    ErasingDone(r.active, r.done, Replay(r.log));
  }

  lemma ExecutionLogicSound(s: Session, m: Manager, order: seq<Token>, now: int, coin: Coins, roll: Rolls)
    requires SoundSession(s) && IsOrder(order, s.active.Keys)
    ensures SoundSession(ExecutionLogic(s, m, order, now, coin, roll).s)
    ensures Rebuilt(s) ==> Rebuilt(ExecutionLogic(s, m, order, now, coin, roll).s)
  {
    hide SoundBook, Agrees, Replay, FinishedBook;
    var p := Start(s, m);
    var r := ExecuteAllOf(p, order, now, coin, roll);
    ExecutesSound(p, order, now, coin, roll);
    ErasingDone(r.active, r.done, Replay(r.log));
  }

  lemma HeartbeatSound(s: Session, now: int)
    requires SoundSession(s)
    ensures SoundSession(Heartbeat(s, now))
    ensures Rebuilt(s) ==> Rebuilt(Heartbeat(s, now))
  {
    hide SoundBook, Agrees, Replay, FinishedBook;
    ReplayOne(s.log, ServerHeartbeat);
  }

  lemma BeforeExecutionSound(s: Session, m: Manager, d: Draws)
    requires SoundSession(s) && LiveStep(s, m, DoTick(d))
    ensures SoundSession(BeforeExecution(s, m, d).s)
    ensures Rebuilt(s) && OrderlyStep(s, m, DoTick(d)) ==> Rebuilt(BeforeExecution(s, m, d).s)
  {
    hide SoundSession, Rebuilt, CancelsOrderly, ModifiesOrderly, ReplacesOrderly, ReplacesLive, CancelLogic,
         ModifyLogic, ReplaceLogic, Heartbeat;
    var h := Heartbeat(s, d.now);
    var c := AfterCancel(s, m, d);
    var o := AfterModify(s, m, d);
    HeartbeatSound(s, d.now);
    CancelLogicSound(h, m, d.cancelCoin);
    ModifyLogicSound(c.s, c.m);
    ReplaceLogicSound(o.s, o.m, d.junk);
  }

  lemma TickSound(s: Session, m: Manager, d: Draws)
    requires SoundSession(s) && IsOrder(d.order, BeforeExecution(s, m, d).s.active.Keys)
    requires LiveStep(s, m, DoTick(d))
    ensures SoundSession(Tick(s, m, d).s)
    ensures Rebuilt(s) && OrderlyStep(s, m, DoTick(d)) ==> Rebuilt(Tick(s, m, d).s)
  {
    hide SoundSession, Rebuilt, LiveStep, OrderlyStep, BeforeExecution, ExecutionLogic, IsOrder;
    var b := BeforeExecution(s, m, d);
    BeforeExecutionSound(s, m, d);
    ExecutionLogicSound(b.s, b.m, d.order, d.now, d.executeCoin, d.roll);
  }

  lemma OrderlyIsLive(s: Session, m: Manager, step: Step)
    requires OrderlyStep(s, m, step)
    ensures LiveStep(s, m, step)
  {
  }

  lemma EnterSound(s: Session, m: Manager, eo: EnterOrder, id: uint64, now: int, coin: bool)
    requires SoundSession(s)
    ensures SoundSession(Enter(s, m, eo, id, now, coin).s)
    ensures Rebuilt(s) ==> Rebuilt(Enter(s, m, eo, id, now, coin).s)
  {
    hide Replay, Behavior.Ask, FinishedBook;
    var r := Enter(s, m, eo, id, now, coin).s;
    ReplayOne(s.log, Rejected(eo.token, ExceededConfiguredSafety));
    ReplayOne(s.log, Rejected(eo.token, Other));
    ReplayOne(s.log, Accepted(AcceptedMessage(ParseOrder(eo, id, now))));
    forall k ensures SoundAt(r.active, {}, Replay(r.log), k) {
      assert SoundAt(s.active, {}, Replay(s.log), k);
    }
    if Rebuilt(s) {
      forall k ensures AgreesAt(r.active, {}, Replay(r.log), k) {
        assert AgreesAt(s.active, {}, Replay(s.log), k);
      }
    }
  }

  lemma LoginSound(s: Session, m: Manager, coin: bool)
    requires SoundSession(s)
    ensures SoundSession(HandleLogin(s, m, coin).s) && SoundSession(Close(s))
    ensures Rebuilt(s) ==> Rebuilt(HandleLogin(s, m, coin).s) && Rebuilt(Close(s))
  {
    hide SoundBook, Agrees, Replay, FinishedBook, Behavior.Ask;
    ReplayOne(s.log, LoginRejected(SessionNotAvailable));
    ReplayOne(s.log, LoginRejected(NotAuthorized));
    ReplayOne(s.log, LoginAccepted);
    ReplayOne(s.log, SessionClosed);
  }

  // ---------------------------------------------------------------- cancel_all

  /** The row of `k` after cancel_all: what was reported is no longer open. */
  lemma {:induction false} CancelAllRow(log: Log, b: Book, order: seq<Token>, now: int, k: Token)
    requires Keyed(b) && Distinct(order)
    requires forall i :: 0 <= i < |order| ==> order[i] in b
    requires k in order ==> Sound(k, b[k], Replay(log))
    ensures var l0, l := Replay(log), Replay(CancelAllLog(log, b, order, now));
            && (k in l <==> k in l0)
            && (k in l ==> l[k].open == l0[k].open
                           - if k in order && b[k].remaining > 0 && !Overlooked(b[k], now) then b[k].remaining else 0)
  {
    hide Replay, Expired;
    if order != [] {
      var n := |order| - 1;
      var o := b[order[n]];
      var before := CancelAllLog(log, b, order[..n], now);
      assert k in order <==> k in order[..n] || k == order[n];
      CancelAllRow(log, b, order[..n], now, k);
      ReplayOne(before, Canceled(order[n], o.remaining, SystemCancel));
      ExpiredKeepsOrder(o, now);
    }
  }

  lemma ExpiredKeepsOrder(o: OuchOrder, now: int)
    ensures Expired(o, now).order.(remainTimeInForce := o.remainTimeInForce) == o
  {
  }

  lemma CancelAllSound(s: Session, order: seq<Token>, now: int)
    requires SoundSession(s) && IsOrder(order, s.active.Keys)
    ensures SoundSession(CancelAll(s, order, now))
  {
    var r := CancelAll(s, order, now);
    assert forall k :: SoundAt(r.active, {}, Replay(r.log), k);
  }

  /** After cancel_all the client's ledger is right exactly when no order with shares left had expired: such an
      order, an immediate-or-cancel one for example, disappears from the book without a message. */
  lemma CancelAllExact(s: Session, order: seq<Token>, now: int)
    requires SoundSession(s) && Rebuilt(s) && IsOrder(order, s.active.Keys)
    ensures Rebuilt(CancelAll(s, order, now)) <==> NoneOverlooked(s.active, now)
  {
    hide Replay, Expired, FinishedBook;
    var r := CancelAll(s, order, now);
    ExemptingDone(s.active, {}, Replay(s.log));
    forall k
      ensures AgreesAt(r.active, {}, Replay(r.log), k) <==> !(k in s.active && Overlooked(s.active[k], now))
    {
      assert SoundAt(s.active, {}, Replay(s.log), k) && AgreesAt(s.active, {}, Replay(s.log), k);
      CancelAllRow(s.log, s.active, order, now, k);
    }
    if Rebuilt(r) {
      forall k | k in s.active ensures !Overlooked(s.active[k], now) {
        assert AgreesAt(r.active, {}, Replay(r.log), k);
      }
    }
  }

  // ---------------------------------------------------------------- one step of any kind

  /** Whatever the client does, as long as its replaces name live orders, every order stays in range, alive and in
      agreement with the ledger about what was filled; with an orderly client the ledger is the book. */
  lemma StepSound(s: Session, m: Manager, step: Step)
    requires SoundSession(s) && Legal(s, m, step) && LiveStep(s, m, step)
    ensures SoundSession(Apply(s, m, step).s)
    ensures Rebuilt(s) && OrderlyStep(s, m, step) ==> Rebuilt(Apply(s, m, step).s)
  {
    hide SoundBook, Agrees, Replay, FinishedBook, Behavior.Ask, Tick, CancelAll, Enter, HandleLogin, Close;
    match step
    case DoLogin(coin) => LoginSound(s, m, coin);
    case DoClose => LoginSound(s, m, true);
    case DoEnter(eo, id, now, coin) => EnterSound(s, m, eo, id, now, coin);
    case DoTick(d) => TickSound(s, m, d);
    case DoCancelAll(order, now) =>
      CancelAllSound(s, order, now);
      if Rebuilt(s) {
        CancelAllExact(s, order, now);
      }
    case _ =>
  }
}
