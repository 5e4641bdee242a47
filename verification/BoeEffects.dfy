/** What each BOE operation does to an order and what it sends, in plain terms. */
module BoeEffects {
  import opened Bytes
  import opened Boe
  import opened Walks
  import opened BoeTrace
  import Behavior

  // ---------------------------------------------------------------- cancels

  /** The manager after it was asked about those cancels that name an order of the book. */
  function ManagerAt(keys: set<Token>, m: Manager, reqs: seq<Token>, coin: Coins): Manager {
    if reqs == [] then m
    else
      var n := |reqs| - 1;
      var before := ManagerAt(keys, m, reqs[..n], coin);
      if reqs[n] in keys then Behavior.Ask(before, Behavior.CancelOrder, coin(n)).m else before
  }

  predicate Admitted(keys: set<Token>, m: Manager, reqs: seq<Token>, coin: Coins, i: nat)
    requires i < |reqs|
  {
    reqs[i] in keys && Behavior.Ask(ManagerAt(keys, m, reqs[..i], coin), Behavior.CancelOrder, coin(i)).ok
  }

  predicate Cancelled(keys: set<Token>, m: Manager, reqs: seq<Token>, coin: Coins, k: Token) {
    exists i :: 0 <= i < |reqs| && reqs[i] == k && Admitted(keys, m, reqs, coin, i)
  }

  /** What the pass sends: one message a request. */
  function Reports(keys: set<Token>, m: Manager, reqs: seq<Token>, coin: Coins): Log {
    if reqs == [] then []
    else
      var n := |reqs| - 1;
      var t := reqs[n];
      Reports(keys, m, reqs[..n], coin)
      + [if t !in keys then CancelRejected(t, TooLateToCancel)
         else if Admitted(keys, m, reqs, coin, n) then OrderCanceled(t) else CancelRejected(t, Unforeseen)]
  }

  lemma CancelledOneMore(keys: set<Token>, m: Manager, reqs: seq<Token>, coin: Coins, k: Token)
    requires reqs != []
    ensures var n := |reqs| - 1;
            Cancelled(keys, m, reqs, coin, k) <==>
              Cancelled(keys, m, reqs[..n], coin, k) || (reqs[n] == k && Admitted(keys, m, reqs, coin, n))
  {
    hide ManagerAt, Behavior.Ask;
    var n := |reqs| - 1;
    forall i | 0 <= i < n
      ensures Admitted(keys, m, reqs[..n], coin, i) <==> Admitted(keys, m, reqs, coin, i)
    {
      assert reqs[..n][..i] == reqs[..i];
    }
    if Cancelled(keys, m, reqs[..n], coin, k) {
      var i :| 0 <= i < n && reqs[..n][i] == k && Admitted(keys, m, reqs[..n], coin, i);
      assert reqs[i] == k && Admitted(keys, m, reqs, coin, i);
    }
    if i :| 0 <= i < n && reqs[i] == k && Admitted(keys, m, reqs, coin, i) {
      assert reqs[..n][i] == k && Admitted(keys, m, reqs[..n], coin, i);
    }
  }

  lemma NothingCancelled(keys: set<Token>, m: Manager, coin: Coins, k: Token)
    ensures !Cancelled(keys, m, [], coin, k)
  {
  }

  lemma {:induction false} CancelsExactly(p: Phase, reqs: seq<Token>, coin: Coins, k: Token)
    ensures var r, keys := CancelAllOf(p, reqs, coin), p.active.Keys;
            && r.active == p.active && r.finished == p.finished && r.m == ManagerAt(keys, p.m, reqs, coin)
            && r.log == p.log + Reports(keys, p.m, reqs, coin)
            && (k in r.done <==> k in p.done || Cancelled(keys, p.m, reqs, coin, k))
  {
    hide Behavior.Ask, Cancelled;
    if reqs == [] {
      NothingCancelled(p.active.Keys, p.m, coin, k);
    } else {
      CancelsExactly(p, reqs[..|reqs| - 1], coin, k);
      CancelledOneMore(p.active.Keys, p.m, reqs, coin, k);
    }
  }

  /** The cancel pass: exactly the orders with an admitted cancel leave the book, the others stay as they are, and the
      pass reports each request. */
  lemma CancelledOrdersLeave(s: Session, m: Manager, coin: Coins, k: Token)
    ensures var r, keys, q := CancelLogic(s, m, coin).s, s.active.Keys, s.pendingCancel;
            && (k in r.active <==> k in s.active && !Cancelled(keys, m, q, coin, k))
            && (k in r.active ==> r.active[k] == s.active[k])
            && r.finished == s.finished && r.pendingCancel == []
            && r.log == s.log + Reports(keys, m, q, coin)
  {
    hide CancelAllOf, Cancelled, Reports;
    CancelsExactly(Start(s, m), s.pendingCancel, coin, k);
  }

  /** An OrderCanceled of the pass names an order that leaves, and every order that leaves is named. */
  lemma {:induction false} ReportsNameCancelled(keys: set<Token>, m: Manager, reqs: seq<Token>, coin: Coins, k: Token)
    ensures OrderCanceled(k) in Reports(keys, m, reqs, coin) <==> Cancelled(keys, m, reqs, coin, k)
  {
    hide Cancelled, ManagerAt, Behavior.Ask;
    if reqs == [] {
      NothingCancelled(keys, m, coin, k);
    } else {
      ReportsNameCancelled(keys, m, reqs[..|reqs| - 1], coin, k);
      CancelledOneMore(keys, m, reqs, coin, k);
    }
  }

  // ---------------------------------------------------------------- modifies

  /** A modify of an order in the book by another token: the order moves, keeps its identity and what it executed, and
      gets the rest from the request. */
  lemma ModifyOfOrder(p: Phase, mo: ModifyOrder, junk: BoeOrder)
    requires mo.original in p.active && mo.token != mo.original
    ensures var o, r := p.active[mo.original], ModifyStep(p, mo, junk);
            var left := if mo.qty <= o.executed then 0 else mo.qty - o.executed;
            && mo.original !in r.active && mo.token in r.active
            && r.active[mo.token] == o.(token := mo.token, side := mo.side, price := mo.price, firm := StrNCpy(mo.firm),
                                        remaining := left)
            && (forall k :: k != mo.token && k != mo.original ==>
                  (k in p.active <==> k in r.active) && (k in p.active ==> r.active[k] == p.active[k]))
            && r.log == p.log + [OrderModified(mo.token, o.orderId, mo.price, U32(left + o.executed), U32(left))]
            && r.finished == p.finished && r.seqNum == p.seqNum && r.m == p.m
  {
    hide U32, StrNCpy;
  }

  /** A modify of an order by its own token loses the order: another one, inserted by the lookup, is in its place and is
      reported. */
  lemma ModifyByOwnToken(p: Phase, mo: ModifyOrder, junk: BoeOrder)
    requires mo.original in p.active && mo.token == mo.original
    ensures var r := ModifyStep(p, mo, junk);
            && r.active == p.active[mo.token := junk]
            && r.log == p.log + [OrderModified(junk.token, junk.orderId, junk.price,
                                               U32(junk.remaining + junk.executed), U32(junk.remaining))]
  {
    hide U32, Amended;
  }

  /** A modify of a token that is not active does nothing. */
  lemma ModifyOfNoOrder(p: Phase, mo: ModifyOrder, junk: BoeOrder)
    requires mo.original !in p.active
    ensures ModifyStep(p, mo, junk) == p
  {
  }

  // ---------------------------------------------------------------- executions

  /** A visit: without admission nothing happens; an order with nothing left, or with more than a million, is finished;
      any other is filled, by the one-shot quantity if there is one and by `roll` hundred shares if not, but by no more
      than it has. A spent one-shot quantity is no fill. */
  lemma VisitOfOrder(p: Phase, k: Token, coin: bool, roll: Roll)
    requires k in p.active
    ensures var a, o, r := Behavior.Ask(p.m, Behavior.Execution, coin), p.active[k], ExecuteStep(p, k, coin, roll);
            var offered := if a.m.exeQty == -1 then roll * 100 else a.m.exeQty;
            var qty := if offered < o.remaining then offered else o.remaining;
            if !a.ok then r == p.(m := a.m)
            else if o.remaining <= 0 || 1000000 < o.remaining then
              && r.active == p.active && r.finished == p.finished[k := o] && r.done == p.done + {k} && r.log == p.log
              && r.m == a.m && r.seqNum == p.seqNum
            else
              && r.done == p.done && r.finished == p.finished
              && r.m == a.m.(exeQty := if a.m.exeQty == -1 then -1 else 0)
              && (a.m.exeQty == 0 ==> r.active == p.active && r.log == p.log && r.seqNum == p.seqNum)
              && (a.m.exeQty == -1 || a.m.exeQty > 0 ==>
                    && r.active == p.active[k := o.(remaining := o.remaining - qty, executed := o.executed + qty)]
                    && r.seqNum == U32(p.seqNum + 1)
                    && r.log == p.log + [OrderExecution(U32(p.seqNum + 1), o.token, qty, o.price, o.remaining - qty)])
  {
    hide Behavior.Ask, U32;
    var a, o := Behavior.Ask(p.m, Behavior.Execution, coin), p.active[k];
    if a.ok && 0 < o.remaining <= 1000000 && (a.m.exeQty == -1 || a.m.exeQty > 0) {
      var qty := Min(if a.m.exeQty == -1 then roll * 100 else a.m.exeQty, o.remaining);
      SmallStays(qty);
      SmallStays(o.remaining - qty);
    }
  }

  lemma {:induction false} OthersNotVisited(p: Phase, order: seq<Token>, coin: Coins, roll: Rolls, k: Token)
    requires forall i :: 0 <= i < |order| ==> order[i] in p.active
    requires k in p.active && k !in order
    ensures var r := ExecuteAllOf(p, order, coin, roll); r.active[k] == p.active[k] && (k in r.done <==> k in p.done)
  {
    hide Behavior.Ask, U32;
    if order != [] {
      OthersNotVisited(p, order[..|order| - 1], coin, roll, k);
    }
  }

  lemma PrefixesDistinct(order: seq<Token>, i: nat)
    requires Distinct(order) && i < |order|
    ensures order[i] !in order[..i] && Distinct(order[..|order| - 1])
    ensures i < |order| - 1 ==> order[i] != order[|order| - 1]
  {
  }

  /** Each order of the pass is as its own visit left it; the visit met it as the pass found it. */
  lemma {:induction false} EachVisitedOnce(p: Phase, order: seq<Token>, coin: Coins, roll: Rolls, i: nat)
    requires Distinct(order) && i < |order| && forall j :: 0 <= j < |order| ==> order[j] in p.active
    ensures var q := ExecuteAllOf(p, order[..i], coin, roll);
            var v, r := ExecuteStep(q, order[i], coin(i), roll(i)), ExecuteAllOf(p, order, coin, roll);
            && q.active[order[i]] == p.active[order[i]]
            && r.active[order[i]] == v.active[order[i]] && (order[i] in r.done <==> order[i] in v.done)
  {
    hide ExecuteStep, Distinct;
    var n := |order| - 1;
    PrefixesDistinct(order, i);
    OthersNotVisited(p, order[..i], coin, roll, order[i]);
    if i < n {
      assert order[..n][..i] == order[..i];
      EachVisitedOnce(p, order[..n], coin, roll, i);
      StepLeavesOthers(ExecuteAllOf(p, order[..n], coin, roll), order[n], coin(n), roll(n), order[i]);
    }
  }

  lemma StepLeavesOthers(p: Phase, key: Token, coin: bool, roll: Roll, k: Token)
    requires key in p.active && k in p.active && k != key
    ensures var r := ExecuteStep(p, key, coin, roll); r.active[k] == p.active[k] && (k in r.done <==> k in p.done)
  {
    hide Behavior.Ask, U32;
  }

  // ---------------------------------------------------------------- the one-shot quantity

  /** As `bm execute` leaves the manager: every order is let through, and the quantity is waiting. */
  predicate Loaded(m: Manager, n: int) {
    n > 0 && m.mode.execution == Behavior.Default && m.exeQty == n
  }

  predicate Spent(m: Manager) {
    m.mode.execution == Behavior.Default && m.exeQty == 0
  }

  /** `h` is the first order of the walk that can be filled. */
  predicate FirstToFill(b: Book, order: seq<Token>, h: nat)
    requires forall i :: 0 <= i < |order| ==> order[i] in b
  {
    && h < |order| && 0 < b[order[h]].remaining <= 1000000
    && forall i :: 0 <= i < h ==> !(0 < b[order[i]].remaining <= 1000000)
  }

  lemma LoadedVisit(p: Phase, k: Token, coin: bool, roll: Roll, n: int)
    requires Loaded(p.m, n) && k in p.active
    ensures var o, r := p.active[k], ExecuteStep(p, k, coin, roll);
            var qty := if n < o.remaining then n else o.remaining;
            if 0 < o.remaining <= 1000000 then
              && r.active == p.active[k := o.(remaining := o.remaining - qty, executed := o.executed + qty)]
              && r.log == p.log + [OrderExecution(U32(p.seqNum + 1), o.token, qty, o.price, o.remaining - qty)]
              && Spent(r.m)
            else r.active == p.active && r.log == p.log && r.m == p.m && r.seqNum == p.seqNum
  {
    hide U32, ExecuteStep;
    VisitOfOrder(p, k, coin, roll);
  }

  /** When no order of the walk can be filled, the quantity keeps waiting. */
  lemma {:induction false} NoneToFill(p: Phase, order: seq<Token>, coin: Coins, roll: Rolls, n: int)
    requires Loaded(p.m, n) && forall i :: 0 <= i < |order| ==> order[i] in p.active
    requires forall i :: 0 <= i < |order| ==> !(0 < p.active[order[i]].remaining <= 1000000)
    ensures var r := ExecuteAllOf(p, order, coin, roll);
            r.active == p.active && r.log == p.log && r.m == p.m && r.seqNum == p.seqNum
  {
    hide ExecuteStep;
    if order != [] {
      var m := |order| - 1;
      NoneToFill(p, order[..m], coin, roll, n);
      LoadedVisit(ExecuteAllOf(p, order[..m], coin, roll), order[m], coin(m), roll(m), n);
    }
  }

  lemma SpentVisit(p: Phase, k: Token, coin: bool, roll: Roll)
    requires Spent(p.m) && k in p.active
    ensures var r := ExecuteStep(p, k, coin, roll); r.active == p.active && r.log == p.log && Spent(r.m)
  {
  }

  /** After `bm execute n` the next pass fills the first order of its walk that can be filled, by n shares or all it
      has, and no other. */
  lemma {:induction false} OneShotGoesToTheFirst(p: Phase, order: seq<Token>, coin: Coins, roll: Rolls, n: int, h: nat)
    requires Loaded(p.m, n) && forall i :: 0 <= i < |order| ==> order[i] in p.active
    requires FirstToFill(p.active, order, h)
    ensures var r, o := ExecuteAllOf(p, order, coin, roll), p.active[order[h]];
            var qty := if n < o.remaining then n else o.remaining;
            && r.active == p.active[order[h] := o.(remaining := o.remaining - qty, executed := o.executed + qty)]
            && r.log == p.log + [OrderExecution(U32(p.seqNum + 1), o.token, qty, o.price, o.remaining - qty)]
            && Spent(r.m)
  {
    hide U32, ExecuteStep, Loaded, Spent;
    var m := |order| - 1;
    var q := ExecuteAllOf(p, order[..m], coin, roll);
    if h < m {
      OneShotGoesToTheFirst(p, order[..m], coin, roll, n, h);
      SpentVisit(q, order[m], coin(m), roll(m));
    } else {
      NoneToFill(p, order[..m], coin, roll, n);
      LoadedVisit(q, order[m], coin(m), roll(m), n);
    }
  }

  // ---------------------------------------------------------------- packets

  /** An order is acknowledged if and only if its token is not active and it is admitted; it is then in the book as
      it was asked for. Otherwise it is rejected. */
  lemma EnterOfOrder(s: Session, m: Manager, no: NewOrder, id: uint64, coin: bool)
    ensures var r, yes := Enter(s, m, no, id, coin).s, Behavior.Ask(m, Behavior.NewOrder, coin).ok;
            if no.token !in s.active && yes then
              && r.active == s.active[no.token := BoeOrder(no.token, id, no.side, StrNCpy(no.symbol), StrNCpy(no.firm),
                                                           no.capacity, no.display, no.timeInForce, no.minQty, no.price,
                                                           no.qty, 0)]
              && r.seqNum == U32(s.seqNum + 1)
              && r.log == s.log + [OrderAck(U32(s.seqNum + 1), no.token, id, no.qty)] && r.finished == s.finished
            else r == s.(log := s.log + [OrderRejected(no.token)])
  {
    hide Behavior.Ask, StrNCpy;
  }

  /** A modify is queued if and only if it names an active or finished order and is admitted; otherwise it is
      rejected. */
  lemma QueueOfModify(s: Session, m: Manager, mo: ModifyOrder, coin: bool)
    ensures var r, yes := QueueModify(s, m, mo, coin).s, Behavior.Ask(m, Behavior.ModifyOrder, coin).ok;
            if mo.original !in s.active && mo.original !in s.finished then
              r == s.(log := s.log + [ModifyRejected(mo.original, UnknownOrder)])
            else if !yes then r == s.(log := s.log + [ModifyRejected(mo.original, Unforeseen)])
            else r == s.(pendingModify := s.pendingModify + [mo])
  {
    hide Behavior.Ask;
  }

  /** A cancel is queued if and only if it names an active order with shares left. One of a finished order is rejected,
      but inserts an active order first; one of an unknown token inserts an order too. */
  lemma QueueOfCancel(s: Session, m: Manager, t: Token, junk: BoeOrder, coin: bool)
    ensures var r := QueueCancel(s, m, t, junk, coin).s;
            && (t in s.active && s.active[t].remaining > 0 ==> r == s.(pendingCancel := s.pendingCancel + [t]))
            && (t in s.active && s.active[t].remaining <= 0 ==>
                  r == s.(log := s.log + [CancelRejected(t, TooLateToCancel)]))
            && (t !in s.active ==>
                  && r.active == s.active[t := junk] && r.pendingCancel == s.pendingCancel
                  && r.log == s.log
                              + if t in s.finished || junk.remaining <= 0 then [CancelRejected(t, TooLateToCancel)]
                                else if Behavior.Ask(m, Behavior.CancelOrder, coin).ok then []
                                else [CancelRejected(t, Unforeseen)])
  {
    hide Behavior.Ask;
  }

  /** A lost connection ends the login and nothing else. */
  lemma CloseOfSession(s: Session)
    ensures Close(s) == s.(loggedIn := false)
  {
  }

  /** A login is accepted if and only if it is admitted and nobody is logged in. */
  lemma LoginOfClient(s: Session, m: Manager, coin: bool)
    ensures var r, yes := HandleLogin(s, m, coin).s, Behavior.Ask(m, Behavior.Login, coin).ok;
            && (yes && !s.loggedIn ==> r == s.(loggedIn := true, log := s.log + [LoginResponse(LoginOk)]))
            && (yes && s.loggedIn ==> r == s.(log := s.log + [LoginResponse(SessionInUse)]))
            && (!yes ==> r == s.(log := s.log + [LoginResponse(SessionDisabled)]))
  {
    hide Behavior.Ask;
  }

  /** Logged-in clients get a heartbeat once a second has passed since the last one, others never. */
  lemma HeartbeatOfSession(s: Session, now: int)
    ensures var r := Heartbeat(s, now);
            if s.loggedIn && s.lastBeat + 1 <= now then r == s.(lastBeat := now, log := s.log + [ServerHeartbeat])
            else r == s
  {
  }

  // ---------------------------------------------------------------- cancel_all

  /** cancel_all reports exactly the orders that have between 1 and 1000000 shares left, in the order of its walk. */
  function ReportsOfAll(b: Book, order: seq<Token>): Log
    requires forall i :: 0 <= i < |order| ==> order[i] in b
  {
    if order == [] then []
    else
      var o := b[order[|order| - 1]];
      ReportsOfAll(b, order[..|order| - 1]) + if 1 <= o.remaining <= 1000000 then [OrderCanceled(o.token)] else []
  }

  lemma {:induction false} CancelAllReports(log: Log, b: Book, order: seq<Token>)
    requires forall i :: 0 <= i < |order| ==> order[i] in b
    ensures CancelAllLog(log, b, order) == log + ReportsOfAll(b, order)
  {
    if order != [] {
      CancelAllReports(log, b, order[..|order| - 1]);
    }
  }

  lemma {:induction false} ReportsOfAllName(b: Book, order: seq<Token>, k: Token)
    requires (forall i :: 0 <= i < |order| ==> order[i] in b) && forall t :: t in b ==> b[t].token == t
    ensures OrderCanceled(k) in ReportsOfAll(b, order) <==> k in order && 1 <= b[k].remaining <= 1000000
  {
    if order != [] {
      ReportsOfAllName(b, order[..|order| - 1], k);
      assert k in order <==> k in order[..|order| - 1] || k == order[|order| - 1];
    }
  }

  lemma CancelAllOfBook(s: Session, order: seq<Token>, k: Token)
    requires IsOrder(order, s.active.Keys) && forall t :: t in s.active ==> s.active[t].token == t
    ensures var r := CancelAll(s, order);
            && r.active == map[] && r.finished == s.finished && s.log <= r.log
            && (OrderCanceled(k) in r.log[|s.log|..] <==> k in s.active && 1 <= s.active[k].remaining <= 1000000)
  {
    hide CancelAllLog, ReportsOfAll;
    CancelAllReports(s.log, s.active, order);
    ReportsOfAllName(s.active, order, k);
    assert (s.log + ReportsOfAll(s.active, order))[|s.log|..] == ReportsOfAll(s.active, order);
    assert k in order <==> k in s.active;
  }
}
