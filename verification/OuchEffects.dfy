/** What each OUCH operation does to an order and what it sends, in plain terms: quantities, limits and keys. */
module OuchEffects {
  import opened Bytes
  import opened OuchOrders
  import opened Ouch
  import opened Walks
  import opened OuchKeys
  import opened OuchLedger
  import opened OuchDiscipline
  import opened OuchRenaming
  import opened OuchProgress
  import Behavior

  /** Entries other than those of the two keys are the same. */
  ghost predicate OthersSame(b: Book, b1: Book, k1: Token, k2: Token) {
    forall k :: k != k1 && k != k2 ==> (k in b <==> k in b1) && (k in b ==> b1[k] == b[k])
  }

  // ---------------------------------------------------------------- cancels

  /** A cancel of an order in the book that the manager admits. `qty` is what the client wants to keep. */
  lemma CancelOfOrder(p: Phase, co: CancelOrder, coin: bool)
    requires co.token in p.active && Behavior.Ask(p.m, Behavior.CancelOrder, coin).ok
    requires 0 <= p.active[co.token].remaining < TWO_TO_32
    ensures var o, r := p.active[co.token], CancelStep(p, co, coin);
            && OthersSame(p.active, r.active, co.token, co.token) && co.token in r.active
            && (co.qty == 0 ==>
                  && r.done == p.done + {co.token} && r.active[co.token] == o
                  && r.log == p.log + [Canceled(co.token, o.remaining, UserRequested)])
            && (0 < co.qty < o.remaining ==>
                  && r.done == p.done && r.active[co.token] == o.(remaining := co.qty)
                  && r.log == p.log + [Canceled(co.token, o.remaining - co.qty, UserRequested)])
            && (0 < co.qty && o.remaining <= co.qty ==> r.done == p.done && r.active[co.token] == o && r.log == p.log)
  {
    hide Behavior.Ask;
  }

  /** A cancel of anything else, or one that is not admitted, is rejected and changes no order. */
  lemma CancelRejected(p: Phase, co: CancelOrder, coin: bool)
    requires co.token !in p.active || !Behavior.Ask(p.m, Behavior.CancelOrder, coin).ok
    ensures var r := CancelStep(p, co, coin);
            r.active == p.active && r.done == p.done && r.log == p.log + [CancelReject(co.token)]
  {
  }

  /** The manager after it was asked about those cancels that name an order of the book. */
  function ManagerAt(keys: set<Token>, m: Manager, reqs: seq<CancelOrder>, coin: Coins): Manager {
    if reqs == [] then m
    else
      var n := |reqs| - 1;
      var before := ManagerAt(keys, m, reqs[..n], coin);
      if reqs[n].token in keys then Behavior.Ask(before, Behavior.CancelOrder, coin(n)).m else before
  }

  predicate Admitted(keys: set<Token>, m: Manager, reqs: seq<CancelOrder>, coin: Coins, i: nat)
    requires i < |reqs|
  {
    && reqs[i].token in keys
    && Behavior.Ask(ManagerAt(keys, m, reqs[..i], coin), Behavior.CancelOrder, coin(i)).ok
  }

  /** The least of `q` and of the quantities above 0 that the admitted cancels of `k` want to keep. */
  function Least(q: int, keys: set<Token>, m: Manager, reqs: seq<CancelOrder>, coin: Coins, k: Token): int {
    if reqs == [] then q
    else
      var n := |reqs| - 1;
      var least := Least(q, keys, m, reqs[..n], coin, k);
      if reqs[n].token == k && reqs[n].qty > 0 && Admitted(keys, m, reqs, coin, n) then Min(least, reqs[n].qty)
      else least
  }

  /** Some admitted cancel wants to keep nothing of `k`. */
  function FullyCancelled(keys: set<Token>, m: Manager, reqs: seq<CancelOrder>, coin: Coins, k: Token): bool {
    exists i :: 0 <= i < |reqs| && reqs[i].token == k && reqs[i].qty == 0 && Admitted(keys, m, reqs, coin, i)
  }

  lemma FullyCancelledOneMore(keys: set<Token>, m: Manager, reqs: seq<CancelOrder>, coin: Coins, k: Token)
    requires reqs != []
    ensures var n := |reqs| - 1;
            FullyCancelled(keys, m, reqs, coin, k) <==>
              FullyCancelled(keys, m, reqs[..n], coin, k)
              || (reqs[n].token == k && reqs[n].qty == 0 && Admitted(keys, m, reqs, coin, n))
  {
    hide ManagerAt, Behavior.Ask;
    var n := |reqs| - 1;
    forall i | 0 <= i < n
      ensures Admitted(keys, m, reqs[..n], coin, i) <==> Admitted(keys, m, reqs, coin, i)
    {
      assert reqs[..n][..i] == reqs[..i];
    }
    if FullyCancelled(keys, m, reqs[..n], coin, k) {
      var i :| 0 <= i < n && reqs[..n][i].token == k && reqs[..n][i].qty == 0 && Admitted(keys, m, reqs[..n], coin, i);
      assert reqs[i].token == k && reqs[i].qty == 0 && Admitted(keys, m, reqs, coin, i);
    }
    if i :| 0 <= i < n && reqs[i].token == k && reqs[i].qty == 0 && Admitted(keys, m, reqs, coin, i) {
      assert reqs[..n][i].token == k && reqs[..n][i].qty == 0 && Admitted(keys, m, reqs[..n], coin, i);
    }
  }

  lemma {:induction false} CancelsAsk(p: Phase, reqs: seq<CancelOrder>, coin: Coins)
    ensures var r := CancelAllOf(p, reqs, coin);
            && r.active.Keys == p.active.Keys && r.m == ManagerAt(p.active.Keys, p.m, reqs, coin)
            && r.finished == p.finished
  {
    hide Behavior.Ask;
    if reqs != [] {
      CancelsAsk(p, reqs[..|reqs| - 1], coin);
    }
  }

  lemma CancelStepAtKey(p: Phase, co: CancelOrder, coin: bool, k: Token)
    requires k in p.active && 0 <= p.active[k].remaining < TWO_TO_32
    ensures var r := CancelStep(p, co, coin);
            var yes := co.token == k && Behavior.Ask(p.m, Behavior.CancelOrder, coin).ok;
            && k in r.active
            && r.active[k] == (if yes && co.qty > 0 then p.active[k].(remaining := Min(p.active[k].remaining, co.qty))
                               else p.active[k])
            && (k in r.done <==> k in p.done || (yes && co.qty == 0))
  {
    hide Behavior.Ask;
  }

  lemma {:induction false} CancelsAtKey(p: Phase, reqs: seq<CancelOrder>, coin: Coins, k: Token)
    requires k in p.active && 0 <= p.active[k].remaining < TWO_TO_32
    ensures var r, keys := CancelAllOf(p, reqs, coin), p.active.Keys;
            var least := Least(p.active[k].remaining, keys, p.m, reqs, coin, k);
            && k in r.active && r.active[k] == p.active[k].(remaining := least) && 0 <= least <= p.active[k].remaining
            && (k in r.done <==> k in p.done || FullyCancelled(keys, p.m, reqs, coin, k))
  {
    hide CancelStep, Behavior.Ask, FullyCancelled, ManagerAt;
    if reqs == [] {
      NothingCancelled(p.active.Keys, p.m, coin, k);
    } else {
      var n := |reqs| - 1;
      CancelsAtKey(p, reqs[..n], coin, k);
      CancelsAsk(p, reqs[..n], coin);
      CancelStepAtKey(CancelAllOf(p, reqs[..n], coin), reqs[n], coin(n), k);
      FullyCancelledOneMore(p.active.Keys, p.m, reqs, coin, k);
    }
  }

  lemma NothingCancelled(keys: set<Token>, m: Manager, coin: Coins, k: Token)
    ensures !FullyCancelled(keys, m, [], coin, k)
  {
  }

  /** The cancel pass: an order is gone when an admitted cancel wanted to keep nothing of it; otherwise it keeps the
      least of what it had and of what the admitted cancels wanted to keep, and is the same in everything else. */
  lemma CancelsKeepTheLeast(s: Session, m: Manager, coin: Coins, k: Token)
    requires k in s.active && 0 <= s.active[k].remaining < TWO_TO_32
    ensures var r, o, keys, q := CancelLogic(s, m, coin).s, s.active[k], s.active.Keys, s.pendingCancel;
            && (k in r.active <==> !FullyCancelled(keys, m, q, coin, k))
            && (k in r.active ==> r.active[k] == o.(remaining := Least(o.remaining, keys, m, q, coin, k)))
            && r.finished == s.finished
  {
    hide CancelAllOf, FullyCancelled, Least;
    CancelsAtKey(Start(s, m), s.pendingCancel, coin, k);
    CancelsAsk(Start(s, m), s.pendingCancel, coin);
  }

  // ---------------------------------------------------------------- modifies

  /** A modify that the switch lets through. */
  lemma ModifyOfOrder(p: Phase, mo: ModifyOrder)
    requires mo.token in p.active && Admissible(p.active[mo.token].side, mo.side)
    ensures var o, r := p.active[mo.token], ModifyStep(p, mo);
            && (mo.qty <= o.executed ==>
                  && r.active == p.active && r.done == p.done + {o.token}
                  && r.log == p.log + [Modified(mo.token, mo.side, 0)])
            && (o.executed < mo.qty ==>
                  && r.done == p.done
                  && r.active == p.active[mo.token := o.(side := mo.side, remaining := mo.qty - o.executed)]
                  && r.log == p.log + [Modified(mo.token, mo.side, mo.qty - o.executed)])
  {
    hide Admissible;
  }

  /** Buy orders, and sides that are none, may be changed to anything. */
  lemma OnlySellsAreChecked(side: byte, newSide: byte)
    requires !IsSell(side)
    ensures Admissible(side, newSide)
  {
  }

  /** What the requests leave of an order: the last one that reaches it without closing it decides. */
  function LeftAfter(o: OuchOrder, reqs: seq<ModifyOrder>): int {
    if reqs == [] then o.remaining
    else
      var n := |reqs| - 1;
      if Reaches(o, reqs, n) && o.executed < reqs[n].qty then reqs[n].qty - o.executed else LeftAfter(o, reqs[..n])
  }

  lemma {:induction false} ModifiesAtKey(p: Phase, reqs: seq<ModifyOrder>, k: Token)
    requires Keyed(p.active) && k in p.active
    ensures var r := ModifyAllOf(p, reqs);
            k in r.active && r.active[k] == p.active[k].(side := SideAfter(p.active[k], reqs),
                                                         remaining := LeftAfter(p.active[k], reqs))
  {
    hide Admissible;
    if reqs != [] {
      var n := |reqs| - 1;
      ModifiesAtKey(p, reqs[..n], k);
      ModifiesByOrder(p, reqs[..n], reqs[n].token);
    }
  }

  /** The modify pass, for orders of any side: an order is gone, and not finished, when a request that reaches it
      asks for no more than it has executed; otherwise the last request that reaches it decides what is left of it. */
  lemma ModifiesDecide(s: Session, m: Manager, k: Token)
    requires Keyed(s.active) && k in s.active
    ensures var r, o, q := ModifyLogic(s, m).s, s.active[k], s.pendingModify;
            && (k in r.active <==> !Closing(o, q))
            && (k in r.active ==> r.active[k] == o.(side := SideAfter(o, q), remaining := LeftAfter(o, q)))
            && r.finished == s.finished
  {
    hide ModifyAllOf, Closing, SideAfter, LeftAfter;
    ModifiesAtKey(Start(s, m), s.pendingModify, k);
    ModifiesMark(Start(s, m), s.pendingModify, k);
    ModifiesByOrder(Start(s, m), s.pendingModify, k);
  }

  // ---------------------------------------------------------------- replaces

  /** A replace of an order in the book is carried out if and only if it asks for more than was executed and for 999999
      at most; otherwise the order is reported as cancelled by the system and awaits erasure. */
  lemma ReplaceOfOrder(p: Phase, ro: ReplaceOrder, junk: OuchOrder)
    requires ro.existing in p.active
    ensures var o, r := p.active[ro.existing], ReplaceStep(p, ro, junk);
            if o.executed < ro.qty <= 999999 then
              && r.done == p.done && OthersSame(p.active, r.active, ro.existing, ro.token) && ro.existing !in r.active
              && (ro.token != ro.existing ==>
                    && ro.token in r.active
                    && r.active[ro.token] == o.(token := ro.token, remaining := ro.qty - o.executed, price := ro.price,
                                                timeInForce := ro.timeInForce, sweep := ro.sweep,
                                                remainTimeInForce := I32(ro.timeInForce)))
              && r.log == p.log + [Replaced(OrderReplaced(ro.existing, ro.token, o.side, ro.qty - o.executed,
                                                          StrNCpy(o.symbol), ro.price, ro.timeInForce, StrNCpy(o.firm),
                                                          o.orderId, o.capacity, o.minQty))]
            else
              && r.active == p.active && r.done == p.done + {ro.existing}
              && r.log == p.log + [Canceled(ro.existing, o.remaining, SystemCancel)]
  {
    hide StrNCpy;
  }

  /** A replace of an unknown token does what it would do if the inserted order had been there. */
  lemma ReplaceOfNoOrder(p: Phase, ro: ReplaceOrder, junk: OuchOrder)
    requires ro.existing !in p.active
    ensures ReplaceStep(p, ro, junk) == ReplaceStep(p.(active := p.active[ro.existing := junk]), ro, junk)
  {
    hide ReplacedMessage, Renewed, Closes;
    var p1 := p.(active := p.active[ro.existing := junk]);
    var o := Renewed(ro, junk);
    assert p.active[ro.token := o] - {ro.existing} == p1.active[ro.token := o] - {ro.existing};
    assert p.active[ro.existing := junk] == p1.active[ro.existing := junk];
  }

  /** The token that the requests lead to from `k`, by their tokens alone. */
  function TokenAt(reqs: seq<ReplaceOrder>, k: Token): Token {
    if reqs == [] then k
    else
      var n := |reqs| - 1;
      var before := TokenAt(reqs[..n], k);
      if reqs[n].existing == before then reqs[n].token else before
  }

  predicate OnChain(reqs: seq<ReplaceOrder>, k: Token, i: nat)
    requires i < |reqs|
  {
    reqs[i].existing == TokenAt(reqs[..i], k)
  }

  /** Some request on the chain of `k` asks for too much, or for no more than was executed. */
  function SomeRefused(reqs: seq<ReplaceOrder>, k: Token, executed: int): bool {
    exists i :: 0 <= i < |reqs| && OnChain(reqs, k, i) && !(executed < reqs[i].qty <= 999999)
  }

  /** The quantity the last request of the chain asks for. */
  function AskedAt(reqs: seq<ReplaceOrder>, k: Token, otherwise: int): int {
    if reqs == [] then otherwise
    else
      var n := |reqs| - 1;
      if OnChain(reqs, k, n) then reqs[n].qty else AskedAt(reqs[..n], k, otherwise)
  }

  lemma SomeRefusedOneMore(reqs: seq<ReplaceOrder>, k: Token, executed: int)
    requires reqs != []
    ensures var n := |reqs| - 1;
            SomeRefused(reqs, k, executed) <==>
              SomeRefused(reqs[..n], k, executed) || (OnChain(reqs, k, n) && !(executed < reqs[n].qty <= 999999))
  {
    hide TokenAt;
    var n := |reqs| - 1;
    forall i | 0 <= i < n
      ensures OnChain(reqs[..n], k, i) <==> OnChain(reqs, k, i)
    {
      assert reqs[..n][..i] == reqs[..i];
    }
    if SomeRefused(reqs[..n], k, executed) {
      var i :| 0 <= i < n && OnChain(reqs[..n], k, i) && !(executed < reqs[..n][i].qty <= 999999);
      assert OnChain(reqs, k, i) && !(executed < reqs[i].qty <= 999999);
    }
    if i :| 0 <= i < n && OnChain(reqs, k, i) && !(executed < reqs[i].qty <= 999999) {
      assert OnChain(reqs[..n], k, i) && !(executed < reqs[..n][i].qty <= 999999);
    }
  }

  /** A trail is closed exactly when some request of the chain is refused; otherwise it ends where the tokens lead. */
  lemma {:induction false} TrailByTokens(b: Book, reqs: seq<ReplaceOrder>, k: Token)
    requires k in b
    ensures var t, o := TrailOf(b, reqs, k), b[k];
            && (t.closed <==> SomeRefused(reqs, k, o.executed)) && t.order.executed == o.executed
            && (!t.closed ==>
                  && t.key == TokenAt(reqs, k)
                  && t.order.executed + t.order.remaining == AskedAt(reqs, k, o.executed + o.remaining))
  {
    hide SomeRefused;
    if reqs == [] {
      NothingRefused(k, b[k].executed);
    } else {
      TrailByTokens(b, reqs[..|reqs| - 1], k);
      SomeRefusedOneMore(reqs, k, b[k].executed);
    }
  }

  lemma NothingRefused(k: Token, executed: int)
    ensures !SomeRefused([], k, executed)
  {
  }

  /** A fresh batch of live replaces, by tokens and quantities alone: exactly the orders with no refused request on
      their chain are in the new book, each where its chain leads and with what the last request asks for; the others
      are gone. */
  lemma FreshReplacesExact(s: Session, m: Manager, junk: Junk)
    requires FreshBatch(s.active, s.pendingReplace) && ReplacesLive(Start(s, m), s.pendingReplace, junk)
    ensures var b, reqs := ReplaceLogic(s, m, junk).s.active, s.pendingReplace;
            && (forall k {:trigger TokenAt(reqs, k)} ::
                  k in s.active && !SomeRefused(reqs, k, s.active[k].executed) ==>
                    var t, o := TokenAt(reqs, k), s.active[k];
                    && t in b && b[t].orderId == o.orderId && b[t].executed == o.executed && b[t].minQty == o.minQty
                    && b[t].executed + b[t].remaining == AskedAt(reqs, k, o.executed + o.remaining))
            && (forall t :: t in b ==>
                  exists k :: k in s.active && !SomeRefused(reqs, k, s.active[k].executed) && TokenAt(reqs, k) == t)
            && (forall k1, k2 :: k1 in s.active && k2 in s.active && k1 != k2
                  && !SomeRefused(reqs, k1, s.active[k1].executed) && !SomeRefused(reqs, k2, s.active[k2].executed)
                  ==> TokenAt(reqs, k1) != TokenAt(reqs, k2))
  {
    hide TrailOf, SomeRefused, TokenAt, AskedAt, EndsAs, Linked, FreshBatch, ReplacesLive, ReplaceLogic;
    var b, reqs := ReplaceLogic(s, m, junk).s.active, s.pendingReplace;
    ReplaceLogicRenames(s, m, junk);
    forall k | k in s.active
      ensures var t := TrailOf(s.active, reqs, k);
              && (t.closed <==> SomeRefused(reqs, k, s.active[k].executed))
              && (!t.closed ==> t.key == TokenAt(reqs, k) && t.key in b && b[t.key] == t.order)
    {
      TrailByTokens(s.active, reqs, k);
    }
    forall k | k in s.active && !SomeRefused(reqs, k, s.active[k].executed)
      ensures var t, o := TokenAt(reqs, k), s.active[k];
              && t in b && b[t].orderId == o.orderId && b[t].executed == o.executed && b[t].minQty == o.minQty
              && b[t].executed + b[t].remaining == AskedAt(reqs, k, o.executed + o.remaining)
    {
      TrailByTokens(s.active, reqs, k);
      TrailKeepsIdentity(s.active, reqs, k);
    }
    forall t | t in b
      ensures exists k :: k in s.active && !SomeRefused(reqs, k, s.active[k].executed) && TokenAt(reqs, k) == t
    {
      var k :| k in s.active && TrailOf(s.active, reqs, k).key == t;
      assert !TrailOf(s.active, reqs, k).closed;
    }
  }

  lemma TrailKeepsIdentity(b: Book, reqs: seq<ReplaceOrder>, k: Token)
    requires k in b
    ensures var o := TrailOf(b, reqs, k).order; o.orderId == b[k].orderId && o.minQty == b[k].minQty
  {
    hide TrailOf, Linked;
    TrailKeepsOrder(b, reqs, k);
  }

  // ---------------------------------------------------------------- executions

  /** Except for its state and its remaining time, the order is the other. */
  predicate SameOrder(o: OuchOrder, o1: OuchOrder) {
    o1.(state := o.state, remainTimeInForce := o.remainTimeInForce) == o
  }

  /** An admitted visit, case by case. A fill is of `roll` hundred shares or of all that is left; a minimum quantity
      lets through only fills that do not exceed it. */
  lemma VisitOfOrder(o: OuchOrder, now: int, roll: Roll)
    ensures var v, over := VisitOrder(o, now, roll), Expired(o, now).yes;
            var qty := if roll * 100 < o.remaining then roll * 100 else o.remaining;
            if over then v.Drops? && SameOrder(o, v.order) && v.messages == [Canceled(o.token, o.remaining, TimeOut)]
            else if o.timeInForce == 0 then
              && v.Drops? && SameOrder(o, v.order)
              && v.messages == if o.remaining != 0 then [Canceled(o.token, o.remaining, ImmediateOrCancel)] else []
            else if o.remaining <= 0 || o.state == Dead then v.Finishes? && SameOrder(o, v.order)
            else if o.minQty == 0 || qty <= o.minQty then
              && v.Keeps? && v.messages == [Executed(o.token, qty, o.price)]
              && SameOrder(o.(remaining := o.remaining - qty, executed := o.executed + qty), v.order)
            else v.Keeps? && v.messages == [] && SameOrder(o, v.order)
  {
  }

  // ---------------------------------------------------------------- cancel_all

  /** One message for each live order with shares left whose time is not over, in the order of the walk. */
  function ReportsOfAll(b: Book, order: seq<Token>, now: int): Log
    requires forall i :: 0 <= i < |order| ==> order[i] in b
  {
    if order == [] then []
    else
      var o := b[order[|order| - 1]];
      ReportsOfAll(b, order[..|order| - 1], now)
      + if o.remaining > 0 && o.state == Live && !Expired(o, now).yes
        then [Canceled(o.token, o.remaining, SystemCancel)] else []
  }

  lemma {:induction false} CancelAllReports(log: Log, b: Book, order: seq<Token>, now: int)
    requires forall i :: 0 <= i < |order| ==> order[i] in b
    ensures CancelAllLog(log, b, order, now) == log + ReportsOfAll(b, order, now)
  {
    if order != [] {
      CancelAllReports(log, b, order[..|order| - 1], now);
    }
  }

  lemma {:induction false} ReportsOfAllName(b: Book, order: seq<Token>, now: int, k: Token)
    requires (forall i :: 0 <= i < |order| ==> order[i] in b) && Keyed(b) && k in b && Distinct(order)
    ensures Canceled(k, b[k].remaining, SystemCancel) in ReportsOfAll(b, order, now) <==>
              k in order && b[k].remaining > 0 && b[k].state == Live && !Expired(b[k], now).yes
    ensures forall e :: e in ReportsOfAll(b, order, now) && e.Canceled? && e.token == k ==>
              e == Canceled(k, b[k].remaining, SystemCancel)
  {
    hide Expired;
    if order != [] {
      ReportsOfAllName(b, order[..|order| - 1], now, k);
      assert k in order <==> k in order[..|order| - 1] || k == order[|order| - 1];
    }
  }

  /** cancel_all empties the book and reports, as cancelled by the system with all their shares, exactly the live orders
      with shares left whose time is not over. */
  lemma CancelAllOfBook(s: Session, order: seq<Token>, now: int, k: Token)
    requires IsOrder(order, s.active.Keys) && Keyed(s.active) && k in s.active
    ensures var r, o := CancelAll(s, order, now), s.active[k];
            && r.active == map[] && r.finished == s.finished && s.log <= r.log
            && (Canceled(k, o.remaining, SystemCancel) in r.log[|s.log|..] <==>
                  o.remaining > 0 && o.state == Live && !Expired(o, now).yes)
            && (forall e :: e in r.log[|s.log|..] && e.Canceled? && e.token == k ==>
                  e == Canceled(k, o.remaining, SystemCancel))
  {
    hide CancelAllLog, ReportsOfAll, Expired;
    CancelAllReports(s.log, s.active, order, now);
    ReportsOfAllName(s.active, order, now, k);
    assert (s.log + ReportsOfAll(s.active, order, now))[|s.log|..] == ReportsOfAll(s.active, order, now);
    assert k in order;
  }

  // ---------------------------------------------------------------- login and heartbeat

  /** A login is accepted if and only if nobody is logged in and it is admitted; the manager is not asked otherwise. */
  lemma LoginOfClient(s: Session, m: Manager, coin: bool)
    ensures var r, a := HandleLogin(s, m, coin), Behavior.Ask(m, Behavior.Login, coin);
            && (s.loggedIn ==> r == Outcome(s.(log := s.log + [LoginRejected(SessionNotAvailable)]), m))
            && (!s.loggedIn && !a.ok ==> r == Outcome(s.(log := s.log + [LoginRejected(NotAuthorized)]), a.m))
            && (!s.loggedIn && a.ok ==> r == Outcome(s.(loggedIn := true, log := s.log + [LoginAccepted]), a.m))
  {
    hide Behavior.Ask;
  }

  /** Logged-in clients get a heartbeat once a second has passed since the last one, others never. */
  lemma HeartbeatOfSession(s: Session, now: int)
    ensures var r := Heartbeat(s, now);
            if s.loggedIn && s.lastBeat + 1 <= now then r == s.(lastBeat := now, log := s.log + [ServerHeartbeat])
            else r == s
  {
  }

  // ---------------------------------------------------------------- entry and queues

  /** The requests the validator lets through, in numbers: side B, S, T or E; 1 to 1000000 shares; a price of
      199999.9900 at most or the market price; and the letters of sections 2.1 and 2.2 of OUCH 4.2. */
  lemma ValidRequests(eo: EnterOrder, ro: ReplaceOrder, co: CancelOrder, mo: ModifyOrder)
    ensures ValidEnter(eo) <==>
              && eo.side in {66, 83, 84, 69} && 1 <= eo.qty <= 1000000
              && (eo.price <= 1999999900 || eo.price == 0x7FFF_FFFF)
              && eo.display in {65, 89, 78, 80, 73, 77, 87, 76, 79, 84, 81} && eo.sweep in {89, 78, 121}
              && eo.crossType in {78, 79, 67, 72, 83, 82} && eo.customerType in {32, 82, 78}
    ensures ValidReplace(ro) <==>
              && 1 <= ro.qty <= 1000000 && (ro.price <= 1999999900 || ro.price == 0x7FFF_FFFF)
              && ro.display in {65, 89, 78, 80, 73, 77, 87, 76, 79, 84, 81} && ro.sweep in {89, 78, 121}
    ensures ValidCancel(co) <==> co.qty <= 1000000
    ensures ValidModify(mo) <==> mo.qty <= 1000000
  {
  }

  /** An order is accepted if and only if it is valid, asks for 999999 at most, comes within a login, is admitted,
      and its token is neither active nor finished. It is then in the book as it was asked for, received now. */
  lemma EnterOfOrder(s: Session, m: Manager, eo: EnterOrder, id: uint64, now: int, coin: bool)
    ensures var r, yes := Enter(s, m, eo, id, now, coin).s, Behavior.Ask(m, Behavior.NewOrder, coin).ok;
            if && ValidEnter(eo) && eo.qty <= 999999 && s.loggedIn && yes
               && eo.token !in s.active && eo.token !in s.finished
            then
              && eo.token in r.active && OthersSame(s.active, r.active, eo.token, eo.token)
              && r.active[eo.token] == OuchOrder(eo.token, id, now, eo.side, StrNCpy(eo.symbol), StrNCpy(eo.firm),
                                                 eo.capacity, eo.display, eo.sweep, eo.crossType, eo.price, eo.minQty,
                                                 eo.timeInForce, I32(eo.timeInForce), eo.qty, 0, Live)
              && r.log == s.log + [Accepted(AcceptedMessage(r.active[eo.token]))] && r.finished == s.finished
            else
              && r.active == s.active && r.finished == s.finished
              && r.log == s.log + if !ValidEnter(eo) then []
                                  else if eo.qty > 999999 then [Rejected(eo.token, ExceededConfiguredSafety)]
                                  else if !s.loggedIn || !yes then [Rejected(eo.token, Other)] else []
  {
    hide Behavior.Ask, ValidEnter, AcceptedMessage, StrNCpy;
  }

  /** Modifies and cancels are queued if and only if they are valid, name an active order and are admitted; replaces
      need not name an order. Nothing is sent. */
  lemma QueueOfRequest(s: Session, m: Manager, mo: ModifyOrder, ro: ReplaceOrder, co: CancelOrder, coin: bool)
    ensures var r, yes := QueueModify(s, m, mo, coin).s, Behavior.Ask(m, Behavior.ModifyOrder, coin).ok;
            r == s.(pendingModify := s.pendingModify
                                     + if ValidModify(mo) && mo.token in s.active && yes then [mo] else [])
    ensures var r, yes := QueueReplace(s, m, ro, coin).s, Behavior.Ask(m, Behavior.ReplaceOrder, coin).ok;
            r == s.(pendingReplace := s.pendingReplace + if ValidReplace(ro) && yes then [ro] else [])
    ensures var r, yes := QueueCancel(s, m, co, coin).s, Behavior.Ask(m, Behavior.CancelOrder, coin).ok;
            r == s.(pendingCancel := s.pendingCancel
                                     + if ValidCancel(co) && co.token in s.active && yes then [co] else [])
  {
    hide Behavior.Ask, ValidModify, ValidReplace, ValidCancel;
    assert s.pendingModify + [] == s.pendingModify;
    assert s.pendingReplace + [] == s.pendingReplace;
    assert s.pendingCancel + [] == s.pendingCancel;
  }

  // ---------------------------------------------------------------- the tick for one order

  /** The tick up to the execution pass, for an order that no waiting replace names: first the admitted cancels take
      effect, then all modifies ever queued, and the order has what the later of the two leaves. */
  lemma TickForOneOrder(s: Session, m: Manager, d: Draws, k: Token)
    requires WellKept(s) && k in s.active && 0 <= s.active[k].remaining < TWO_TO_32
    requires forall i :: 0 <= i < |s.pendingReplace| ==>
               s.pendingReplace[i].existing != k && s.pendingReplace[i].token != k
    ensures var b, o, keys, q := BeforeExecution(s, m, d).s, s.active[k], s.active.Keys, s.pendingCancel;
            var o1 := o.(remaining := Least(o.remaining, keys, m, q, d.cancelCoin, k));
            && (k in b.active <==> !FullyCancelled(keys, m, q, d.cancelCoin, k) && !Closing(o1, s.pendingModify))
            && (k in b.active ==>
                  b.active[k] == o1.(side := SideAfter(o1, s.pendingModify),
                                     remaining := LeftAfter(o1, s.pendingModify)))
            && b.finished == s.finished && b.pendingCancel == [] && b.pendingReplace == []
            && b.pendingModify == s.pendingModify
  {
    hide CancelAllOf, ModifyAllOf, ReplaceAllOf, FullyCancelled, Least, Closing, SideAfter, LeftAfter, NeverImmediate,
         TermsKept;
    var h := Heartbeat(s, d.now);
    var c := CancelLogic(h, m, d.cancelCoin);
    var o := ModifyLogic(c.s, c.m);
    HeartbeatKeeps(s, d.now);
    CancelsKeepTheLeast(h, m, d.cancelCoin, k);
    CancelKeepsKeys(Start(h, m), h.pendingCancel, d.cancelCoin);
    ModifiesByOrder(Start(c.s, c.m), c.s.pendingModify, k);
    if k in c.s.active {
      ModifiesDecide(c.s, c.m, k);
    }
    ReplacesSpare(Start(o.s, o.m), o.s.pendingReplace, d.junk, k);
  }
}
