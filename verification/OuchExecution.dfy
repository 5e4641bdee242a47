/** The execution pass: for every walk of the book and every answer of the manager it is a one-shot partition of
    the book, in spite of the gate it consumes on the way and of its deferred erasures. */
module OuchExecution {
  import opened Bytes
  import opened OuchOrders
  import opened Ouch
  import opened Walks
  import opened OuchKeys
  import Behavior

  /** The manager after `n` questions about execution. */
  function AfterAsking(m: Manager, coin: Coins, n: nat): Manager {
    if n == 0 then m else Behavior.Ask(AfterAsking(m, coin, n - 1), Behavior.Execution, coin(n - 1)).m
  }

  /** Does the manager let visit number `i` of the pass through? */
  predicate Gate(m: Manager, coin: Coins, i: nat) {
    Behavior.Ask(AfterAsking(m, coin, i), Behavior.Execution, coin(i)).ok
  }

  function Fate(o: OuchOrder, admitted: bool, now: int, roll: Roll): Visit {
    if admitted then VisitOrder(o, now, roll) else Keeps(o, [])
  }

  function MessagesOf(v: Visit): Log {
    if v.Finishes? then [] else v.messages
  }

  function Reports(b: Book, m: Manager, order: seq<Token>, now: int, coin: Coins, roll: Rolls): Log
    requires forall i :: 0 <= i < |order| ==> order[i] in b
  {
    if order == [] then []
    else
      var n := |order| - 1;
      Reports(b, m, order[..n], now, coin, roll) + MessagesOf(Fate(b[order[n]], Gate(m, coin, n), now, roll(n)))
  }

  ghost predicate SameAt(b1: Book, b2: Book, k: Token) {
    if k in b1 then k in b2 && b2[k] == b1[k] else k !in b2
  }

  /** What a pass leaves behind for a key whose order met fate `v`. */
  ghost predicate Settled(p: Phase, r: Phase, k: Token, v: Visit) {
    && k in r.active && r.active[k] == v.order
    && (k in r.done <==> !v.Keeps?)
    && (if v.Finishes? then k in r.finished && r.finished[k] == v.order else SameAt(p.finished, r.finished, k))
  }

  ghost predicate Untouched(p: Phase, r: Phase, k: Token) {
    SameAt(p.active, r.active, k) && SameAt(p.finished, r.finished, k) && (k in r.done <==> k in p.done)
  }

  lemma ExecuteStepAsksOnce(p: Phase, k: Token, now: int, coin: bool, roll: Roll)
    requires k in p.active
    ensures ExecuteStep(p, k, now, coin, roll).m == Behavior.Ask(p.m, Behavior.Execution, coin).m
  {
  }

  lemma {:induction false} PassAsksOncePerVisit(p: Phase, order: seq<Token>, now: int, coin: Coins, roll: Rolls)
    requires forall i :: 0 <= i < |order| ==> order[i] in p.active
    ensures ExecuteAllOf(p, order, now, coin, roll).m == AfterAsking(p.m, coin, |order|)
  {
    hide ExecuteStep, Behavior.Ask;
    if order != [] {
      var n := |order| - 1;
      var q := ExecuteAllOf(p, order[..n], now, coin, roll);
      PassAsksOncePerVisit(p, order[..n], now, coin, roll);
      ExecuteStepAsksOnce(q, order[n], now, coin(n), roll(n));
    }
  }

  lemma ExecuteStepSettles(p: Phase, q: Phase, k: Token, now: int, coin: bool, roll: Roll)
    requires k in p.active && Untouched(p, q, k) && k !in p.done
    ensures var v := Fate(p.active[k], Behavior.Ask(q.m, Behavior.Execution, coin).ok, now, roll);
            var r := ExecuteStep(q, k, now, coin, roll);
            Settled(p, r, k, v) && r.log == q.log + MessagesOf(v)
  {
    hide VisitOrder, Behavior.Ask;
  }

  lemma ExecuteStepLeavesOthers(q: Phase, k: Token, now: int, coin: bool, roll: Roll, j: Token)
    requires k in q.active && j != k
    ensures Untouched(q, ExecuteStep(q, k, now, coin, roll), j)
  {
    hide VisitOrder, Behavior.Ask;
  }

  /** A key that is not visited keeps its place. */
  lemma {:induction false} UnvisitedUntouched(p: Phase, order: seq<Token>, now: int, coin: Coins, roll: Rolls, k: Token)
    requires forall i :: 0 <= i < |order| ==> order[i] in p.active
    requires k !in order
    ensures Untouched(p, ExecuteAllOf(p, order, now, coin, roll), k)
  {
    hide ExecuteStep, Behavior.Ask;
    if order != [] {
      var n := |order| - 1;
      var q := ExecuteAllOf(p, order[..n], now, coin, roll);
      UnvisitedUntouched(p, order[..n], now, coin, roll, k);
      ExecuteStepLeavesOthers(q, order[n], now, coin(n), roll(n), k);
    }
  }

  /** Each key is settled by its own visit, and by no other. */
  lemma {:induction false} EachSettledOnce(p: Phase, order: seq<Token>, now: int, coin: Coins, roll: Rolls, i: nat)
    requires p.done == {} && Distinct(order) && i < |order|
    requires forall j :: 0 <= j < |order| ==> order[j] in p.active
    ensures Settled(p, ExecuteAllOf(p, order, now, coin, roll), order[i],
                    Fate(p.active[order[i]], Gate(p.m, coin, i), now, roll(i)))
  {
    hide ExecuteStep, Fate, Behavior.Ask;
    var n := |order| - 1;
    var q := ExecuteAllOf(p, order[..n], now, coin, roll);
    if i < n {
      EachSettledOnce(p, order[..n], now, coin, roll, i);
      ExecuteStepLeavesOthers(q, order[n], now, coin(n), roll(n), order[i]);
    } else {
      UnvisitedUntouched(p, order[..n], now, coin, roll, order[n]);
      PassAsksOncePerVisit(p, order[..n], now, coin, roll);
      ExecuteStepSettles(p, q, order[n], now, coin(n), roll(n));
    }
  }

  lemma LastVisitReports(p: Phase, order: seq<Token>, now: int, coin: Coins, roll: Rolls)
    requires p.done == {} && Distinct(order) && order != []
    requires forall i :: 0 <= i < |order| ==> order[i] in p.active
    ensures ExecuteAllOf(p, order, now, coin, roll).log
         == ExecuteAllOf(p, order[..|order| - 1], now, coin, roll).log
            + MessagesOf(Fate(p.active[order[|order| - 1]], Gate(p.m, coin, |order| - 1), now, roll(|order| - 1)))
  {
    hide ExecuteStep, Fate, Settled, MessagesOf, Behavior.Ask;
    var n := |order| - 1;
    var q := ExecuteAllOf(p, order[..n], now, coin, roll);
    UnvisitedUntouched(p, order[..n], now, coin, roll, order[n]);
    PassAsksOncePerVisit(p, order[..n], now, coin, roll);
    ExecuteStepSettles(p, q, order[n], now, coin(n), roll(n));
  }

  /** The messages of the pass are those of the visits, in their order. */
  lemma {:induction false} PassReports(p: Phase, order: seq<Token>, now: int, coin: Coins, roll: Rolls)
    requires p.done == {} && Distinct(order)
    requires forall i :: 0 <= i < |order| ==> order[i] in p.active
    ensures ExecuteAllOf(p, order, now, coin, roll).log == p.log + Reports(p.active, p.m, order, now, coin, roll)
  {
    hide ExecuteStep, Fate, MessagesOf, Gate;
    if order != [] {
      PassReports(p, order[..|order| - 1], now, coin, roll);
      LastVisitReports(p, order, now, coin, roll);
    }
  }

  ghost function At(order: seq<Token>, k: Token): (i: nat)
    requires k in order
    ensures i < |order| && order[i] == k
  {
    var i :| 0 <= i < |order| && order[i] == k;
    i
  }

  /** The fate of key `k` in one pass: a function of its own order, of the answer and of the roll it meets. */
  ghost function FateOf(s: Session, m: Manager, order: seq<Token>, now: int, coin: Coins, roll: Rolls, k: Token): Visit
    requires IsOrder(order, s.active.Keys) && k in s.active
  {
    Fate(s.active[k], Gate(m, coin, At(order, k)), now, roll(At(order, k)))
  }

  lemma EachMeetsItsFate(s: Session, m: Manager, order: seq<Token>, now: int, coin: Coins, roll: Rolls, k: Token)
    requires IsOrder(order, s.active.Keys) && k in s.active
    ensures Settled(Start(s, m), ExecuteAllOf(Start(s, m), order, now, coin, roll), k,
                    FateOf(s, m, order, now, coin, roll, k))
  {
    hide Fate, ExecuteAllOf;
    EachSettledOnce(Start(s, m), order, now, coin, roll, At(order, k));
  }

  ghost function StillActiveOrders(s: Session, m: Manager, order: seq<Token>, now: int, coin: Coins, roll: Rolls): Book
    requires IsOrder(order, s.active.Keys)
  {
    map k | k in s.active && FateOf(s, m, order, now, coin, roll, k).Keeps?
      :: FateOf(s, m, order, now, coin, roll, k).order
  }

  ghost function NewlyFinished(s: Session, m: Manager, order: seq<Token>, now: int, coin: Coins, roll: Rolls): Book
    requires IsOrder(order, s.active.Keys)
  {
    map k | k in s.active && FateOf(s, m, order, now, coin, roll, k).Finishes?
      :: FateOf(s, m, order, now, coin, roll, k).order
  }

  lemma SameBooks(b1: Book, b2: Book)
    requires forall k :: SameAt(b1, b2, k)
    ensures b1 == b2
  {
    forall k ensures (k in b1 <==> k in b2) && (k in b1 ==> b1[k] == b2[k]) {
      assert SameAt(b1, b2, k);
    }
  }

  /** The pass in one shot: the orders that keep their place stay, those that have nothing left are finished, the
      rest is dropped; no other key appears or changes. */
  lemma ExecutionIsPartition(s: Session, m: Manager, order: seq<Token>, now: int, coin: Coins, roll: Rolls)
    requires IsOrder(order, s.active.Keys)
    ensures var r := ExecutionLogic(s, m, order, now, coin, roll).s;
            && r.active == StillActiveOrders(s, m, order, now, coin, roll)
            && r.finished == s.finished + NewlyFinished(s, m, order, now, coin, roll)
            && r.log == s.log + Reports(s.active, m, order, now, coin, roll)
  {
    hide FateOf, ExecuteAllOf, Reports, Distinct;
    var p := Start(s, m);
    var q := ExecuteAllOf(p, order, now, coin, roll);
    PassReports(p, order, now, coin, roll);
    forall k | k in s.active
      ensures Settled(p, q, k, FateOf(s, m, order, now, coin, roll, k))
    {
      EachMeetsItsFate(s, m, order, now, coin, roll, k);
    }
    forall k | k !in s.active
      ensures Untouched(p, q, k)
    {
      UnvisitedUntouched(p, order, now, coin, roll, k);
    }
    var f := NewlyFinished(s, m, order, now, coin, roll);
    forall k
      ensures SameAt(s.finished + f, q.finished, k)
    {
      if k in s.active {
        assert Settled(p, q, k, FateOf(s, m, order, now, coin, roll, k));
      } else {
        assert Untouched(p, q, k);
      }
    }
    assert q.finished == s.finished + f by {
      SameBooks(s.finished + f, q.finished);
    }
  }

  /** Time in force in one pass over a book kept as every run keeps it. Immediate-or-cancel orders never get a fill and
      leave at the first admitted visit; MARKET and SYSTEM orders are not dropped; an order with a time of T seconds is
      dropped only when T seconds have passed since it was entered, and is dropped by then if it is admitted. The one
      reason ever reported is TimeOut, with the whole remaining quantity. */
  lemma TimeInForceRespected(s: Session, m: Manager, order: seq<Token>, now: int, coin: Coins, roll: Rolls, k: Token)
    requires WellKept(s) && IsOrder(order, s.active.Keys) && k in s.active
    ensures var o, v := s.active[k], FateOf(s, m, order, now, coin, roll, k);
            var admitted := Gate(m, coin, At(order, k));
            && (v.Drops? ==> v.messages == [Canceled(k, o.remaining, TimeOut)])
            && (o.timeInForce == IOC && admitted ==> v.Drops?)
            && (o.timeInForce in [MARKET, SYSTEM] ==> !v.Drops?)
            && (0 < o.timeInForce < TWO_TO_31 && o.received <= now && v.Drops? ==> now - o.received >= o.timeInForce)
            && (o.timeInForce !in [MARKET, SYSTEM] && o.timeInForce < TWO_TO_31 ==>
                  admitted && o.timeInForce <= now - o.received <= TWO_TO_31 ==> v.Drops?)
  {
    var o := s.active[k];
    hide At, Gate, Fill;
    ExpiryMeaning(o, now);
    if 0 < o.timeInForce < TWO_TO_31 && o.received <= now && Expired(o, now).yes {
      TimeOutIsDue(o, now);
    }
  }

  /** The walk does not matter: when every order meets the same answer and the same roll in two walks of the book, the
      books afterwards are the same. */
  lemma WalkDoesNotMatter(s: Session, m: Manager, order1: seq<Token>, order2: seq<Token>, now: int, coin1: Coins,
                          coin2: Coins, roll1: Rolls, roll2: Rolls)
    requires IsOrder(order1, s.active.Keys) && IsOrder(order2, s.active.Keys)
    requires forall k :: k in s.active ==>
               && Gate(m, coin1, At(order1, k)) == Gate(m, coin2, At(order2, k))
               && roll1(At(order1, k)) == roll2(At(order2, k))
    ensures var r1 := ExecutionLogic(s, m, order1, now, coin1, roll1).s;
            var r2 := ExecutionLogic(s, m, order2, now, coin2, roll2).s;
            r1.active == r2.active && r1.finished == r2.finished
  {
    hide ExecutionLogic, Reports, IsOrder, FateOf, Gate, StillActiveOrders, NewlyFinished;
    ExecutionIsPartition(s, m, order1, now, coin1, roll1);
    ExecutionIsPartition(s, m, order2, now, coin2, roll2);
    SamePartition(s, m, order1, order2, now, coin1, coin2, roll1, roll2);
  }

  lemma SamePartition(s: Session, m: Manager, order1: seq<Token>, order2: seq<Token>, now: int, coin1: Coins,
                      coin2: Coins, roll1: Rolls, roll2: Rolls)
    requires IsOrder(order1, s.active.Keys) && IsOrder(order2, s.active.Keys)
    requires forall k :: k in s.active ==>
               && Gate(m, coin1, At(order1, k)) == Gate(m, coin2, At(order2, k))
               && roll1(At(order1, k)) == roll2(At(order2, k))
    ensures StillActiveOrders(s, m, order1, now, coin1, roll1) == StillActiveOrders(s, m, order2, now, coin2, roll2)
    ensures NewlyFinished(s, m, order1, now, coin1, roll1) == NewlyFinished(s, m, order2, now, coin2, roll2)
  {
    hide IsOrder, FateOf, Gate;
    forall k | k in s.active
      ensures FateOf(s, m, order1, now, coin1, roll1, k) == FateOf(s, m, order2, now, coin2, roll2, k)
    {
      SameFate(s, m, order1, order2, now, coin1, coin2, roll1, roll2, k);
    }
  }

  lemma SameFate(s: Session, m: Manager, order1: seq<Token>, order2: seq<Token>, now: int, coin1: Coins, coin2: Coins,
                 roll1: Rolls, roll2: Rolls, k: Token)
    requires IsOrder(order1, s.active.Keys) && IsOrder(order2, s.active.Keys) && k in s.active
    requires Gate(m, coin1, At(order1, k)) == Gate(m, coin2, At(order2, k))
    requires roll1(At(order1, k)) == roll2(At(order2, k))
    ensures FateOf(s, m, order1, now, coin1, roll1, k) == FateOf(s, m, order2, now, coin2, roll2, k)
  {
  }
}
