/** Which requests keep the client's ledger right: exactly, in terms of the requests waiting in the queues, and by rules
    that a client can keep without knowing what is filled. */
module OuchDiscipline {
  import opened Bytes
  import opened OuchOrders
  import opened Ouch
  import opened Walks
  import opened OuchKeys
  import opened OuchLedger
  import Behavior

  ghost predicate PassAgrees(p: Phase) {
    Agrees(p.active, p.done, Replay(p.log))
  }

  /** When a step keeps things right exactly if it is orderly, all is right throughout exactly if all steps are. */
  lemma {:induction false} StepByStep(right: nat -> bool, orderly: nat -> bool, n: nat)
    requires right(0) && forall i: nat :: i < n && right(i) ==> (right(i + 1) <==> orderly(i))
    ensures (forall i: nat :: i <= n ==> right(i)) <==> forall i: nat :: i < n ==> orderly(i)
  {
    if n > 0 {
      StepByStep(right, orderly, n - 1);
      assert right(n - 1) ==> (right(n - 1 + 1) <==> orderly(n - 1));
    }
  }

  // ---------------------------------------------------------------- cancels

  /** The ledger is right after every cancel of the pass exactly when the pass is orderly. */
  lemma CancelPassExact(p: Phase, reqs: seq<CancelOrder>, coin: Coins)
    requires SoundBook(p.active, {}, Replay(p.log)) && PassAgrees(p)
    ensures (forall i :: 0 <= i <= |reqs| ==> PassAgrees(CancelAllOf(p, reqs[..i], coin))) <==>
              CancelsOrderly(p, reqs, coin)
  {
    hide SoundBook, PassAgrees, CancelOrderly, Replay;
    var right := (i: nat) => i <= |reqs| && PassAgrees(CancelAllOf(p, reqs[..i], coin));
    var orderly := (i: nat) => i < |reqs| && CancelOrderly(CancelAllOf(p, reqs[..i], coin), reqs[i], coin(i));
    forall i: nat | i < |reqs| && right(i) ensures right(i + 1) <==> orderly(i) {
      assert reqs[..i + 1][..i] == reqs[..i];
      CancelsKeepSound(p, reqs[..i], coin);
      OneCancelExact(CancelAllOf(p, reqs[..i], coin), reqs[i], coin(i));
    }
    StepByStep(right, orderly, |reqs|);
    assert forall i :: 0 <= i <= |reqs| ==> (right(i) <==> PassAgrees(CancelAllOf(p, reqs[..i], coin)));
    assert forall i :: 0 <= i < |reqs| ==>
             (orderly(i) <==> CancelOrderly(CancelAllOf(p, reqs[..i], coin), reqs[i], coin(i)));
  }

  lemma OneCancelExact(p: Phase, co: CancelOrder, coin: bool)
    requires SoundBook(p.active, {}, Replay(p.log)) && PassAgrees(p)
    ensures PassAgrees(CancelStep(p, co, coin)) <==> CancelOrderly(p, co, coin)
  {
    hide SoundBook, Agrees, CancelStep, CancelOrderly, Replay;
    CancelStepExact(p, co, coin);
  }

  lemma CancelsKeepSound(p: Phase, reqs: seq<CancelOrder>, coin: Coins)
    requires SoundBook(p.active, {}, Replay(p.log))
    ensures var r := CancelAllOf(p, reqs, coin); SoundBook(r.active, {}, Replay(r.log))
  {
    hide SoundAt, CancelAllOf, Replay;
    var r := CancelAllOf(p, reqs, coin);
    forall k ensures SoundAt(r.active, {}, Replay(r.log), k) {
      CancelsAt(p, reqs, coin, k);
    }
  }

  /** The rule for cancels: in one tick, none of an order that the client has cancelled in full. */
  predicate SparingCancels(reqs: seq<CancelOrder>) {
    forall i, j :: 0 <= i < j < |reqs| && reqs[i].token == reqs[j].token ==> reqs[i].qty != 0
  }

  lemma {:induction false} CancelsMarkNot(p: Phase, reqs: seq<CancelOrder>, coin: Coins, k: Token)
    requires k !in p.done && forall i :: 0 <= i < |reqs| && reqs[i].token == k ==> reqs[i].qty != 0
    ensures k !in CancelAllOf(p, reqs, coin).done
  {
    hide Behavior.Ask;
    if reqs != [] {
      CancelsMarkNot(p, reqs[..|reqs| - 1], coin, k);
    }
  }

  lemma SparingIsOrderly(p: Phase, reqs: seq<CancelOrder>, coin: Coins)
    requires p.done == {} && SparingCancels(reqs)
    ensures CancelsOrderly(p, reqs, coin)
  {
    hide CancelAllOf, Behavior.Ask;
    forall i | 0 <= i < |reqs| ensures reqs[i].token !in CancelAllOf(p, reqs[..i], coin).done {
      CancelsMarkNot(p, reqs[..i], coin, reqs[i].token);
    }
  }

  // ---------------------------------------------------------------- modifies

  /** The side an order has after the requests: a function of the order and of the requests that name it. */
  function SideAfter(o: OuchOrder, reqs: seq<ModifyOrder>): byte {
    if reqs == [] then o.side
    else
      var mo, side := reqs[|reqs| - 1], SideAfter(o, reqs[..|reqs| - 1]);
      if mo.token == o.token && Admissible(side, mo.side) && o.executed < mo.qty then mo.side else side
  }

  /** Request `i` names the order and may change its side as it is then. */
  predicate Reaches(o: OuchOrder, reqs: seq<ModifyOrder>, i: nat)
    requires i < |reqs|
  {
    reqs[i].token == o.token && Admissible(SideAfter(o, reqs[..i]), reqs[i].side)
  }

  /** Request `i` closes the order, and the later request `j` gives it shares again. */
  predicate Reopened(o: OuchOrder, reqs: seq<ModifyOrder>, i: nat, j: nat)
    requires i < j < |reqs|
  {
    Reaches(o, reqs, i) && Reaches(o, reqs, j) && reqs[i].qty <= o.executed < reqs[j].qty
  }

  /** In the pass an order changes as its own requests say. */
  lemma {:induction false} ModifiesByOrder(p: Phase, reqs: seq<ModifyOrder>, k: Token)
    requires Keyed(p.active)
    ensures var r := ModifyAllOf(p, reqs);
            && Keyed(r.active) && r.finished == p.finished && (k in r.active <==> k in p.active)
            && (k in p.active ==>
                  r.active[k].side == SideAfter(p.active[k], reqs) && r.active[k].executed == p.active[k].executed)
  {
    hide Admissible;
    if reqs != [] {
      ModifiesByOrder(p, reqs[..|reqs| - 1], k);
    }
  }

  ghost predicate Closing(o: OuchOrder, reqs: seq<ModifyOrder>) {
    exists i :: 0 <= i < |reqs| && Reaches(o, reqs, i) && reqs[i].qty <= o.executed
  }

  lemma ClosingOneMore(o: OuchOrder, reqs: seq<ModifyOrder>)
    requires reqs != []
    ensures var n := |reqs| - 1;
            Closing(o, reqs) <==> Closing(o, reqs[..n]) || (Reaches(o, reqs, n) && reqs[n].qty <= o.executed)
  {
    hide SideAfter, Admissible;
    var n := |reqs| - 1;
    forall i | 0 <= i < n
      ensures Reaches(o, reqs[..n], i) <==> Reaches(o, reqs, i)
    {
      assert reqs[..n][..i] == reqs[..i];
    }
    if Closing(o, reqs[..n]) {
      var i :| 0 <= i < n && Reaches(o, reqs[..n], i) && reqs[..n][i].qty <= o.executed;
      assert Reaches(o, reqs, i) && reqs[i].qty <= o.executed;
    }
    if i :| 0 <= i < n && Reaches(o, reqs, i) && reqs[i].qty <= o.executed {
      assert Reaches(o, reqs[..n], i) && reqs[..n][i].qty <= o.executed;
    }
  }

  /** An order is marked when one of its own requests closes it. */
  lemma {:induction false} ModifiesMark(p: Phase, reqs: seq<ModifyOrder>, k: Token)
    requires Keyed(p.active) && p.done == {}
    ensures k in ModifyAllOf(p, reqs).done <==> k in p.active && Closing(p.active[k], reqs)
  {
    hide Admissible, Closing, SideAfter;
    if reqs == [] {
      if k in p.active {
        NothingCloses(p.active, k);
      }
    } else {
      var n := |reqs| - 1;
      ModifiesMark(p, reqs[..n], k);
      ModifiesByOrder(p, reqs[..n], k);
      ModifiesByOrder(p, reqs[..n], reqs[n].token);
      if k in p.active {
        ClosingOneMore(p.active[k], reqs);
      }
    }
  }

  lemma NothingCloses(b: Book, k: Token)
    requires k in b
    ensures !Closing(b[k], [])
  {
  }

  lemma ReopensMeans(p: Phase, reqs: seq<ModifyOrder>, j: nat)
    requires Keyed(p.active) && p.done == {} && j < |reqs|
    ensures Reopens(ModifyAllOf(p, reqs[..j]), reqs[j]) <==>
              reqs[j].token in p.active && exists i :: 0 <= i < j && Reopened(p.active[reqs[j].token], reqs, i, j)
  {
    hide Admissible, ModifyAllOf, SideAfter;
    var k := reqs[j].token;
    ModifiesByOrder(p, reqs[..j], k);
    ModifiesMark(p, reqs[..j], k);
    if k in p.active {
      var o := p.active[k];
      forall i | 0 <= i < j ensures Reaches(o, reqs[..j], i) <==> Reaches(o, reqs, i) {
        assert reqs[..j][..i] == reqs[..i];
      }
      if Reopens(ModifyAllOf(p, reqs[..j]), reqs[j]) {
        var i :| 0 <= i < j && Reaches(o, reqs[..j], i) && reqs[..j][i].qty <= o.executed;
        assert Reopened(o, reqs, i, j);
      }
      if i :| 0 <= i < j && Reopened(o, reqs, i, j) {
        assert Reaches(o, reqs[..j], i) && reqs[..j][i].qty <= o.executed;
      }
    }
  }

  /** The pass of modifies is orderly exactly when no order meets a request for no more than it has executed and,
      further back in the queue, one for more. The queue holds every modify ever admitted. */
  lemma ModifiesOrderlyExact(p: Phase, reqs: seq<ModifyOrder>)
    requires Keyed(p.active) && p.done == {}
    ensures ModifiesOrderly(p, reqs) <==>
              forall i, j :: 0 <= i < j < |reqs| && reqs[j].token in p.active ==>
                !Reopened(p.active[reqs[j].token], reqs, i, j)
  {
    hide Reopened, Reopens, ModifyAllOf;
    forall j | 0 <= j < |reqs|
      ensures Reopens(ModifyAllOf(p, reqs[..j]), reqs[j]) <==>
                reqs[j].token in p.active && exists i :: 0 <= i < j && Reopened(p.active[reqs[j].token], reqs, i, j)
    {
      ReopensMeans(p, reqs, j);
    }
  }

  /** The rule for modifies: of one order, never more than was asked for before. */
  predicate FallingModifies(reqs: seq<ModifyOrder>) {
    forall i, j :: 0 <= i < j < |reqs| && reqs[i].token == reqs[j].token ==> reqs[j].qty <= reqs[i].qty
  }

  lemma FallingIsOrderly(p: Phase, reqs: seq<ModifyOrder>)
    requires Keyed(p.active) && p.done == {} && FallingModifies(reqs)
    ensures ModifiesOrderly(p, reqs)
  {
    hide Admissible, ModifiesOrderly, SideAfter;
    ModifiesOrderlyExact(p, reqs);
  }

  /** The quantity the last request for `k` asks for. */
  function Wanted(reqs: seq<ModifyOrder>, k: Token, otherwise: int): int {
    if reqs == [] then otherwise
    else if reqs[|reqs| - 1].token == k then reqs[|reqs| - 1].qty else Wanted(reqs[..|reqs| - 1], k, otherwise)
  }

  /** What the queue does to a buy order at every tick, as long as nobody asks for a sell side: the order is closed when
      it has executed as much as any request asked for, without being finished; otherwise it gets what the last request
      leaves, whatever it had before, a cancel of the same tick included. */
  lemma {:induction false} ModifiesAreRetried(p: Phase, reqs: seq<ModifyOrder>, k: Token)
    requires Keyed(p.active) && p.done == {} && k in p.active && !IsSell(p.active[k].side)
    requires forall i :: 0 <= i < |reqs| && reqs[i].token == k ==> !IsSell(reqs[i].side)
    ensures var o, r := p.active[k], ModifyAllOf(p, reqs);
            && k in r.active && !IsSell(r.active[k].side) && r.finished == p.finished
            && (k in r.done <==> exists i :: 0 <= i < |reqs| && reqs[i].token == k && reqs[i].qty <= o.executed)
            && (k !in r.done ==>
                  r.active[k].remaining == Wanted(reqs, k, o.executed + o.remaining) - o.executed)
  {
    if reqs != [] {
      var n := |reqs| - 1;
      ModifiesAreRetried(p, reqs[..n], k);
      ModifiesByOrder(p, reqs[..n], k);
      ModifiesByOrder(p, reqs[..n], reqs[n].token);
      hide Keyed;
      var o, q := p.active[k], ModifyAllOf(p, reqs[..n]);
      if k in q.done {
        var i :| 0 <= i < n && reqs[..n][i].token == k && reqs[..n][i].qty <= o.executed;
        assert reqs[i].token == k && reqs[i].qty <= o.executed;
      } else {
        forall i | 0 <= i < n && reqs[i].token == k ensures reqs[i].qty > o.executed {
          assert reqs[..n][i].token == k;
        }
      }
    }
  }

  /** What `ModifyStepExact` asks of the phase holds all through the pass. */
  lemma {:induction false} ModifiesKeepRows(p: Phase, reqs: seq<ModifyOrder>, k: Token)
    requires k in Replay(p.log)
    ensures k in Replay(ModifyAllOf(p, reqs).log)
  {
    hide Replay, Admissible;
    if reqs != [] {
      var n := |reqs| - 1;
      var q, mo := ModifyAllOf(p, reqs[..n]), reqs[n];
      ModifiesKeepRows(p, reqs[..n], k);
      if mo.token in q.active {
        var o := q.active[mo.token];
        ReplayOne(q.log, Modified(mo.token, mo.side, if o.executed >= mo.qty then 0 else mo.qty - o.executed));
      }
    }
  }

  lemma ModifiesKeepSound(p: Phase, reqs: seq<ModifyOrder>)
    requires forall i :: 0 <= i < |reqs| ==> ValidModify(reqs[i])
    requires SoundBook(p.active, {}, Replay(p.log)) && p.done == {}
    ensures var r := ModifyAllOf(p, reqs);
            && SoundBook(r.active, r.done, Replay(r.log))
            && (forall k :: k in r.active ==>
                  r.active[k].token == k && 0 <= r.active[k].executed && k in Replay(r.log))
  {
    hide ModifyAllOf, Replay, ValidModify;
    var r := ModifyAllOf(p, reqs);
    ExemptingDone(p.active, {}, Replay(p.log));
    forall k
      ensures SoundAt(r.active, r.done, Replay(r.log), k)
      ensures k in r.active ==> r.active[k].token == k && 0 <= r.active[k].executed && k in Replay(r.log)
    {
      assert SoundAt(p.active, {}, Replay(p.log), k);
      ModifiesAt(p, reqs, k);
      ModifiesKeepExecuted(p, reqs, k);
      if k in p.active {
        ModifiesKeepRows(p, reqs, k);
      }
    }
  }

  /** The ledger is right after every modify of the pass exactly when the pass is orderly. */
  lemma ModifyPassExact(p: Phase, reqs: seq<ModifyOrder>)
    requires forall i :: 0 <= i < |reqs| ==> ValidModify(reqs[i])
    requires SoundBook(p.active, {}, Replay(p.log)) && p.done == {} && PassAgrees(p)
    ensures (forall i :: 0 <= i <= |reqs| ==> PassAgrees(ModifyAllOf(p, reqs[..i]))) <==> ModifiesOrderly(p, reqs)
  {
    hide SoundBook, PassAgrees, Reopens, Replay, ValidModify;
    var right := (i: nat) => i <= |reqs| && PassAgrees(ModifyAllOf(p, reqs[..i]));
    var orderly := (i: nat) => i < |reqs| && !Reopens(ModifyAllOf(p, reqs[..i]), reqs[i]);
    forall i: nat | i < |reqs| && right(i) ensures right(i + 1) <==> orderly(i) {
      assert reqs[..i + 1][..i] == reqs[..i];
      ModifiesKeepSound(p, reqs[..i]);
      OneModifyExact(ModifyAllOf(p, reqs[..i]), reqs[i]);
    }
    StepByStep(right, orderly, |reqs|);
    assert forall i :: 0 <= i <= |reqs| ==> (right(i) <==> PassAgrees(ModifyAllOf(p, reqs[..i])));
    assert forall i :: 0 <= i < |reqs| ==> (orderly(i) <==> !Reopens(ModifyAllOf(p, reqs[..i]), reqs[i]));
  }

  lemma OneModifyExact(p: Phase, mo: ModifyOrder)
    requires ValidModify(mo) && SoundBook(p.active, p.done, Replay(p.log)) && PassAgrees(p)
    requires mo.token in p.active ==>
               p.active[mo.token].token == mo.token && 0 <= p.active[mo.token].executed && mo.token in Replay(p.log)
    ensures PassAgrees(ModifyStep(p, mo)) <==> !Reopens(p, mo)
  {
    hide SoundBook, Agrees, ModifyStep, Reopens, Replay;
    ModifyStepExact(p, mo);
  }

  // ---------------------------------------------------------------- replaces

  lemma ReplacePrefixExact(p: Phase, reqs: seq<ReplaceOrder>, junk: Junk, i: nat)
    requires forall i :: 0 <= i < |reqs| ==> ValidReplace(reqs[i])
    requires SoundBook(p.active, {}, Replay(p.log)) && ReplacesLive(p, reqs, junk)
    requires i < |reqs| && PassAgrees(ReplaceAllOf(p, reqs[..i], junk))
    ensures PassAgrees(ReplaceAllOf(p, reqs[..i + 1], junk)) <==>
              ReplaceOrderly(ReplaceAllOf(p, reqs[..i], junk), reqs[i])
  {
    hide SoundBook, PassAgrees, ReplaceStep, ReplaceOrderly, Replay, ValidReplace;
    assert reqs[..i + 1][..i] == reqs[..i];
    assert forall h :: 0 <= h < i ==> reqs[..i][..h] == reqs[..h];
    ReplacesSound(p, reqs[..i], junk);
    OneReplaceExact(ReplaceAllOf(p, reqs[..i], junk), reqs[i], junk(i));
  }

  /** The ledger is right after every replace of the pass exactly when the pass is orderly. */
  lemma ReplacePassExact(p: Phase, reqs: seq<ReplaceOrder>, junk: Junk)
    requires forall i :: 0 <= i < |reqs| ==> ValidReplace(reqs[i])
    requires SoundBook(p.active, {}, Replay(p.log)) && ReplacesLive(p, reqs, junk) && PassAgrees(p)
    ensures (forall i :: 0 <= i <= |reqs| ==> PassAgrees(ReplaceAllOf(p, reqs[..i], junk))) <==>
              ReplacesOrderly(p, reqs, junk)
  {
    hide SoundBook, PassAgrees, ReplaceOrderly, Replay, ValidReplace;
    var right := (i: nat) => i <= |reqs| && PassAgrees(ReplaceAllOf(p, reqs[..i], junk));
    var orderly := (i: nat) => i < |reqs| && ReplaceOrderly(ReplaceAllOf(p, reqs[..i], junk), reqs[i]);
    forall i: nat | i < |reqs| && right(i) ensures right(i + 1) <==> orderly(i) {
      ReplacePrefixExact(p, reqs, junk, i);
    }
    hide ReplaceAllOf;
    StepByStep(right, orderly, |reqs|);
    assert forall i :: 0 <= i <= |reqs| ==> (right(i) <==> PassAgrees(ReplaceAllOf(p, reqs[..i], junk)));
    assert forall i :: 0 <= i < |reqs| ==> (orderly(i) <==> ReplaceOrderly(ReplaceAllOf(p, reqs[..i], junk), reqs[i]));
  }

  lemma OneReplaceExact(p: Phase, ro: ReplaceOrder, junk: OuchOrder)
    requires ValidReplace(ro) && ro.existing in p.active
    requires SoundBook(p.active, {}, Replay(p.log)) && PassAgrees(p)
    ensures PassAgrees(ReplaceStep(p, ro, junk)) <==> ReplaceOrderly(p, ro)
  {
    hide SoundBook, Agrees, ReplaceStep, ReplaceOrderly, Replay;
    ReplaceStepExact(p, ro, junk);
  }

  /** The rule for replaces: in one tick, no order twice, and to no token that the same or an earlier one replaces. */
  predicate PlainReplaces(reqs: seq<ReplaceOrder>) {
    && (forall i, j :: 0 <= i < j < |reqs| ==> reqs[i].existing != reqs[j].existing)
    && (forall i, j :: 0 <= i <= j < |reqs| ==> reqs[j].token != reqs[i].existing)
  }

  lemma {:induction false} ReplacesMarkNot(p: Phase, reqs: seq<ReplaceOrder>, junk: Junk, k: Token)
    requires k !in p.done && forall i :: 0 <= i < |reqs| ==> reqs[i].existing != k
    ensures k !in ReplaceAllOf(p, reqs, junk).done
  {
    hide ReplacedMessage, Renewed, Closes;
    if reqs != [] {
      ReplacesMarkNot(p, reqs[..|reqs| - 1], junk, k);
    }
  }

  lemma PlainIsOrderly(p: Phase, reqs: seq<ReplaceOrder>, junk: Junk)
    requires p.done == {} && PlainReplaces(reqs) && ReplacesLive(p, reqs, junk)
    ensures ReplacesOrderly(p, reqs, junk)
  {
    hide ReplaceAllOf, Closes;
    forall i | 0 <= i < |reqs| ensures ReplaceOrderly(ReplaceAllOf(p, reqs[..i], junk), reqs[i]) {
      ReplacesMarkNot(p, reqs[..i], junk, reqs[i].existing);
      ReplacesMarkNot(p, reqs[..i], junk, reqs[i].token);
    }
  }

  // ---------------------------------------------------------------- steps

  /** The cancels and replaces waiting at a tick keep their rules, and replaces name live orders; cancel_all meets no
      expired order. */
  ghost predicate KeepsRules(s: Session, m: Manager, step: Step) {
    match step
    case DoTick(d) =>
      SparingCancels(s.pendingCancel) && PlainReplaces(s.pendingReplace) && LiveStep(s, m, step)
    case DoCancelAll(_, now) => NoneOverlooked(s.active, now)
    case _ => true
  }

  lemma RulesAreLive(s: Session, m: Manager, step: Step)
    requires KeepsRules(s, m, step)
    ensures LiveStep(s, m, step)
  {
  }

  lemma RulesAreOrderly(s: Session, m: Manager, step: Step)
    requires SoundSession(s) && FallingModifies(s.pendingModify) && KeepsRules(s, m, step)
    ensures OrderlyStep(s, m, step)
  {
    hide SparingCancels, FallingModifies, PlainReplaces, ReplacesLive, CancelsOrderly, ModifiesOrderly, ReplacesOrderly,
         CancelAllOf, ModifyAllOf, Replay, FinishedBook, NoneOverlooked, SoundAt;
    if step.DoTick? {
      var d := step.draws;
      var h := Heartbeat(s, d.now);
      var c := AfterCancel(s, m, d);
      var o := AfterModify(s, m, d);
      HeartbeatSound(s, d.now);
      CancelLogicSound(h, m, d.cancelCoin);
      ExemptingDone(c.s.active, {}, Replay(c.s.log));
      SparingIsOrderly(Start(h, m), h.pendingCancel, d.cancelCoin);
      FallingIsOrderly(Start(c.s, c.m), c.s.pendingModify);
      PlainIsOrderly(Start(o.s, o.m), o.s.pendingReplace, d.junk);
    }
  }
}
