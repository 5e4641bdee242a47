/** How long an order without minimum quantity stays in the book when nobody names it and its time does not run out:
    every admitted execution pass fills between 100 and 1000 shares, and one more pass moves it away. */
module OuchProgress {
  import opened Bytes
  import opened OuchOrders
  import opened Ouch
  import opened Walks
  import opened OuchKeys
  import opened OuchExecution
  import Behavior

  // ---------------------------------------------------------------- passes that do not name a key

  ghost predicate SparedByQueues(s: Session, k: Token) {
    && (forall i :: 0 <= i < |s.pendingCancel| ==> s.pendingCancel[i].token != k)
    && (forall i :: 0 <= i < |s.pendingModify| ==> s.pendingModify[i].token != k)
    && (forall i :: 0 <= i < |s.pendingReplace| ==>
          s.pendingReplace[i].existing != k && s.pendingReplace[i].token != k)
  }

  /** The key, its order and its absence from the marked keys are as before. */
  ghost predicate KeyKept(p: Phase, r: Phase, k: Token) {
    SameAt(p.active, r.active, k) && r.finished == p.finished && (k in r.done <==> k in p.done)
  }

  lemma {:induction false} CancelsSpare(p: Phase, reqs: seq<CancelOrder>, coin: Coins, k: Token)
    requires forall i :: 0 <= i < |reqs| ==> reqs[i].token != k
    ensures KeyKept(p, CancelAllOf(p, reqs, coin), k)
  {
    hide Behavior.Ask;
    if reqs != [] {
      CancelsSpare(p, reqs[..|reqs| - 1], coin, k);
    }
  }

  lemma {:induction false} ModifiesSpare(p: Phase, reqs: seq<ModifyOrder>, k: Token)
    requires forall i :: 0 <= i < |reqs| ==> reqs[i].token != k
    requires PassKept(p, {})
    ensures KeyKept(p, ModifyAllOf(p, reqs), k)
  {
    hide Admissible, NeverImmediate, TermsKept;
    if reqs != [] {
      var n := |reqs| - 1;
      ModifiesSpare(p, reqs[..n], k);
      ModifyKeepsKeys(p, reqs[..n]);
    }
  }

  lemma {:induction false} ReplacesSpare(p: Phase, reqs: seq<ReplaceOrder>, junk: Junk, k: Token)
    requires forall i :: 0 <= i < |reqs| ==> reqs[i].existing != k && reqs[i].token != k
    ensures KeyKept(p, ReplaceAllOf(p, reqs, junk), k)
  {
    hide ReplacedMessage, Renewed, Closes;
    if reqs != [] {
      ReplacesSpare(p, reqs[..|reqs| - 1], junk, k);
    }
  }

  lemma BeforeExecutionSpares(s: Session, m: Manager, d: Draws, k: Token)
    requires WellKept(s) && SparedByQueues(s, k)
    ensures var b := BeforeExecution(s, m, d).s;
            SameAt(s.active, b.active, k) && b.finished == s.finished && SparedByQueues(b, k)
  {
    hide CancelAllOf, ModifyAllOf, ReplaceAllOf, NeverImmediate;
    var h := Heartbeat(s, d.now);
    var c := CancelLogic(h, m, d.cancelCoin);
    var o := ModifyLogic(c.s, c.m);
    HeartbeatKeeps(s, d.now);
    CancelsSpare(Start(h, m), h.pendingCancel, d.cancelCoin, k);
    CancelKeepsKeys(Start(h, m), h.pendingCancel, d.cancelCoin);
    ModifiesSpare(Start(c.s, c.m), c.s.pendingModify, k);
    ReplacesSpare(Start(o.s, o.m), o.s.pendingReplace, d.junk, k);
  }

  lemma HeartbeatKeeps(s: Session, now: int)
    requires WellKept(s)
    ensures WellKept(Heartbeat(s, now))
  {
  }

  // ---------------------------------------------------------------- progress of one order

  /** After `n` admitted passes an order that started with `q` shares left of `total` is still in the book, between
      the slowest and the fastest it can be; or it is finished, after a number of passes between the same bounds. */
  ghost predicate Progress(s: Session, k: Token, q: nat, total: int, n: nat) {
    if k in s.active then
      var o := s.active[k];
      && o.minQty == 0 && o.state == Live && o.executed + o.remaining == total
      && Max(0, q - 1000 * n) <= o.remaining <= Max(0, q - 100 * n)
      && n <= CeilDiv(q, 100)
    else
      && k in s.finished && s.finished[k].remaining == 0 && s.finished[k].executed == total
      && CeilDiv(q, 1000) + 1 <= n <= CeilDiv(q, 100) + 1
  }

  /** The execution pass of this tick visits key `k` and the manager lets the visit through. */
  ghost predicate AdmittedPass(s: Session, m: Manager, d: Draws, k: Token) {
    var b := BeforeExecution(s, m, d);
    && IsOrder(d.order, b.s.active.Keys) && k in s.active && k in b.s.active
    && Gate(b.m, d.executeCoin, At(d.order, k))
  }

  /** One admitted visit to an order whose time has not run out. */
  lemma VisitProgress(o: OuchOrder, q: nat, total: int, n: nat, now: int, roll: Roll)
    requires o.minQty == 0 && o.state == Live && o.executed + o.remaining == total
    requires Max(0, q - 1000 * n) <= o.remaining <= Max(0, q - 100 * n) && n <= CeilDiv(q, 100)
    requires TermsKept(o) && !Expired(o, now).yes
    ensures match VisitOrder(o, now, roll)
            case Keeps(o1, _) =>
              && o1.minQty == 0 && o1.state == Live && o1.executed + o1.remaining == total
              && Max(0, q - 1000 * (n + 1)) <= o1.remaining <= Max(0, q - 100 * (n + 1))
              && n + 1 <= CeilDiv(q, 100)
            case Finishes(o1) =>
              && o1.remaining == 0 && o1.executed == total && CeilDiv(q, 1000) + 1 <= n + 1 <= CeilDiv(q, 100) + 1
            case Drops(_, _) => false
  {
  }

  /** The partition of the book, read at one key. */
  lemma PartitionAt(s: Session, m: Manager, order: seq<Token>, now: int, coin: Coins, roll: Rolls, k: Token)
    requires IsOrder(order, s.active.Keys)
    ensures var r := ExecutionLogic(s, m, order, now, coin, roll).s;
            if k !in s.active then k !in r.active && SameAt(s.finished, r.finished, k)
            else match FateOf(s, m, order, now, coin, roll, k)
              case Keeps(o, _) => k in r.active && r.active[k] == o
              case Finishes(o) => k !in r.active && k in r.finished && r.finished[k] == o
              case Drops(_, _) => k !in r.active
  {
    hide ExecutionLogic, FateOf, Reports, IsOrder;
    ExecutionIsPartition(s, m, order, now, coin, roll);
  }

  lemma ExecutionProgress(s: Session, m: Manager, order: seq<Token>, now: int, coin: Coins, roll: Rolls, k: Token,
                          q: nat, total: int, n: nat)
    requires IsOrder(order, s.active.Keys) && Progress(s, k, q, total, n)
    requires k in s.active ==> TermsKept(s.active[k]) && !Expired(s.active[k], now).yes
    ensures var n1 := if k in s.active && Gate(m, coin, At(order, k)) then n + 1 else n;
            Progress(ExecutionLogic(s, m, order, now, coin, roll).s, k, q, total, n1)
  {
    hide ExecutionLogic, VisitOrder, Expired, CeilDiv, Gate, At, IsOrder, TermsKept;
    PartitionAt(s, m, order, now, coin, roll, k);
    if k in s.active {
      VisitProgress(s.active[k], q, total, n, now, roll(At(order, k)));
    }
  }

  lemma TickProgress(s: Session, m: Manager, d: Draws, k: Token, q: nat, total: int, n: nat)
    requires WellKept(s) && SparedByQueues(s, k) && IsOrder(d.order, BeforeExecution(s, m, d).s.active.Keys)
    requires Progress(s, k, q, total, n)
    requires k in s.active ==> !Expired(s.active[k], d.now).yes
    ensures Progress(Tick(s, m, d).s, k, q, total, if AdmittedPass(s, m, d, k) then n + 1 else n)
    ensures SparedByQueues(Tick(s, m, d).s, k)
  {
    hide BeforeExecution, Expired, NeverImmediate, ExecuteAllOf, CeilDiv, Max, Gate, At, IsOrder, TermsKept;
    var b := BeforeExecution(s, m, d);
    BeforeExecutionSpares(s, m, d, k);
    BeforeExecutionKeepsKeys(s, m, d);
    ExecutionProgress(b.s, b.m, d.order, d.now, d.executeCoin, d.roll, k, q, total, n);
  }

  /** The step does not name the key, cancels nothing wholesale, and finds its order's time not over. */
  predicate SparedBy(s: Session, step: Step, k: Token) {
    match step
    case DoModify(mo, _) => mo.token != k
    case DoReplace(ro, _) => ro.existing != k && ro.token != k
    case DoCancel(co, _) => co.token != k
    case DoCancelAll(_, _) => false
    case DoTick(d) => k in s.active ==> !Expired(s.active[k], d.now).yes
    case _ => true
  }

  lemma PacketProgress(s: Session, m: Manager, step: Step, k: Token, q: nat, total: int, n: nat)
    requires SparedByQueues(s, k) && SparedBy(s, step, k) && !step.DoTick? && Progress(s, k, q, total, n)
    ensures SparedByQueues(Apply(s, m, step).s, k) && Progress(Apply(s, m, step).s, k, q, total, n)
  {
    hide CeilDiv, Max, Expired, Behavior.Ask, AcceptedMessage, ValidEnter, ValidModify, ValidReplace, ValidCancel;
  }

  lemma StepProgress(s: Session, m: Manager, step: Step, k: Token, q: nat, total: int, n: nat)
    requires WellKept(s) && SparedByQueues(s, k) && Legal(s, m, step) && SparedBy(s, step, k)
    requires Progress(s, k, q, total, n)
    ensures var s1 := Apply(s, m, step).s;
            && SparedByQueues(s1, k)
            && Progress(s1, k, q, total, if step.DoTick? && AdmittedPass(s, m, step.draws, k) then n + 1 else n)
  {
    hide Tick, CeilDiv, Max, IsOrder, Expired, WellKept, Progress, SparedByQueues;
    match step
    case DoTick(d) => TickProgress(s, m, d, k, q, total, n);
    case _ => PacketProgress(s, m, step, k, q, total, n);
  }
}
