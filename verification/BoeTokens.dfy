/** Clients that never reuse a token: each modify takes effect at most once, although the queue of modifies is never
    cleared, and the last message about an order tells what is left of it. */
module BoeTokens {
  import opened Bytes
  import opened Boe
  import opened Walks
  import Behavior

  // ---------------------------------------------------------------- reading the log

  /** How often a modify to token `t` took effect. */
  function Effects(log: Log, t: Token): nat {
    if log == [] then 0
    else
      var e := log[|log| - 1];
      Effects(log[..|log| - 1], t) + if e.OrderModified? && e.token == t then 1 else 0
  }

  datatype Leaves = Unknown | Known(leaves: uint32)

  /** The leaves quantity in the last acknowledgement, execution or modification that names `t`. */
  function LastLeaves(log: Log, t: Token): Leaves {
    if log == [] then Unknown
    else
      match log[|log| - 1]
      case OrderAck(_, u, _, leaves) => if u == t then Known(leaves) else LastLeaves(log[..|log| - 1], t)
      case OrderExecution(_, u, _, _, leaves) => if u == t then Known(leaves) else LastLeaves(log[..|log| - 1], t)
      case OrderModified(u, _, _, _, leaves) => if u == t then Known(leaves) else LastLeaves(log[..|log| - 1], t)
      case _ => LastLeaves(log[..|log| - 1], t)
  }

  /** The token the order under `t` had before a modify gave it this one. */
  function Original(queue: seq<ModifyOrder>, t: Token): Token {
    if queue == [] then t
    else
      var mo := queue[|queue| - 1];
      if mo.token == t then mo.original else Original(queue[..|queue| - 1], t)
  }

  /** The shares reported as executed for the order under `t` since it was acknowledged, under this and, back along its
      modifies, under its earlier tokens. */
  function Filled(log: Log, queue: seq<ModifyOrder>, t: Token): int {
    if log == [] then 0
    else
      var before := log[..|log| - 1];
      match log[|log| - 1]
      case OrderAck(_, u, _, _) => if u == t then 0 else Filled(before, queue, t)
      case OrderExecution(_, u, shares, _, _) => Filled(before, queue, t) + if u == t then shares else 0
      case OrderModified(u, _, _, _, _) => Filled(before, queue, if u == t then Original(queue, t) else t)
      case _ => Filled(before, queue, t)
  }

  lemma ReadOne(log: Log, e: Event, queue: seq<ModifyOrder>, t: Token)
    ensures Effects(log + [e], t) == Effects(log, t) + if e.OrderModified? && e.token == t then 1 else 0
    ensures LastLeaves(log + [e], t)
         == if (e.OrderAck? || e.OrderExecution? || e.OrderModified?) && e.token == t then Known(e.leaves)
            else LastLeaves(log, t)
    ensures Filled(log + [e], queue, t)
         == if e.OrderAck? && e.token == t then 0
            else if e.OrderExecution? && e.token == t then Filled(log, queue, t) + e.shares
            else if e.OrderModified? && e.token == t then Filled(log, queue, Original(queue, t))
            else Filled(log, queue, t)
  {
    assert (log + [e])[..|log|] == log;
  }

  // ---------------------------------------------------------------- discipline and invariant

  /** The tokens a step introduces. */
  function Introduces(step: Step): set<Token> {
    match step
    case DoEnter(no, _, _) => {no.token}
    case DoModify(mo, _) => {mo.token}
    case _ => {}
  }

  /** No token is introduced twice, and only orders in the book are cancelled. */
  predicate Disciplined(s: Session, used: set<Token>, step: Step) {
    && Introduces(step) !! used
    && (step.DoCancel? ==> step.token in s.active)
  }

  /** An order under key `k`: its own token, in range, and known to the client, what is left as well as what was
      executed. */
  ghost predicate OrderKnown(b: Book, queue: seq<ModifyOrder>, log: Log, used: set<Token>, k: Token) {
    k in b ==>
      && k in used && b[k].token == k
      && 0 <= b[k].executed && 0 <= b[k].remaining && b[k].executed + b[k].remaining < TWO_TO_32
      && LastLeaves(log, k) == Known(b[k].remaining)
      && Filled(log, queue, k) == b[k].executed
  }

  /** A modify in the queue either had no effect yet, and its new token is nowhere, or it had one and its original
      token is gone. */
  ghost predicate ModifyOnce(active: Book, finished: Book, log: Log, used: set<Token>, mo: ModifyOrder) {
    && mo.token in used && mo.original in used && mo.original != mo.token
    && Effects(log, mo.token) <= 1
    && (Effects(log, mo.token) == 0 ==> mo.token !in active && mo.token !in finished)
    && (Effects(log, mo.token) == 1 ==> mo.original !in active)
  }

  /** The original token of one request is not the still unborn token of another. */
  ghost predicate Unrelated(log: Log, m1: ModifyOrder, m2: ModifyOrder) {
    Effects(log, m1.token) == 0 ==> m2.original != m1.token
  }

  /** The message reports request `mo` truthfully for an order that had executed so many shares: the larger of the
      quantity asked for and the executed one, and what is left of the quantity asked for. */
  predicate Answers(mo: ModifyOrder, executed: int, e: Event) {
    && e.OrderModified? && e.token == mo.token && e.price == mo.price
    && e.qty == Max(mo.qty, executed) && e.leaves == Max(0, mo.qty - executed)
  }

  /** Message number `i`, if it is an OrderModified, answers a request of the queue, with the shares that were reported
      as executed before it for the order that the request names. */
  ghost predicate Answered(queue: seq<ModifyOrder>, log: Log, i: nat)
    requires i < |log|
  {
    log[i].OrderModified? ==>
      exists j :: 0 <= j < |queue| && Answers(queue[j], Filled(log[..i], queue, queue[j].original), log[i])
  }

  ghost predicate Tidy(active: Book, finished: Book, queue: seq<ModifyOrder>, log: Log, used: set<Token>) {
    && (forall k :: OrderKnown(active, queue, log, used, k))
    && (forall k :: k in finished ==> k in used)
    && (forall i :: 0 <= i < |queue| ==> ModifyOnce(active, finished, log, used, queue[i]))
    && (forall i, j :: 0 <= i < j < |queue| ==> queue[i].token != queue[j].token)
    && (forall i, j :: 0 <= i < |queue| && 0 <= j < |queue| ==> Unrelated(log, queue[i], queue[j]))
    && (forall t :: t !in used ==> Effects(log, t) == 0)
    && (forall i :: 0 <= i < |log| ==> Answered(queue, log, i))
  }

  ghost predicate TidySession(s: Session, used: set<Token>) {
    Tidy(s.active, s.finished, s.pendingModify, s.log, used)
  }

  lemma AnsweredLonger(queue: seq<ModifyOrder>, log: Log, e: Event)
    requires forall i :: 0 <= i < |log| ==> Answered(queue, log, i)
    requires Answered(queue, log + [e], |log|)
    ensures forall i :: 0 <= i < |log + [e]| ==> Answered(queue, log + [e], i)
  {
    hide Answers, Filled;
    forall i | 0 <= i < |log| ensures Answered(queue, log + [e], i) {
      assert (log + [e])[..i] == log[..i];
      assert Answered(queue, log, i);
    }
  }

  lemma OneHarmless(active: Book, finished: Book, queue: seq<ModifyOrder>, log: Log, used: set<Token>, e: Event)
    requires Tidy(active, finished, queue, log, used)
    requires !e.OrderModified? && !e.OrderAck? && !e.OrderExecution?
    ensures Tidy(active, finished, queue, log + [e], used)
  {
    hide Effects, LastLeaves, Filled;
    forall t
      ensures Effects(log + [e], t) == Effects(log, t) && LastLeaves(log + [e], t) == LastLeaves(log, t)
              && Filled(log + [e], queue, t) == Filled(log, queue, t)
    {
      ReadOne(log, e, queue, t);
    }
    AnsweredLonger(queue, log, e);
    hide Answered;
    forall k ensures OrderKnown(active, queue, log + [e], used, k) {
      assert OrderKnown(active, queue, log, used, k);
    }
    forall i, j | 0 <= i < |queue| && 0 <= j < |queue| ensures Unrelated(log + [e], queue[i], queue[j]) {
      assert Unrelated(log, queue[i], queue[j]);
    }
  }

  /** Removing orders from the book, or moving them to the finished ones, keeps everything. */
  lemma FewerOrders(active: Book, finished: Book, queue: seq<ModifyOrder>, log: Log, used: set<Token>, active1: Book,
                    finished1: Book)
    requires Tidy(active, finished, queue, log, used)
    requires forall k :: k in active1 ==> k in active && active1[k] == active[k]
    requires forall k :: k in finished1 ==> k in finished || k in active
    ensures Tidy(active1, finished1, queue, log, used)
  {
    hide Effects, LastLeaves, Filled, Answered;
    forall k ensures OrderKnown(active1, queue, log, used, k) {
      assert OrderKnown(active, queue, log, used, k);
    }
    forall k | k in finished1 ensures k in used {
      assert OrderKnown(active, queue, log, used, k);
    }
  }

  // ---------------------------------------------------------------- the passes

  lemma {:induction false} CancelsTidy(p: Phase, reqs: seq<Token>, coin: Coins, queue: seq<ModifyOrder>,
                                       used: set<Token>)
    requires Tidy(p.active, p.finished, queue, p.log, used)
    ensures var r := CancelAllOf(p, reqs, coin);
            && Tidy(r.active, r.finished, queue, r.log, used)
  {
    hide Tidy, Behavior.Ask;
    if reqs != [] {
      var n := |reqs| - 1;
      var q := CancelAllOf(p, reqs[..n], coin);
      CancelsTidy(p, reqs[..n], coin, queue, used);
      OneHarmless(q.active, q.finished, queue, q.log, used, CancelRejected(reqs[n], TooLateToCancel));
      OneHarmless(q.active, q.finished, queue, q.log, used, CancelRejected(reqs[n], Unforeseen));
      OneHarmless(q.active, q.finished, queue, q.log, used, OrderCanceled(reqs[n]));
    }
  }

  /** The keys a pass of modifies marks for erasure are original tokens that are already gone. */
  ghost predicate MarksGone(p: Phase, queue: seq<ModifyOrder>) {
    && p.done !! p.active.Keys
    && forall t :: t in p.done ==> exists i :: 0 <= i < |queue| && queue[i].original == t
  }

  /** One modify: at most its own two tokens are concerned. */
  lemma ModifyStepTidy(p: Phase, queue: seq<ModifyOrder>, i: nat, junk: BoeOrder, used: set<Token>)
    requires i < |queue| && Tidy(p.active, p.finished, queue, p.log, used) && MarksGone(p, queue)
    ensures var r := ModifyStep(p, queue[i], junk);
            Tidy(r.active, r.finished, queue, r.log, used) && MarksGone(r, queue)
  {
    hide Effects, LastLeaves, Filled;
    var mo := queue[i];
    if mo.original in p.active {
      var r := ModifyStep(p, mo, junk);
      var o := p.active[mo.original];
      var e := ModifiedMessage(Amended(mo, o));
      assert ModifyOnce(p.active, p.finished, p.log, used, mo);
      assert OrderKnown(p.active, queue, p.log, used, mo.original);
      assert r.active == p.active[mo.token := Amended(mo, o)] - {mo.original};
      assert r.log == p.log + [e];
      OriginalOf(queue, i);
      forall t
        ensures Effects(r.log, t) == Effects(p.log, t) + if t == mo.token then 1 else 0
        ensures t != mo.token ==> LastLeaves(r.log, t) == LastLeaves(p.log, t)
                                  && Filled(r.log, queue, t) == Filled(p.log, queue, t)
        ensures LastLeaves(r.log, mo.token) == Known(U32(Amended(mo, o).remaining))
        ensures Filled(r.log, queue, mo.token) == Filled(p.log, queue, mo.original)
      {
        ReadOne(p.log, e, queue, t);
        ReadOne(p.log, e, queue, mo.token);
      }
      assert Answered(queue, r.log, |p.log|) by {
        AmendedAnswers(mo, o);
        assert r.log[..|p.log|] == p.log;
      }
      AnsweredLonger(queue, p.log, e);
      hide Answered, Original;
      ModifyMovesOne(p, queue, i, r, used);
    }
  }

  lemma {:induction false} OriginalOf(queue: seq<ModifyOrder>, i: nat)
    requires i < |queue| && forall i, j :: 0 <= i < j < |queue| ==> queue[i].token != queue[j].token
    ensures Original(queue, queue[i].token) == queue[i].original
  {
    if i < |queue| - 1 {
      OriginalOf(queue[..|queue| - 1], i);
    }
  }

  /** Which entries and which readings of the log one modify changes. */
  ghost predicate Moved(p: Phase, queue: seq<ModifyOrder>, mo: ModifyOrder, r: Phase) {
    && mo.original in p.active
    && r.active == p.active[mo.token := Amended(mo, p.active[mo.original])] - {mo.original}
    && r.finished == p.finished && r.done <= p.done + {mo.original} && p.done <= r.done
    && (forall t :: Effects(r.log, t) == Effects(p.log, t) + if t == mo.token then 1 else 0)
    && (forall t :: t != mo.token ==> LastLeaves(r.log, t) == LastLeaves(p.log, t))
    && (forall t :: t != mo.token ==> Filled(r.log, queue, t) == Filled(p.log, queue, t))
    && LastLeaves(r.log, mo.token) == Known(U32(Amended(mo, p.active[mo.original]).remaining))
    && Filled(r.log, queue, mo.token) == Filled(p.log, queue, mo.original)
  }

  lemma MovedIsKnown(p: Phase, queue: seq<ModifyOrder>, mo: ModifyOrder, r: Phase, used: set<Token>, k: Token)
    requires Moved(p, queue, mo, r) && mo.token in used && mo.token != mo.original
    requires OrderKnown(p.active, queue, p.log, used, mo.original) && OrderKnown(p.active, queue, p.log, used, k)
    ensures OrderKnown(r.active, queue, r.log, used, k)
  {
    hide Effects, LastLeaves, Filled;
  }

  lemma ModifyMovesOne(p: Phase, queue: seq<ModifyOrder>, i: nat, r: Phase, used: set<Token>)
    requires i < |queue| && Tidy(p.active, p.finished, queue, p.log, used) && MarksGone(p, queue)
    requires Moved(p, queue, queue[i], r)
    requires forall j :: 0 <= j < |r.log| ==> Answered(queue, r.log, j)
    ensures Tidy(r.active, r.finished, queue, r.log, used) && MarksGone(r, queue)
  {
    hide Effects, LastLeaves, Filled, Answered, OrderKnown, Amended;
    var mo := queue[i];
    assert ModifyOnce(p.active, p.finished, p.log, used, mo);
    forall k ensures OrderKnown(r.active, queue, r.log, used, k) {
      MovedIsKnown(p, queue, mo, r, used, k);
    }
    forall j | 0 <= j < |queue| ensures ModifyOnce(r.active, r.finished, r.log, used, queue[j]) {
      assert ModifyOnce(p.active, p.finished, p.log, used, queue[j]);
      assert Unrelated(p.log, mo, queue[j]);
    }
    forall j, k | 0 <= j < |queue| && 0 <= k < |queue| ensures Unrelated(r.log, queue[j], queue[k]) {
      assert Unrelated(p.log, queue[j], queue[k]);
    }
    forall t | t in r.done
      ensures t !in r.active && exists j :: 0 <= j < |queue| && queue[j].original == t
    {
      if t != mo.original {
        assert t in p.done;
        var j :| 0 <= j < |queue| && queue[j].original == t;
        assert Unrelated(p.log, mo, queue[j]);
      }
    }
  }

  lemma AmendedAnswers(mo: ModifyOrder, o: BoeOrder)
    requires 0 <= o.executed < TWO_TO_32
    ensures Answers(mo, o.executed, ModifiedMessage(Amended(mo, o)))
  {
  }

  lemma {:induction false} ModifiesTidy(p: Phase, n: nat, junk: Junk, queue: seq<ModifyOrder>, used: set<Token>)
    requires n <= |queue| && Tidy(p.active, p.finished, queue, p.log, used) && MarksGone(p, queue)
    ensures var r := ModifyAllOf(p, queue[..n], junk);
            Tidy(r.active, r.finished, queue, r.log, used) && MarksGone(r, queue)
  {
    hide Tidy, MarksGone, ModifyStep;
    if n > 0 {
      assert queue[..n][..n - 1] == queue[..n - 1];
      ModifiesTidy(p, n - 1, junk, queue, used);
      ModifyStepTidy(ModifyAllOf(p, queue[..n - 1], junk), queue, n - 1, junk(n - 1), used);
    }
  }

  // ---------------------------------------------------------------- fills

  /** A pass of fills moves shares from remaining to executed and touches nothing else of any order. */
  lemma {:induction false} FillsKeepTotals(p: Phase, order: seq<Token>, coin: Coins, roll: Rolls, k: Token)
    requires forall i :: 0 <= i < |order| ==> order[i] in p.active
    requires k in p.active
    ensures var o, o1 := p.active[k], ExecuteAllOf(p, order, coin, roll).active[k];
            && o1 == o.(remaining := o1.remaining, executed := o1.executed)
            && o1.executed + o1.remaining == o.executed + o.remaining
            && o.executed <= o1.executed && (0 <= o.remaining ==> 0 <= o1.remaining)
  {
    hide Behavior.Ask;
    if order != [] {
      FillsKeepTotals(p, order[..|order| - 1], coin, roll, k);
    }
  }

  lemma ExecuteStepTidy(p: Phase, k: Token, coin: bool, roll: Roll, queue: seq<ModifyOrder>, used: set<Token>)
    requires k in p.active && Tidy(p.active, p.finished, queue, p.log, used)
    ensures var r := ExecuteStep(p, k, coin, roll); Tidy(r.active, r.finished, queue, r.log, used)
  {
    hide Effects, LastLeaves, Filled, Behavior.Ask;
    var r := ExecuteStep(p, k, coin, roll);
    assert OrderKnown(p.active, queue, p.log, used, k);
    if r.log == p.log {
      FewerOrders(p.active, p.finished, queue, p.log, used, r.active, r.finished);
    } else {
      var e := r.log[|p.log|];
      assert r.log == p.log + [e];
      forall t
        ensures Effects(r.log, t) == Effects(p.log, t)
        ensures LastLeaves(r.log, t) == if t == k then Known(r.active[k].remaining) else LastLeaves(p.log, t)
        ensures Filled(r.log, queue, t) == if t == k then r.active[k].executed else Filled(p.log, queue, t)
      {
        ReadOne(p.log, e, queue, t);
      }
      AnsweredLonger(queue, p.log, e);
      hide Answered;
      forall j ensures OrderKnown(r.active, queue, r.log, used, j) {
        assert OrderKnown(p.active, queue, p.log, used, j);
      }
      forall i | 0 <= i < |queue| ensures ModifyOnce(r.active, r.finished, r.log, used, queue[i]) {
        assert ModifyOnce(p.active, p.finished, p.log, used, queue[i]);
      }
      forall i, j | 0 <= i < |queue| && 0 <= j < |queue| ensures Unrelated(r.log, queue[i], queue[j]) {
        assert Unrelated(p.log, queue[i], queue[j]);
      }
    }
  }

  lemma {:induction false} ExecutesTidy(p: Phase, order: seq<Token>, coin: Coins, roll: Rolls, queue: seq<ModifyOrder>,
                                        used: set<Token>)
    requires forall i :: 0 <= i < |order| ==> order[i] in p.active
    requires Tidy(p.active, p.finished, queue, p.log, used)
    ensures var r := ExecuteAllOf(p, order, coin, roll); Tidy(r.active, r.finished, queue, r.log, used)
  {
    hide Tidy, ExecuteStep;
    if order != [] {
      var n := |order| - 1;
      var q := ExecuteAllOf(p, order[..n], coin, roll);
      ExecutesTidy(p, order[..n], coin, roll, queue, used);
      ExecuteStepTidy(q, order[n], coin(n), roll(n), queue, used);
    }
  }

  // ---------------------------------------------------------------- steps

  lemma MoreUsed(active: Book, finished: Book, queue: seq<ModifyOrder>, log: Log, used: set<Token>, used1: set<Token>)
    requires Tidy(active, finished, queue, log, used) && used <= used1
    ensures Tidy(active, finished, queue, log, used1)
  {
    hide Effects, LastLeaves, Filled;
    forall k ensures OrderKnown(active, queue, log, used1, k) {
      assert OrderKnown(active, queue, log, used, k);
    }
  }

  lemma EnterTidy(s: Session, m: Manager, no: NewOrder, id: uint64, coin: bool, used: set<Token>)
    requires TidySession(s, used) && no.token !in used
    ensures TidySession(Enter(s, m, no, id, coin).s, used + {no.token})
  {
    hide Effects, LastLeaves, Filled, Behavior.Ask;
    var r := Enter(s, m, no, id, coin).s;
    assert OrderKnown(s.active, s.pendingModify, s.log, used, no.token);
    if r.active == s.active {
      OneHarmless(s.active, s.finished, s.pendingModify, s.log, used, OrderRejected(no.token));
      MoreUsed(s.active, s.finished, s.pendingModify, r.log, used, used + {no.token});
    } else {
      var e := AckMessage(ParseOrder(no, id), U32(s.seqNum + 1));
      forall t
        ensures Effects(r.log, t) == Effects(s.log, t)
        ensures LastLeaves(r.log, t) == if t == no.token then Known(no.qty) else LastLeaves(s.log, t)
        ensures Filled(r.log, s.pendingModify, t) == if t == no.token then 0 else Filled(s.log, s.pendingModify, t)
      {
        ReadOne(s.log, e, s.pendingModify, t);
      }
      AnsweredLonger(s.pendingModify, s.log, e);
      hide Answered;
      forall k ensures OrderKnown(r.active, s.pendingModify, r.log, used + {no.token}, k) {
        assert OrderKnown(s.active, s.pendingModify, s.log, used, k);
      }
      forall i | 0 <= i < |s.pendingModify|
        ensures ModifyOnce(r.active, r.finished, r.log, used + {no.token}, s.pendingModify[i])
      {
        assert ModifyOnce(s.active, s.finished, s.log, used, s.pendingModify[i]);
      }
      forall i, j | 0 <= i < |s.pendingModify| && 0 <= j < |s.pendingModify|
        ensures Unrelated(r.log, s.pendingModify[i], s.pendingModify[j])
      {
        assert Unrelated(s.log, s.pendingModify[i], s.pendingModify[j]);
      }
    }
  }

  lemma {:induction false} EffectsBefore(log: Log, t: Token, i: nat)
    requires i <= |log|
    ensures Effects(log[..i], t) <= Effects(log, t)
  {
    if i < |log| {
      EffectsBefore(log[..|log| - 1], t, i);
      assert log[..|log| - 1][..i] == log[..i];
    } else {
      assert log[..i] == log;
    }
  }

  /** A request that took no effect yet does not change what is read from the log. */
  lemma {:induction false} FilledGrows(log: Log, queue: seq<ModifyOrder>, mo: ModifyOrder, t: Token)
    requires Effects(log, mo.token) == 0
    ensures Filled(log, queue + [mo], t) == Filled(log, queue, t)
  {
    if log != [] {
      var e, before := log[|log| - 1], log[..|log| - 1];
      assert (queue + [mo])[..|queue|] == queue;
      FilledGrows(before, queue, mo, if e.OrderModified? && e.token == t then Original(queue, t) else t);
    }
  }

  lemma StillAnswered(queue: seq<ModifyOrder>, mo: ModifyOrder, log: Log, i: nat)
    requires i < |log| && Answered(queue, log, i) && Effects(log, mo.token) == 0
    ensures Answered(queue + [mo], log, i)
  {
    hide Answers, Effects, Filled;
    if log[i].OrderModified? {
      var j :| 0 <= j < |queue| && Answers(queue[j], Filled(log[..i], queue, queue[j].original), log[i]);
      assert (queue + [mo])[j] == queue[j];
      EffectsBefore(log, mo.token, i);
      FilledGrows(log[..i], queue, mo, queue[j].original);
    }
  }

  lemma QueueModifyTidy(s: Session, m: Manager, mo: ModifyOrder, coin: bool, used: set<Token>)
    requires TidySession(s, used) && mo.token !in used
    ensures TidySession(QueueModify(s, m, mo, coin).s, used + {mo.token})
  {
    hide Effects, LastLeaves, Filled, Behavior.Ask, Answered;
    var r := QueueModify(s, m, mo, coin).s;
    var q, q1 := s.pendingModify, s.pendingModify + [mo];
    assert OrderKnown(s.active, q, s.log, used, mo.token) && OrderKnown(s.active, q, s.log, used, mo.original);
    if r.pendingModify == q {
      OneHarmless(s.active, s.finished, q, s.log, used, ModifyRejected(mo.original, UnknownOrder));
      OneHarmless(s.active, s.finished, q, s.log, used, ModifyRejected(mo.original, Unforeseen));
      MoreUsed(s.active, s.finished, q, r.log, used, used + {mo.token});
    } else {
      MoreUsed(s.active, s.finished, q, s.log, used, used + {mo.token});
      forall i | 0 <= i < |q1| ensures ModifyOnce(s.active, s.finished, s.log, used + {mo.token}, q1[i]) {
        assert i < |q| ==> q1[i] == q[i];
      }
      forall i | 0 <= i < |s.log| ensures Answered(q1, s.log, i) {
        StillAnswered(q, mo, s.log, i);
      }
      forall k ensures OrderKnown(s.active, q1, s.log, used + {mo.token}, k) {
        FilledGrows(s.log, q, mo, k);
        assert OrderKnown(s.active, q, s.log, used, k);
      }
      forall i, j | 0 <= i < j < |q1| ensures q1[i].token != q1[j].token {
        assert ModifyOnce(s.active, s.finished, s.log, used, q[i]);
        assert q1[i] == q[i];
      }
      forall i, j | 0 <= i < |q1| && 0 <= j < |q1| ensures Unrelated(s.log, q1[i], q1[j]) {
        if i < |q| && j < |q| {
          assert Unrelated(s.log, q[i], q[j]);
        } else if i < |q| {
          assert ModifyOnce(s.active, s.finished, s.log, used, q[i]);
        } else if j < |q| {
          assert ModifyOnce(s.active, s.finished, s.log, used, q[j]);
        }
      }
    }
  }

  lemma {:induction false} CancelAllTidy(active: Book, finished: Book, queue: seq<ModifyOrder>, log: Log, b: Book,
                                         order: seq<Token>, used: set<Token>)
    requires Tidy(active, finished, queue, log, used)
    requires forall i :: 0 <= i < |order| ==> order[i] in b
    ensures Tidy(active, finished, queue, CancelAllLog(log, b, order), used)
  {
    hide Tidy;
    if order != [] {
      var n := |order| - 1;
      CancelAllTidy(active, finished, queue, log, b, order[..n], used);
      OneHarmless(active, finished, queue, CancelAllLog(log, b, order[..n]), used, OrderCanceled(b[order[n]].token));
    }
  }

  lemma BeforeExecutionTidy(s: Session, m: Manager, d: Draws, used: set<Token>)
    requires TidySession(s, used)
    ensures TidySession(BeforeExecution(s, m, d).s, used)
  {
    hide Tidy, CancelAllOf, ModifyAllOf;
    var q := s.pendingModify;
    OneHarmless(s.active, s.finished, q, s.log, used, ServerHeartbeat);
    var h := Heartbeat(s, d.now);
    CancelsTidy(Start(h, m), h.pendingCancel, d.cancelCoin, q, used);
    var pc := CancelAllOf(Start(h, m), h.pendingCancel, d.cancelCoin);
    FewerOrders(pc.active, pc.finished, q, pc.log, used, pc.active - pc.done, pc.finished);
    var c := CancelLogic(h, m, d.cancelCoin);
    var p := Start(c.s, c.m);
    assert q[..|q|] == q;
    ModifiesTidy(p, |q|, d.junk, q, used);
    var pm := ModifyAllOf(p, q, d.junk);
    FewerOrders(pm.active, pm.finished, q, pm.log, used, pm.active - pm.done, pm.finished);
  }

  lemma TickTidy(s: Session, m: Manager, d: Draws, used: set<Token>)
    requires TidySession(s, used) && IsOrder(d.order, BeforeExecution(s, m, d).s.active.Keys)
    ensures TidySession(Tick(s, m, d).s, used)
  {
    hide Tidy, BeforeExecution, ExecuteAllOf;
    BeforeExecutionTidy(s, m, d, used);
    var o := BeforeExecution(s, m, d);
    assert o.s.pendingModify == s.pendingModify by {
      BeforeExecutionKeepsQueue(s, m, d);
    }
    ExecutesTidy(Start(o.s, o.m), d.order, d.executeCoin, d.roll, s.pendingModify, used);
    var r := ExecuteAllOf(Start(o.s, o.m), d.order, d.executeCoin, d.roll);
    FewerOrders(r.active, r.finished, s.pendingModify, r.log, used, r.active - r.done, r.finished);
  }

  lemma BeforeExecutionKeepsQueue(s: Session, m: Manager, d: Draws)
    ensures BeforeExecution(s, m, d).s.pendingModify == s.pendingModify
  {
  }

  /** One step of a client that never reuses a token and cancels only orders in the book. */
  lemma StepTidy(s: Session, m: Manager, step: Step, used: set<Token>)
    requires TidySession(s, used) && Legal(s, m, step) && Disciplined(s, used, step)
    ensures TidySession(Apply(s, m, step).s, used + Introduces(step))
  {
    hide Tidy, Tick, BeforeExecution, IsOrder, Behavior.Ask, QueueModify, Enter;
    var q := s.pendingModify;
    assert Introduces(step) == {} ==> used + Introduces(step) == used;
    match step
    case DoLogin(coin) =>
      OneHarmless(s.active, s.finished, q, s.log, used, LoginResponse(SessionDisabled));
      OneHarmless(s.active, s.finished, q, s.log, used, LoginResponse(SessionInUse));
      OneHarmless(s.active, s.finished, q, s.log, used, LoginResponse(LoginOk));
    case DoClose =>
    case DoEnter(no, id, coin) => EnterTidy(s, m, no, id, coin, used);
    case DoModify(mo, coin) => QueueModifyTidy(s, m, mo, coin, used);
    case DoCancel(t, junk, coin) =>
      OneHarmless(s.active, s.finished, q, s.log, used, CancelRejected(t, TooLateToCancel));
      OneHarmless(s.active, s.finished, q, s.log, used, CancelRejected(t, Unforeseen));
    case DoTick(d) => TickTidy(s, m, d, used);
    case DoCancelAll(order) => CancelAllStepTidy(s, order, used);
  }

  lemma CancelAllStepTidy(s: Session, order: seq<Token>, used: set<Token>)
    requires TidySession(s, used) && IsOrder(order, s.active.Keys)
    ensures TidySession(CancelAll(s, order), used)
  {
    hide Tidy;
    CancelAllTidy(s.active, s.finished, s.pendingModify, s.log, s.active, order, used);
    FewerOrders(s.active, s.finished, s.pendingModify, CancelAll(s, order).log, used, map[], s.finished);
  }
}
