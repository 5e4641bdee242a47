/** The exchange: both sessions, the manager they share, and the administrator. Statements about whole runs. */
module Exchange {
  import opened Bytes
  import opened Walks
  import Behavior
  import Ouch
  import OuchOrders
  import OuchKeys
  import OuchExecution
  import OuchLedger
  import OuchDiscipline
  import OuchEntries
  import OuchMinimum
  import OuchNarrowing
  import OuchSides
  import OuchLogin
  import OuchProgress
  import Boe
  import BoeTokens
  import BoeCancels

  datatype Market = Market(ouch: Ouch.Session, boe: Boe.Session, m: Behavior.Manager)

  /** Whoever moves: the OUCH side, the BOE side, or the administrator at the manager. */
  datatype Step =
    | OnOuch(ouch: Ouch.Step)
    | OnBoe(boe: Boe.Step)
    | OnManager(command: Behavior.Command)

  function Opening(now: int): Market {
    Market(Ouch.Initial(now), Boe.Initial(now), Behavior.INITIAL)
  }

  predicate Legal(x: Market, step: Step) {
    match step
    case OnOuch(o) => Ouch.Legal(x.ouch, x.m, o)
    case OnBoe(b) => Boe.Legal(x.boe, x.m, b)
    case OnManager(_) => true
  }

  /** A step whose walk of a map is none of the map as it is cannot happen; it is passed over. */
  function Next(x: Market, step: Step): Market {
    if !Legal(x, step) then x
    else
      match step
      case OnOuch(o) => var r := Ouch.Apply(x.ouch, x.m, o); x.(ouch := r.s, m := r.m)
      case OnBoe(b) => var r := Boe.Apply(x.boe, x.m, b); x.(boe := r.s, m := r.m)
      case OnManager(c) => x.(m := Behavior.Obey(x.m, c))
  }

  function Run(x: Market, steps: seq<Step>): Market {
    if steps == [] then x else Next(Run(x, steps[..|steps| - 1]), steps[|steps| - 1])
  }

  // ---------------------------------------------------------------- OUCH, any requests at all

  /** In every run: each OUCH order is stored under its own token, no order is reported cancelled as
      immediate-or-cancel, and orders are accepted only within a login. */
  lemma {:induction false} EveryRunKeepsKeysAndLogin(now: int, steps: seq<Step>)
    ensures var s := Run(Opening(now), steps).ouch;
            OuchKeys.WellKept(s) && OuchLogin.Regular(s)
  {
    hide OuchKeys.WellKept, OuchLogin.Regular, Ouch.Apply, Ouch.Legal, Boe.Apply, Boe.Legal, Behavior.Obey;
    if steps == [] {
      OpeningKept(now);
    } else {
      var n := |steps| - 1;
      EveryRunKeepsKeysAndLogin(now, steps[..n]);
      var x := Run(Opening(now), steps[..n]);
      if steps[n].OnOuch? && Legal(x, steps[n]) {
        OuchKeys.StepKeepsKeys(x.ouch, x.m, steps[n].ouch);
        OuchLogin.StepRegular(x.ouch, x.m, steps[n].ouch);
      }
    }
  }

  lemma OpeningKept(now: int)
    ensures OuchKeys.WellKept(Ouch.Initial(now)) && OuchLogin.Regular(Ouch.Initial(now))
    ensures OuchLedger.SoundSession(Ouch.Initial(now)) && OuchLedger.Rebuilt(Ouch.Initial(now))
  {
  }

  /** In the execution pass of any tick of any run: an order whose time in force is 0 gets no fill and leaves when the
      manager lets the pass through to it; MARKET and SYSTEM orders stay or are finished; an order that is dropped is
      reported as timed out, with all its shares, and if it has T seconds these have passed. */
  lemma TimeInForceInEveryRun(now: int, steps: seq<Step>, d: Ouch.Draws, k: OuchOrders.Token)
    requires var x := Run(Opening(now), steps);
             var b := Ouch.BeforeExecution(x.ouch, x.m, d).s;
             IsOrder(d.order, b.active.Keys) && k in b.active
    ensures var x := Run(Opening(now), steps);
            var before, r := Ouch.BeforeExecution(x.ouch, x.m, d), Ouch.Tick(x.ouch, x.m, d).s;
            var o := before.s.active[k];
            var fate := OuchExecution.FateOf(before.s, before.m, d.order, d.now, d.executeCoin, d.roll, k);
            && (o.timeInForce == OuchOrders.IOC ==>
                  if OuchExecution.Gate(before.m, d.executeCoin, OuchExecution.At(d.order, k)) then k !in r.active
                  else k in r.active && r.active[k] == o)
            && (o.timeInForce in [OuchOrders.MARKET, OuchOrders.SYSTEM] ==> !fate.Drops?)
            && (fate.Drops? ==>
                  && k !in r.active
                  && fate.messages == [OuchOrders.Canceled(k, o.remaining, OuchOrders.TimeOut)]
                  && (0 < o.timeInForce < TWO_TO_31 && o.received <= d.now ==> d.now - o.received >= o.timeInForce))
  {
    hide Run, Ouch.BeforeExecution, Ouch.ExecutionLogic, IsOrder, Ouch.VisitOrder, OuchExecution.Gate, OuchExecution.At;
    var x := Run(Opening(now), steps);
    var o := Ouch.BeforeExecution(x.ouch, x.m, d);
    EveryRunKeepsKeysAndLogin(now, steps);
    OuchKeys.BeforeExecutionKeepsKeys(x.ouch, x.m, d);
    OuchExecution.TimeInForceRespected(o.s, o.m, d.order, d.now, d.executeCoin, d.roll, k);
    OuchProgress.PartitionAt(o.s, o.m, d.order, d.now, d.executeCoin, d.roll, k);
    OuchKeys.VisitKeepsToken(o.s.active[k], d.now, d.roll(OuchExecution.At(d.order, k)));
  }

  /** In every run no fill of an order exceeds the minimum quantity that its Accepted or latest Replaced message
      told, if that is not 0. */
  lemma {:induction false} NoFillExceedsMinimum(now: int, steps: seq<Step>)
    ensures var s := Run(Opening(now), steps).ouch; OuchMinimum.Kept(s.active, {}, s.log)
  {
    hide OuchMinimum.Kept, Ouch.Apply, Ouch.Legal, Boe.Apply, Boe.Legal, Behavior.Obey;
    if steps == [] {
      assert OuchMinimum.Kept(map[], {}, []) by {
        NothingExceeds();
      }
    } else {
      var n := |steps| - 1;
      var x := Run(Opening(now), steps[..n]);
      NoFillExceedsMinimum(now, steps[..n]);
      if steps[n].OnOuch? && Legal(x, steps[n]) {
        OuchMinimum.StepKeeps(x.ouch, x.m, steps[n].ouch);
      }
    }
  }

  lemma NothingExceeds()
    ensures OuchMinimum.Kept(map[], {}, [])
  {
  }

  /** From any state on, whatever is requested: the token of a finished order stays finished and is never accepted. */
  lemma {:induction false} FinishedTokensAreSpent(x: Market, steps: seq<Step>, t: OuchOrders.Token)
    requires t in x.ouch.finished
    ensures var y := Run(x, steps).ouch;
            t in y.finished && OuchEntries.EntriesOf(y.log, t) == OuchEntries.EntriesOf(x.ouch.log, t)
  {
    hide OuchEntries.EntriesOf, Ouch.Apply, Ouch.Legal, Boe.Apply, Boe.Legal, Behavior.Obey;
    if steps != [] {
      var n := |steps| - 1;
      var y := Run(x, steps[..n]);
      FinishedTokensAreSpent(x, steps[..n], t);
      if steps[n].OnOuch? && Legal(y, steps[n]) {
        OuchEntries.StepKeepsFinished(y.ouch, y.m, steps[n].ouch, t);
      }
    }
  }

  // ---------------------------------------------------------------- OUCH, replaces of live orders

  /** Every replace worked off in the run names an order that is in the book then. */
  ghost predicate ReplacesLive(x: Market, steps: seq<Step>) {
    forall i :: 0 <= i < |steps| && steps[i].OnOuch? ==>
      OuchLedger.LiveStep(Run(x, steps[..i]).ouch, Run(x, steps[..i]).m, steps[i].ouch)
  }

  ghost predicate Orderly(x: Market, steps: seq<Step>) {
    forall i :: 0 <= i < |steps| && steps[i].OnOuch? ==>
      OuchLedger.OrderlyStep(Run(x, steps[..i]).ouch, Run(x, steps[..i]).m, steps[i].ouch)
  }

  lemma {:induction false} EveryRunKeepsRanges(now: int, steps: seq<Step>)
    requires ReplacesLive(Opening(now), steps)
    ensures OuchLedger.SoundSession(Run(Opening(now), steps).ouch)
    ensures Orderly(Opening(now), steps) ==> OuchLedger.Rebuilt(Run(Opening(now), steps).ouch)
  {
    hide OuchLedger.SoundSession, OuchLedger.Rebuilt, OuchLedger.LiveStep, OuchLedger.OrderlyStep, Next;
    if steps == [] {
      OpeningKept(now);
    } else {
      var n := |steps| - 1;
      var x := Run(Opening(now), steps[..n]);
      assert forall i :: 0 <= i < n ==> steps[..n][..i] == steps[..i];
      EveryRunKeepsRanges(now, steps[..n]);
      NextKeepsRanges(x, steps[n]);
    }
  }

  lemma NextKeepsRanges(x: Market, step: Step)
    requires OuchLedger.SoundSession(x.ouch)
    requires step.OnOuch? ==> OuchLedger.LiveStep(x.ouch, x.m, step.ouch)
    ensures OuchLedger.SoundSession(Next(x, step).ouch)
    ensures OuchLedger.Rebuilt(x.ouch) && (step.OnOuch? ==> OuchLedger.OrderlyStep(x.ouch, x.m, step.ouch))
            ==> OuchLedger.Rebuilt(Next(x, step).ouch)
  {
    hide OuchLedger.SoundSession, OuchLedger.Rebuilt, OuchLedger.LiveStep, OuchLedger.OrderlyStep, Ouch.Apply,
         Ouch.Legal, Boe.Apply, Boe.Legal, Behavior.Obey;
    if step.OnOuch? && Legal(x, step) {
      OuchLedger.StepSound(x.ouch, x.m, step.ouch);
    }
  }

  /** With an orderly client and administrator the ledger rebuilt from the messages is the book: what is open is what
      remains, and nothing is open under any other token. */
  lemma OrderlyRunIsRebuilt(now: int, steps: seq<Step>)
    requires Orderly(Opening(now), steps)
    ensures var s := Run(Opening(now), steps).ouch;
            var l := OuchLedger.Replay(s.log);
            && (forall k :: k in s.active ==>
                  k in l && l[k].open == s.active[k].remaining && l[k].filled == s.active[k].executed)
            && (forall k :: k in l && k !in s.active ==> l[k].open == 0)
  {
    hide OuchLedger.Replay, Run, OuchLedger.OrderlyStep, OuchLedger.LiveStep;
    forall i | 0 <= i < |steps| && steps[i].OnOuch?
      ensures OuchLedger.LiveStep(Run(Opening(now), steps[..i]).ouch, Run(Opening(now), steps[..i]).m, steps[i].ouch)
    {
      OuchLedger.OrderlyIsLive(Run(Opening(now), steps[..i]).ouch, Run(Opening(now), steps[..i]).m, steps[i].ouch);
    }
    EveryRunKeepsRanges(now, steps);
    var s := Run(Opening(now), steps).ouch;
    var l := OuchLedger.Replay(s.log);
    forall k | k in s.active
      ensures k in l && l[k].open == s.active[k].remaining && l[k].filled == s.active[k].executed
    {
      assert OuchLedger.AgreesAt(s.active, {}, l, k) && OuchLedger.SoundAt(s.active, {}, l, k);
    }
    forall k | k in l && k !in s.active ensures l[k].open == 0 {
      assert OuchLedger.AgreesAt(s.active, {}, l, k);
    }
  }

  /** With replaces of live orders only: quantities in range, the client knows fills, side, price and time in force of
      every order, and a sell order is changed twice at most. */
  lemma LiveRunRanges(now: int, steps: seq<Step>, k: OuchOrders.Token)
    requires ReplacesLive(Opening(now), steps) && k in Run(Opening(now), steps).ouch.active
    ensures var s := Run(Opening(now), steps).ouch;
            var o, l := s.active[k], OuchLedger.Replay(s.log);
            && 0 <= o.executed && 0 <= o.remaining && o.executed + o.remaining <= 1000000
            && o.state == OuchOrders.Live
            && k in l && l[k].filled == o.executed
            && l[k].side == o.side && l[k].price == o.price && l[k].timeInForce == o.timeInForce
            && (OuchLedger.IsSell(o.side) ==> l[k].changes <= 2)
  {
    hide OuchLedger.Replay, Run, Next, OuchLedger.LiveStep;
    EveryRunKeepsRanges(now, steps);
    var s := Run(Opening(now), steps).ouch;
    assert OuchLedger.SoundAt(s.active, {}, OuchLedger.Replay(s.log), k);
  }

  /** With replaces of live orders only, every quantity any message was made from is sent as it is. */
  lemma NothingIsLostInMessages(now: int, steps: seq<Step>)
    requires ReplacesLive(Opening(now), steps)
    ensures var log := Run(Opening(now), steps).ouch.log;
            forall i :: 0 <= i < |log| ==>
              var q := OuchNarrowing.QuantityOf(log[i]);
              0 <= q <= OuchOrders.LARGEST_REQUEST && U32(q) == q
  {
    hide Run, OuchLedger.LiveStep, U32;
    AllMessagesFit(now, steps);
    var log := Run(Opening(now), steps).ouch.log;
    forall i | 0 <= i < |log|
      ensures var q := OuchNarrowing.QuantityOf(log[i]);
              0 <= q <= OuchOrders.LARGEST_REQUEST && U32(q) == q
    {
      OuchNarrowing.FittingIsKept(log[i]);
    }
  }

  lemma {:induction false} AllMessagesFit(now: int, steps: seq<Step>)
    requires ReplacesLive(Opening(now), steps)
    ensures OuchNarrowing.AllFit(Run(Opening(now), steps).ouch.log)
  {
    hide OuchLedger.SoundSession, OuchLedger.LiveStep, OuchLedger.Rebuilt, OuchLedger.OrderlyStep, OuchNarrowing.AllFit,
         Ouch.Apply, Ouch.Legal, Boe.Apply, Boe.Legal, Behavior.Obey;
    if steps == [] {
      assert OuchNarrowing.AllFit([]) by {
        NoMessages();
      }
    } else {
      var n := |steps| - 1;
      var x := Run(Opening(now), steps[..n]);
      assert forall i :: 0 <= i < n ==> steps[..n][..i] == steps[..i];
      AllMessagesFit(now, steps[..n]);
      EveryRunKeepsRanges(now, steps[..n]);
      if steps[n].OnOuch? && Legal(x, steps[n]) {
        OuchNarrowing.StepFits(x.ouch, x.m, steps[n].ouch);
      }
    }
  }

  lemma NoMessages()
    ensures OuchNarrowing.AllFit([])
  {
  }

  /** The execution pass of any tick of such a run: held back orders keep everything, the others keep the sum of their
      quantities, are finished with nothing left, or are dropped with a report of all that was left. */
  lemma PartitionInEveryRun(now: int, steps: seq<Step>, d: Ouch.Draws, k: OuchOrders.Token)
    requires ReplacesLive(Opening(now), steps)
    requires var x := Run(Opening(now), steps);
             var b := Ouch.BeforeExecution(x.ouch, x.m, d).s;
             && OuchLedger.LiveStep(x.ouch, x.m, Ouch.DoTick(d))
             && IsOrder(d.order, b.active.Keys) && k in b.active
    ensures var x := Run(Opening(now), steps);
            var before, r := Ouch.BeforeExecution(x.ouch, x.m, d), Ouch.Tick(x.ouch, x.m, d).s;
            var o := before.s.active[k];
            match OuchExecution.FateOf(before.s, before.m, d.order, d.now, d.executeCoin, d.roll, k)
            case Keeps(o1, _) =>
              && k in r.active && r.active[k] == o1 && o1.executed + o1.remaining == o.executed + o.remaining
              && (OuchExecution.Gate(before.m, d.executeCoin, OuchExecution.At(d.order, k)) || o1 == o)
            case Finishes(o1) =>
              k !in r.active && k in r.finished && r.finished[k] == o1 && o1.remaining == 0 && o1.executed == o.executed
            case Drops(_, messages) =>
              k !in r.active && messages == [OuchOrders.Canceled(k, o.remaining, OuchOrders.TimeOut)]
  {
    hide Run, Ouch.BeforeExecution, Ouch.ExecutionLogic, IsOrder, Ouch.VisitOrder, OuchExecution.Gate, OuchExecution.At,
         OuchLedger.LiveStep, OuchLedger.Replay, OuchLedger.OrderlyStep;
    var x := Run(Opening(now), steps);
    var b := Ouch.BeforeExecution(x.ouch, x.m, d);
    EveryRunKeepsRanges(now, steps);
    EveryRunKeepsKeysAndLogin(now, steps);
    OuchLedger.BeforeExecutionSound(x.ouch, x.m, d);
    OuchKeys.BeforeExecutionKeepsKeys(x.ouch, x.m, d);
    OuchProgress.PartitionAt(b.s, b.m, d.order, d.now, d.executeCoin, d.roll, k);
    OuchExecution.TimeInForceRespected(b.s, b.m, d.order, d.now, d.executeCoin, d.roll, k);
    assert OuchLedger.SoundAt(b.s.active, {}, OuchLedger.Replay(b.s.log), k);
    OuchLedger.VisitSound(k, b.s.active[k], OuchLedger.Replay(b.s.log), d.now, d.roll(OuchExecution.At(d.order, k)));
    OuchLedger.VisitFinishes(b.s.active[k], d.now, d.roll(OuchExecution.At(d.order, k)));
  }

  // ---------------------------------------------------------------- OUCH, rules for clients

  /** Of one order, the client never asks a modify for more than it asked for before. */
  predicate ModifiesFall(steps: seq<Step>) {
    forall i, j :: 0 <= i < j < |steps| && AsksModify(steps[i]) && AsksModify(steps[j]) ==>
      steps[i].ouch.mo.token == steps[j].ouch.mo.token ==> steps[j].ouch.mo.qty <= steps[i].ouch.mo.qty
  }

  predicate AsksModify(step: Step) {
    step.OnOuch? && step.ouch.DoModify?
  }

  lemma NextQueue(x: Market, step: Step)
    ensures var q, q1 := x.ouch.pendingModify, Next(x, step).ouch.pendingModify;
            q1 == q || (AsksModify(step) && q1 == q + [step.ouch.mo])
  {
    hide Ouch.Legal, Boe.Apply, Boe.Legal, Behavior.Obey, Behavior.Ask, Ouch.ExecuteAllOf, Ouch.CancelAllOf,
         Ouch.ModifyAllOf, Ouch.ReplaceAllOf, OuchOrders.ValidEnter, OuchOrders.ValidReplace, OuchOrders.ValidCancel;
  }

  ghost predicate WasSent(steps: seq<Step>, mo: OuchOrders.ModifyOrder) {
    exists h :: 0 <= h < |steps| && AsksModify(steps[h]) && steps[h].ouch.mo == mo
  }

  lemma SentEarlier(steps: seq<Step>, mo: OuchOrders.ModifyOrder)
    requires steps != [] && WasSent(steps[..|steps| - 1], mo)
    ensures WasSent(steps, mo)
    ensures ModifiesFall(steps) && AsksModify(steps[|steps| - 1]) && steps[|steps| - 1].ouch.mo.token == mo.token ==>
              steps[|steps| - 1].ouch.mo.qty <= mo.qty
  {
    var n := |steps| - 1;
    var h :| 0 <= h < n && AsksModify(steps[..n][h]) && steps[..n][h].ouch.mo == mo;
    assert AsksModify(steps[h]) && steps[h].ouch.mo == mo;
  }

  /** The queue of modifies holds nothing that was not sent, in the order it was sent. */
  lemma {:induction false} SentModifiesFall(now: int, steps: seq<Step>)
    requires ModifiesFall(steps)
    ensures var q := Run(Opening(now), steps).ouch.pendingModify;
            OuchDiscipline.FallingModifies(q) && forall j :: 0 <= j < |q| ==> WasSent(steps, q[j])
  {
    hide Next, WasSent;
    if steps != [] {
      var n := |steps| - 1;
      var q, q1 := Run(Opening(now), steps[..n]).ouch.pendingModify, Run(Opening(now), steps).ouch.pendingModify;
      SentModifiesFall(now, steps[..n]);
      NextQueue(Run(Opening(now), steps[..n]), steps[n]);
      forall j | 0 <= j < |q1|
        ensures WasSent(steps, q1[j])
        ensures j < |q| && AsksModify(steps[n]) && steps[n].ouch.mo.token == q[j].token ==>
                  steps[n].ouch.mo.qty <= q[j].qty
      {
        if j < |q| {
          assert q1[j] == q[j];
          SentEarlier(steps, q[j]);
        } else {
          SentNow(steps);
        }
      }
    }
  }

  lemma SentNow(steps: seq<Step>)
    requires steps != [] && AsksModify(steps[|steps| - 1])
    ensures WasSent(steps, steps[|steps| - 1].ouch.mo)
  {
  }

  ghost predicate RulesKept(x: Market, steps: seq<Step>) {
    forall i :: 0 <= i < |steps| && steps[i].OnOuch? ==>
      OuchDiscipline.KeepsRules(Run(x, steps[..i]).ouch, Run(x, steps[..i]).m, steps[i].ouch)
  }

  /** A client that never raises what it asked a modify for, in one tick cancels no order again after a full cancel and
      replaces no order twice, nor by a token that is being replaced, and replaces live orders only, is orderly. */
  lemma RulesMakeOrderly(now: int, steps: seq<Step>)
    requires ModifiesFall(steps) && RulesKept(Opening(now), steps)
    ensures Orderly(Opening(now), steps)
  {
    hide Run, OuchDiscipline.KeepsRules, OuchLedger.SoundSession, OuchLedger.Rebuilt, OuchLedger.OrderlyStep,
         OuchLedger.LiveStep, OuchDiscipline.FallingModifies;
    forall i | 0 <= i < |steps| && steps[i].OnOuch?
      ensures OuchLedger.LiveStep(Run(Opening(now), steps[..i]).ouch, Run(Opening(now), steps[..i]).m, steps[i].ouch)
    {
      OuchDiscipline.RulesAreLive(Run(Opening(now), steps[..i]).ouch, Run(Opening(now), steps[..i]).m, steps[i].ouch);
    }
    forall i | 0 <= i < |steps| && steps[i].OnOuch?
      ensures OuchLedger.OrderlyStep(Run(Opening(now), steps[..i]).ouch, Run(Opening(now), steps[..i]).m, steps[i].ouch)
    {
      var x := Run(Opening(now), steps[..i]);
      assert forall h :: 0 <= h < i ==> steps[..i][..h] == steps[..h];
      EveryRunKeepsRanges(now, steps[..i]);
      SentModifiesFall(now, steps[..i]);
      OuchDiscipline.RulesAreOrderly(x.ouch, x.m, steps[i].ouch);
    }
  }

  /** The ledger of a client that keeps the rules is the book. */
  lemma RuleKeeperKnowsItsBook(now: int, steps: seq<Step>)
    requires ModifiesFall(steps) && RulesKept(Opening(now), steps)
    ensures var s := Run(Opening(now), steps).ouch;
            var l := OuchLedger.Replay(s.log);
            && (forall k :: k in s.active ==>
                  k in l && l[k].open == s.active[k].remaining && l[k].filled == s.active[k].executed)
            && (forall k :: k in l && k !in s.active ==> l[k].open == 0)
  {
    hide OuchLedger.Replay, Run, Orderly, RulesKept, ModifiesFall;
    RulesMakeOrderly(now, steps);
    OrderlyRunIsRebuilt(now, steps);
  }

  // ---------------------------------------------------------------- OUCH, sides

  /** Where the order under `k` is after the run, following its replaces. */
  ghost function KeyAt(x: Market, steps: seq<Step>, k: OuchOrders.Token): OuchOrders.Token {
    if steps == [] then k
    else
      var n := |steps| - 1;
      var y, k1 := Run(x, steps[..n]), KeyAt(x, steps[..n], k);
      if steps[n].OnOuch? && Legal(y, steps[n]) then OuchSides.KeyAfter(y.ouch, y.m, steps[n].ouch, k1) else k1
  }

  /** The order stays in the book throughout the run. */
  ghost predicate Stays(x: Market, steps: seq<Step>, k: OuchOrders.Token) {
    forall i :: 0 <= i < |steps| && steps[i].OnOuch? && Legal(Run(x, steps[..i]), steps[i]) ==>
      OuchSides.Stays(Run(x, steps[..i]).ouch, Run(x, steps[..i]).m, steps[i].ouch, KeyAt(x, steps[..i], k))
  }

  /** The modifications of the order reported in the run that did not close it, under whatever token it had. */
  ghost function Alterations(x: Market, steps: seq<Step>, k: OuchOrders.Token): int {
    if steps == [] then 0
    else
      var n := |steps| - 1;
      var y, k1 := Run(x, steps[..n]), KeyAt(x, steps[..n], k);
      Alterations(x, steps[..n], k)
      + OuchSides.Alterations(Next(y, steps[n]).ouch.log, k1) - OuchSides.Alterations(y.ouch.log, k1)
  }

  /** From any state on, whatever is requested: a sell order that stays in the book stays a sell order, and meets no
      more modifications that do not close it than its side can go down, which is two. */
  lemma {:induction false} SellOrderStaysSell(x: Market, steps: seq<Step>, k: OuchOrders.Token)
    requires k in x.ouch.active && OuchLedger.IsSell(x.ouch.active[k].side) && Stays(x, steps, k)
    ensures var y, k1 := Run(x, steps), KeyAt(x, steps, k);
            && k1 in y.ouch.active && OuchLedger.IsSell(y.ouch.active[k1].side)
            && Alterations(x, steps, k) + OuchLedger.Rank(y.ouch.active[k1].side)
               <= OuchLedger.Rank(x.ouch.active[k].side)
            && Alterations(x, steps, k) <= 2
  {
    hide OuchSides.KeyAfter, OuchSides.Alterations, Ouch.Apply, Ouch.Legal, Boe.Apply, Boe.Legal, Behavior.Obey,
         OuchLedger.IsSell;
    if steps != [] {
      var n := |steps| - 1;
      var y := Run(x, steps[..n]);
      assert forall i :: 0 <= i < n ==> steps[..n][..i] == steps[..i];
      SellOrderStaysSell(x, steps[..n], k);
      if steps[n].OnOuch? && Legal(y, steps[n]) {
        OuchSides.StepDescends(y.ouch, y.m, steps[n].ouch, KeyAt(x, steps[..n], k));
        OuchSides.StaysMeans(y.ouch, y.m, steps[n].ouch, KeyAt(x, steps[..n], k));
      }
    }
  }

  // ---------------------------------------------------------------- OUCH, progress

  /** No step of the run names the key or cancels it, and its time is never over. */
  ghost predicate Spared(x: Market, steps: seq<Step>, k: OuchOrders.Token) {
    forall i :: 0 <= i < |steps| && steps[i].OnOuch? ==>
      OuchProgress.SparedBy(Run(x, steps[..i]).ouch, steps[i].ouch, k)
  }

  ghost predicate PassAdmits(x: Market, step: Step, k: OuchOrders.Token) {
    step.OnOuch? && step.ouch.DoTick? && OuchProgress.AdmittedPass(x.ouch, x.m, step.ouch.draws, k)
  }

  /** How many execution passes of the run admitted the order under the key. */
  ghost function AdmittedPasses(x: Market, steps: seq<Step>, k: OuchOrders.Token): nat {
    if steps == [] then 0
    else
      var n := |steps| - 1;
      AdmittedPasses(x, steps[..n], k) + if PassAdmits(Run(x, steps[..n]), steps[n], k) then 1 else 0
  }

  lemma {:induction false} SparedRunProgresses(x: Market, steps: seq<Step>, k: OuchOrders.Token)
    requires OuchKeys.WellKept(x.ouch) && OuchProgress.SparedByQueues(x.ouch, k) && Spared(x, steps, k)
    requires k in x.ouch.active
    requires var o := x.ouch.active[k]; o.minQty == 0 && o.state == OuchOrders.Live && 0 <= o.remaining
    ensures var o, y := x.ouch.active[k], Run(x, steps);
            && OuchKeys.WellKept(y.ouch) && OuchProgress.SparedByQueues(y.ouch, k)
            && OuchProgress.Progress(y.ouch, k, o.remaining, o.executed + o.remaining, AdmittedPasses(x, steps, k))
  {
    hide OuchKeys.WellKept, OuchProgress.SparedByQueues, OuchProgress.SparedBy, OuchProgress.Progress, Next, PassAdmits;
    var o := x.ouch.active[k];
    if steps == [] {
      ProgressBegins(x.ouch, k);
    } else {
      var n := |steps| - 1;
      assert forall i :: 0 <= i < n ==> steps[..n][..i] == steps[..i];
      SparedRunProgresses(x, steps[..n], k);
      NextProgresses(Run(x, steps[..n]), steps[n], k, o.remaining, o.executed + o.remaining,
                     AdmittedPasses(x, steps[..n], k));
    }
  }

  lemma ProgressBegins(s: Ouch.Session, k: OuchOrders.Token)
    requires k in s.active
    requires var o := s.active[k]; o.minQty == 0 && o.state == OuchOrders.Live && 0 <= o.remaining
    ensures OuchProgress.Progress(s, k, s.active[k].remaining, s.active[k].executed + s.active[k].remaining, 0)
  {
  }

  lemma NextProgresses(x: Market, step: Step, k: OuchOrders.Token, q: nat, total: int, n: nat)
    requires OuchKeys.WellKept(x.ouch) && OuchProgress.SparedByQueues(x.ouch, k)
    requires step.OnOuch? ==> OuchProgress.SparedBy(x.ouch, step.ouch, k)
    requires OuchProgress.Progress(x.ouch, k, q, total, n)
    ensures var y := Next(x, step);
            && OuchKeys.WellKept(y.ouch) && OuchProgress.SparedByQueues(y.ouch, k)
            && OuchProgress.Progress(y.ouch, k, q, total, if PassAdmits(x, step, k) then n + 1 else n)
  {
    hide OuchKeys.WellKept, OuchProgress.SparedByQueues, OuchProgress.SparedBy, OuchProgress.Progress, Ouch.Apply,
         Boe.Apply, Boe.Legal, Behavior.Obey, Ouch.BeforeExecution;
    if step.OnOuch? && Legal(x, step) {
      OuchProgress.StepProgress(x.ouch, x.m, step.ouch, k, q, total, n);
      OuchKeys.StepKeepsKeys(x.ouch, x.m, step.ouch);
    }
  }

  /** An order of q shares without minimum quantity, left alone, is in the book for the first ceil(q/1000) admitted
      passes and finished after ceil(q/100) + 1 of them, which is after 10001 at the latest. */
  lemma FilledInTime(x: Market, steps: seq<Step>, k: OuchOrders.Token)
    requires OuchKeys.WellKept(x.ouch) && OuchProgress.SparedByQueues(x.ouch, k) && Spared(x, steps, k)
    requires k in x.ouch.active
    requires var o := x.ouch.active[k];
             o.minQty == 0 && o.state == OuchOrders.Live && 0 <= o.remaining <= OuchOrders.MAX_SHARES
    ensures var q, n, y := x.ouch.active[k].remaining, AdmittedPasses(x, steps, k), Run(x, steps).ouch;
            && (n <= CeilDiv(q, 1000) ==> k in y.active)
            && (n > CeilDiv(q, 100) || n > 10000 ==> k !in y.active)
            && (k in y.active ==> Max(0, q - 1000 * n) <= y.active[k].remaining <= Max(0, q - 100 * n))
            && (k !in y.active ==> k in y.finished && y.finished[k].remaining == 0
                                   && y.finished[k].executed == x.ouch.active[k].executed + q)
  {
    hide Run, OuchKeys.WellKept, OuchProgress.SparedByQueues, OuchProgress.SparedBy;
    SparedRunProgresses(x, steps, k);
  }

  // ---------------------------------------------------------------- BOE, clients that never reuse a token

  /** The tokens introduced by a run. */
  function Used(steps: seq<Step>): set<Boe.Token> {
    if steps == [] then {}
    else
      var n := |steps| - 1;
      Used(steps[..n]) + if steps[n].OnBoe? then BoeTokens.Introduces(steps[n].boe) else {}
  }

  ghost predicate Disciplined(x: Market, steps: seq<Step>) {
    forall i :: 0 <= i < |steps| && steps[i].OnBoe? ==>
      BoeTokens.Disciplined(Run(x, steps[..i]).boe, Used(steps[..i]), steps[i].boe)
  }

  lemma {:induction false} DisciplinedRunIsTidy(now: int, steps: seq<Step>)
    requires Disciplined(Opening(now), steps)
    ensures BoeTokens.TidySession(Run(Opening(now), steps).boe, Used(steps))
  {
    hide BoeTokens.TidySession, BoeTokens.Disciplined, Next;
    if steps == [] {
      NothingIsTidy(now);
    } else {
      var n := |steps| - 1;
      assert forall i :: 0 <= i < n ==> steps[..n][..i] == steps[..i];
      DisciplinedRunIsTidy(now, steps[..n]);
      NextIsTidy(Run(Opening(now), steps[..n]), steps[n], Used(steps[..n]));
    }
  }

  lemma NothingIsTidy(now: int)
    ensures BoeTokens.TidySession(Boe.Initial(now), {})
  {
  }

  lemma NextIsTidy(x: Market, step: Step, used: set<Boe.Token>)
    requires BoeTokens.TidySession(x.boe, used)
    requires step.OnBoe? ==> BoeTokens.Disciplined(x.boe, used, step.boe)
    ensures BoeTokens.TidySession(Next(x, step).boe,
                                  used + if step.OnBoe? then BoeTokens.Introduces(step.boe) else {})
  {
    hide BoeTokens.Tidy, BoeTokens.Disciplined, Ouch.Apply, Ouch.Legal, Boe.Apply, Boe.Legal, Behavior.Obey;
    var s := x.boe;
    if step.OnBoe? {
      if Legal(x, step) {
        BoeTokens.StepTidy(x.boe, x.m, step.boe, used);
      } else {
        BoeTokens.MoreUsed(s.active, s.finished, s.pendingModify, s.log, used, used + BoeTokens.Introduces(step.boe));
      }
    } else {
      assert used + {} == used;
    }
  }

  /** Each queued modify takes effect at most once in the whole run, although it is tried again at every tick. */
  lemma ModifyTakesEffectOnce(now: int, steps: seq<Step>, i: nat)
    requires Disciplined(Opening(now), steps) && i < |Run(Opening(now), steps).boe.pendingModify|
    ensures var s := Run(Opening(now), steps).boe;
            && BoeTokens.Effects(s.log, s.pendingModify[i].token) <= 1
            && (BoeTokens.Effects(s.log, s.pendingModify[i].token) == 1 ==> s.pendingModify[i].original !in s.active)
  {
    hide BoeTokens.Effects, BoeTokens.LastLeaves, Run, BoeTokens.Disciplined;
    DisciplinedRunIsTidy(now, steps);
  }

  /** Every OrderModified ever sent answers one of the queued requests: with the shares reported as executed before it,
      along the earlier tokens of the order, its quantity is the larger of the one asked for and the executed one, and
      its leaves quantity is what that leaves. */
  lemma ModifiedIsTruthful(now: int, steps: seq<Step>, i: nat)
    requires Disciplined(Opening(now), steps) && i < |Run(Opening(now), steps).boe.log|
    requires Run(Opening(now), steps).boe.log[i].OrderModified?
    ensures var s := Run(Opening(now), steps).boe;
            exists j :: 0 <= j < |s.pendingModify|
                        && BoeTokens.Answers(s.pendingModify[j],
                                             BoeTokens.Filled(s.log[..i], s.pendingModify, s.pendingModify[j].original),
                                             s.log[i])
  {
    hide BoeTokens.Effects, BoeTokens.LastLeaves, BoeTokens.Filled, BoeTokens.Answers, Run, BoeTokens.Disciplined;
    DisciplinedRunIsTidy(now, steps);
    var s := Run(Opening(now), steps).boe;
    assert BoeTokens.Answered(s.pendingModify, s.log, i);
  }

  /** The last message about an order in the book tells exactly what remains of it, and the fills reported along its
      tokens add up to what it has executed. */
  lemma LeavesAreRemaining(now: int, steps: seq<Step>, k: Boe.Token)
    requires Disciplined(Opening(now), steps) && k in Run(Opening(now), steps).boe.active
    ensures var s := Run(Opening(now), steps).boe;
            && 0 <= s.active[k].remaining < TWO_TO_32 && s.active[k].token == k
            && BoeTokens.LastLeaves(s.log, k) == BoeTokens.Known(s.active[k].remaining)
            && BoeTokens.Filled(s.log, s.pendingModify, k) == s.active[k].executed
  {
    hide BoeTokens.Effects, BoeTokens.LastLeaves, BoeTokens.Filled, Run, BoeTokens.Disciplined;
    DisciplinedRunIsTidy(now, steps);
    var s := Run(Opening(now), steps).boe;
    assert BoeTokens.OrderKnown(s.active, s.pendingModify, s.log, Used(steps), k);
  }

  lemma {:induction false} CancelledIsGone(now: int, steps: seq<Step>)
    requires Disciplined(Opening(now), steps)
    ensures BoeCancels.CancelsKept(Run(Opening(now), steps).boe, Used(steps))
  {
    hide BoeTokens.TidySession, BoeTokens.Disciplined, BoeCancels.CancelsKept, Next;
    if steps == [] {
      NothingIsCancelled(now);
    } else {
      var n := |steps| - 1;
      assert forall i :: 0 <= i < n ==> steps[..n][..i] == steps[..i];
      CancelledIsGone(now, steps[..n]);
      DisciplinedRunIsTidy(now, steps[..n]);
      NextKeepsCancels(Run(Opening(now), steps[..n]), steps[n], Used(steps[..n]));
    }
  }

  lemma NothingIsCancelled(now: int)
    ensures BoeCancels.CancelsKept(Boe.Initial(now), {})
  {
  }

  lemma NextKeepsCancels(x: Market, step: Step, used: set<Boe.Token>)
    requires BoeTokens.TidySession(x.boe, used) && BoeCancels.CancelsKept(x.boe, used)
    requires step.OnBoe? ==> BoeTokens.Disciplined(x.boe, used, step.boe)
    ensures BoeCancels.CancelsKept(Next(x, step).boe, used + if step.OnBoe? then BoeTokens.Introduces(step.boe) else {})
  {
    hide BoeTokens.TidySession, BoeCancels.AllGone, BoeTokens.Disciplined, Ouch.Apply, Ouch.Legal, Boe.Apply, Boe.Legal,
         Behavior.Obey;
    var s := x.boe;
    if step.OnBoe? {
      if Legal(x, step) {
        BoeCancels.StepGone(x.boe, x.m, step.boe, used);
      } else {
        BoeCancels.FewerGone(s.active, {}, s.active, s.pendingModify, s.log, used,
                             used + BoeTokens.Introduces(step.boe));
      }
    } else {
      assert used + {} == used;
    }
  }

  /** Once an order was reported as cancelled it is not active, and no execution of it is reported any more. */
  lemma CancelledStaysCancelled(now: int, steps: seq<Step>, i: nat, t: Boe.Token)
    requires Disciplined(Opening(now), steps) && i < |Run(Opening(now), steps).boe.log|
    requires Run(Opening(now), steps).boe.log[i] == Boe.OrderCanceled(t)
    ensures var s := Run(Opening(now), steps).boe;
            && t !in s.active
            && forall j :: i < j < |s.log| && s.log[j].OrderExecution? ==> s.log[j].token != t
  {
    hide BoeTokens.Effects, Run, BoeTokens.Disciplined;
    CancelledIsGone(now, steps);
    var s := Run(Opening(now), steps).boe;
    assert BoeCancels.Gone(s.active, {}, s.pendingModify, s.log, Used(steps), t);
    assert BoeCancels.Ended(s.log, t);
    forall j | i < j < |s.log| && s.log[j].OrderExecution? ensures s.log[j].token != t {
      assert s.log[..j][i] == Boe.OrderCanceled(t);
      assert BoeCancels.Ended(s.log[..j], t);
    }
  }
}
