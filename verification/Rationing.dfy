/** What the administrator's settings guarantee over whole runs of both sessions. */
module Rationing {
  import opened Exchange
  import Behavior
  import Ouch
  import OuchTrace
  import Boe
  import BoeTrace

  // ---------------------------------------------------------------- bm set count

  /** What one step achieves of kind `k`, in either session. */
  function Achieved(x: Market, step: Step, k: Behavior.Kind): int {
    if !Legal(x, step) then 0
    else
      match step
      case OnOuch(o) => OuchTrace.Achieved(x.ouch, o, Next(x, step).ouch).Get(k)
      case OnBoe(b) => BoeTrace.Achieved(x.boe, b, Next(x, step).boe).Get(k)
      case OnManager(_) => 0
  }

  function Made(x: Market, steps: seq<Step>, k: Behavior.Kind): int {
    if steps == [] then 0
    else
      var n := |steps| - 1;
      Made(x, steps[..n], k) + Achieved(Run(x, steps[..n]), steps[n], k)
  }

  /** The administrator leaves the behaviour of kind `k` alone. */
  predicate Untouched(steps: seq<Step>, k: Behavior.Kind) {
    forall i :: 0 <= i < |steps| && steps[i].OnManager? ==> Behavior.Spares(steps[i].command, k)
  }

  lemma StepPaid(x: Market, step: Step, k: Behavior.Kind)
    requires step.OnManager? ==> Behavior.Spares(step.command, k)
    ensures Behavior.Paid(x.m, Next(x, step).m, k, Achieved(x, step, k))
  {
    hide OuchTrace.Achieved, BoeTrace.Achieved, Ouch.Apply, Ouch.Legal, Boe.Apply, Boe.Legal;
    if Legal(x, step) {
      match step
      case OnOuch(o) => OuchTrace.StepPays(x.ouch, x.m, o);
      case OnBoe(b) => BoeTrace.StepPays(x.boe, x.m, b);
      case OnManager(_) =>
    }
  }

  lemma {:induction false} RunPaid(x: Market, steps: seq<Step>, k: Behavior.Kind)
    requires Untouched(steps, k)
    ensures Behavior.Paid(x.m, Run(x, steps).m, k, Made(x, steps, k))
  {
    hide Achieved, Next;
    if steps != [] {
      var n := |steps| - 1;
      RunPaid(x, steps[..n], k);
      StepPaid(Run(x, steps[..n]), steps[n], k);
    }
  }

  /** After `bm set count k n`, until the behaviour of kind `k` is set again, at most n actions of that kind are
      achieved, over both sessions together. */
  lemma CountIsRespected(x: Market, k: Behavior.Kind, n: nat, steps: seq<Step>)
    requires Untouched(steps, k)
    ensures Made(Next(x, OnManager(Behavior.SetCount(k, n))), steps, k) <= n
  {
    hide Made, Run;
    var y := Next(x, OnManager(Behavior.SetCount(k, n)));
    RunPaid(y, steps, k);
    assert y.m.mode.Get(k) == Behavior.Counted && y.m.times.Get(k) == n;
  }

  // ---------------------------------------------------------------- what is counted

  function Logins(x: Market): int {
    OuchTrace.Count(x.ouch.log, OuchTrace.ALogin) + BoeTrace.TallyOf(x.boe.log).logins
  }

  function Entries(x: Market): int {
    OuchTrace.Count(x.ouch.log, OuchTrace.AnEntry) + BoeTrace.TallyOf(x.boe.log).entries
  }

  function Fills(x: Market): int {
    OuchTrace.Count(x.ouch.log, OuchTrace.AFill) + BoeTrace.TallyOf(x.boe.log).fills
  }

  function ModifiesQueued(x: Market): int {
    |x.ouch.pendingModify| + |x.boe.pendingModify|
  }

  function OuchUserCancels(x: Market): int {
    OuchTrace.Count(x.ouch.log, OuchTrace.AUserCancel)
  }

  /** The cancels of BOE clients carried out in the run; those of cancel_all are reported in the same words. */
  function BoeUserCancels(x: Market, steps: seq<Step>): int {
    if steps == [] then 0
    else
      var n := |steps| - 1;
      var y := Run(x, steps[..n]);
      BoeUserCancels(x, steps[..n])
      + if steps[n].OnBoe? && steps[n].boe.DoTick?
        then BoeTrace.TallyOf(Next(y, steps[n]).boe.log).cancels - BoeTrace.TallyOf(y.boe.log).cancels else 0
  }

  lemma {:induction false} MadeIsWritten(x: Market, steps: seq<Step>)
    ensures var y := Run(x, steps);
            && Made(x, steps, Behavior.Login) == Logins(y) - Logins(x)
            && Made(x, steps, Behavior.NewOrder) == Entries(y) - Entries(x)
            && Made(x, steps, Behavior.Execution) == Fills(y) - Fills(x)
            && Made(x, steps, Behavior.ModifyOrder) == ModifiesQueued(y) - ModifiesQueued(x)
            && Made(x, steps, Behavior.CancelOrder)
               == 2 * (OuchUserCancels(y) - OuchUserCancels(x)) + |y.ouch.pendingCancel| - |x.ouch.pendingCancel|
                  + BoeUserCancels(x, steps)
  {
    hide OuchTrace.Count, BoeTrace.TallyOf, Ouch.Apply, Ouch.Legal, Boe.Apply, Boe.Legal, Behavior.Obey;
    if steps != [] {
      MadeIsWritten(x, steps[..|steps| - 1]);
    }
  }

  /** Logins accepted, orders accepted, fills reported and modifies queued, counted in both logs and queues. */
  lemma CountedActions(x: Market, n: nat, steps: seq<Step>)
    ensures var y := Next(x, OnManager(Behavior.SetCount(Behavior.Login, n)));
            Untouched(steps, Behavior.Login) ==> Logins(Run(y, steps)) - Logins(x) <= n
    ensures var y := Next(x, OnManager(Behavior.SetCount(Behavior.NewOrder, n)));
            Untouched(steps, Behavior.NewOrder) ==> Entries(Run(y, steps)) - Entries(x) <= n
    ensures var y := Next(x, OnManager(Behavior.SetCount(Behavior.Execution, n)));
            Untouched(steps, Behavior.Execution) ==> Fills(Run(y, steps)) - Fills(x) <= n
    ensures var y := Next(x, OnManager(Behavior.SetCount(Behavior.ModifyOrder, n)));
            Untouched(steps, Behavior.ModifyOrder) ==> ModifiesQueued(Run(y, steps)) - ModifiesQueued(x) <= n
  {
    hide Made, Run, OuchTrace.Count, BoeTrace.TallyOf, Untouched;
    forall k: Behavior.Kind
      ensures var y := Next(x, OnManager(Behavior.SetCount(k, n)));
              Untouched(steps, k) ==> Made(y, steps, k) <= n
    {
      if Untouched(steps, k) {
        CountIsRespected(x, k, n, steps);
      }
    }
    MadeIsWritten(Next(x, OnManager(Behavior.SetCount(Behavior.Login, n))), steps);
    MadeIsWritten(Next(x, OnManager(Behavior.SetCount(Behavior.NewOrder, n))), steps);
    MadeIsWritten(Next(x, OnManager(Behavior.SetCount(Behavior.Execution, n))), steps);
    MadeIsWritten(Next(x, OnManager(Behavior.SetCount(Behavior.ModifyOrder, n))), steps);
  }

  /** A cancel of an OUCH client is charged when it is queued and again when it is worked off, one of a BOE client only
      when it is worked off. */
  lemma CountedCancels(x: Market, n: nat, steps: seq<Step>)
    requires x.ouch.pendingCancel == [] && Untouched(steps, Behavior.CancelOrder)
    ensures var y := Next(x, OnManager(Behavior.SetCount(Behavior.CancelOrder, n)));
            2 * (OuchUserCancels(Run(y, steps)) - OuchUserCancels(x)) + BoeUserCancels(y, steps) <= n
  {
    hide Made, Run, OuchTrace.Count, BoeUserCancels, Untouched;
    CountIsRespected(x, Behavior.CancelOrder, n, steps);
    MadeIsWritten(Next(x, OnManager(Behavior.SetCount(Behavior.CancelOrder, n))), steps);
  }

  // ---------------------------------------------------------------- bm execute

  /** The command leaves the one-shot quantity alone. `bm reset` does, although it resets the behaviours. */
  predicate KeepsQuantity(c: Behavior.Command) {
    match c
    case Reset => true
    case SetDefault(k) => k != Behavior.Execution
    case SetCount(k, n) => n < 0 || k != Behavior.Execution
    case SetRandom(k) => k != Behavior.Execution
    case Execute(q) => q <= 0
  }

  predicate QuantityUntouched(steps: seq<Step>) {
    forall i :: 0 <= i < |steps| && steps[i].OnManager? ==> KeepsQuantity(steps[i].command)
  }

  function Shares(x: Market): int {
    BoeTrace.TallyOf(x.boe.log).shares
  }

  function BoeFills(x: Market): int {
    BoeTrace.TallyOf(x.boe.log).fills
  }

  lemma StepShares(x: Market, step: Step)
    requires step.OnManager? ==> KeepsQuantity(step.command)
    ensures var y := Next(x, step); BoeTrace.SharesPaid(x.m, y.m, Shares(y) - Shares(x), BoeFills(y) - BoeFills(x))
  {
    hide BoeTrace.TallyOf, Ouch.Apply, Ouch.Legal, Boe.Apply, Boe.Legal;
    if Legal(x, step) {
      match step
      case OnOuch(o) => OuchTrace.StepPays(x.ouch, x.m, o);
      case OnBoe(b) => BoeTrace.StepPays(x.boe, x.m, b);
      case OnManager(_) =>
    }
  }

  lemma {:induction false} RunShares(x: Market, steps: seq<Step>)
    requires QuantityUntouched(steps)
    ensures var y := Run(x, steps);
            BoeTrace.SharesPaid(x.m, y.m, Shares(y) - Shares(x), BoeFills(y) - BoeFills(x))
  {
    hide Next, Shares, BoeFills;
    if steps != [] {
      var n := |steps| - 1;
      RunShares(x, steps[..n]);
      StepShares(Run(x, steps[..n]), steps[n]);
    }
  }

  /** After `bm execute n`, until the quantity is set again, BOE fills at most n shares, in one fill at most, over all
      orders and ticks; the spent quantity is 0 and not the sentinel for "no limit". */
  lemma ExecuteIsRespected(x: Market, n: int, steps: seq<Step>)
    requires n > 0 && QuantityUntouched(steps)
    ensures var y := Run(Next(x, OnManager(Behavior.Execute(n))), steps);
            && Shares(y) - Shares(x) <= n
            && BoeFills(y) - BoeFills(x) <= 1
            && (y.m.exeQty == n || y.m.exeQty == 0)
  {
    hide Run, BoeTrace.TallyOf;
    RunShares(Next(x, OnManager(Behavior.Execute(n))), steps);
  }

  /** BOE acknowledgements and fills are numbered 1, 2, 3 and so on over the whole run, modulo 2^32. */
  lemma {:induction false} MessagesAreNumbered(now: int, steps: seq<Step>)
    ensures var s := Run(Opening(now), steps).boe; BoeTrace.Numbered(s.log, s.seqNum)
  {
    hide Ouch.Apply, Ouch.Legal, Boe.Apply, Boe.Legal, Behavior.Obey;
    if steps != [] {
      var n := |steps| - 1;
      var x := Run(Opening(now), steps[..n]);
      MessagesAreNumbered(now, steps[..n]);
      if steps[n].OnBoe? && Legal(x, steps[n]) {
        BoeTrace.StepPays(x.boe, x.m, steps[n].boe);
      }
    }
  }
}
