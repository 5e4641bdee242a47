/** The behaviour manager: what the administrator allows the two sessions to do
    (behavior_manager.h, behavior_manager.cpp). */
module Behavior {

  /** The seven actions that are rationed. */
  datatype Kind = Login | Logout | NewOrder | ModifyOrder | ReplaceOrder | CancelOrder | Execution

  /** Which behaviour object an action's pointer refers to. */
  datatype Mode = Default | Random | Counted

  /** Seven pointers, or seven counters: one for each action. */
  datatype Each<T> = Each(
    login: T, logout: T, newOrder: T, modifyOrder: T, replaceOrder: T, cancelOrder: T, execution: T)
  {
    function Get(k: Kind): T {
      match k
      case Login => login
      case Logout => logout
      case NewOrder => newOrder
      case ModifyOrder => modifyOrder
      case ReplaceOrder => replaceOrder
      case CancelOrder => cancelOrder
      case Execution => execution
    }

    function Set(k: Kind, x: T): Each<T> {
      match k
      case Login => this.(login := x)
      case Logout => this.(logout := x)
      case NewOrder => this.(newOrder := x)
      case ModifyOrder => this.(modifyOrder := x)
      case ReplaceOrder => this.(replaceOrder := x)
      case CancelOrder => this.(cancelOrder := x)
      case Execution => this.(execution := x)
    }
  }

  function Same<T>(x: T): Each<T> {
    Each(x, x, x, x, x, x, x)
  }

  /** The sentinel for "no one-shot execution quantity is set". */
  const UNLIMITED: int := -1

  datatype Manager = Manager(mode: Each<Mode>, times: Each<nat>, exeQty: int)

  const INITIAL: Manager := Manager(Same(Default), Same(0), UNLIMITED)

  datatype Answer = Answer(ok: bool, m: Manager)

  /** One question to the manager. `coin` is the outcome a random behaviour would draw. */
  function Ask(m: Manager, k: Kind, coin: bool): Answer {
    match m.mode.Get(k)
    case Default => Answer(true, m)
    case Random => Answer(coin, m)
    case Counted =>
      if m.times.Get(k) > 0 then Answer(true, m.(times := m.times.Set(k, m.times.Get(k) - 1)))
      else Answer(false, m)
  }

  datatype Quantity = Quantity(qty: int, m: Manager)

  /** The one-shot execution quantity: handed out once, then 0 until it is set again. */
  function TakeExecutionQty(m: Manager): Quantity {
    if m.exeQty == UNLIMITED then Quantity(UNLIMITED, m) else Quantity(m.exeQty, m.(exeQty := 0))
  }

  /** Administrator commands, after their arguments were parsed. */
  datatype Command =
    | Reset
    | SetDefault(kind: Kind)
    | SetCount(kind: Kind, times: int)
    | SetRandom(kind: Kind)
    | Execute(qty: int)

  function Point(m: Manager, k: Kind, mode: Mode): Manager {
    m.(mode := m.mode.Set(k, mode), exeQty := if k == Execution then UNLIMITED else m.exeQty)
  }

  function Obey(m: Manager, c: Command): Manager {
    match c
    case Reset => m.(mode := Same(Default))
    case SetDefault(k) => Point(m, k, Default)
    case SetCount(k, x) => if x < 0 then m else Point(m.(times := m.times.Set(k, x)), k, Counted)
    case SetRandom(k) => Point(m, k, Random)
    case Execute(q) => if q <= 0 then m else m.(mode := m.mode.Set(Execution, Default), exeQty := q)
  }

  /** `m2` follows from `m1` with at least `n` successful actions of kind `k` paid for out of its counter. */
  predicate Paid(m1: Manager, m2: Manager, k: Kind, n: int) {
    m1.mode.Get(k) == Counted ==> m2.mode.Get(k) == Counted && m2.times.Get(k) + n <= m1.times.Get(k)
  }

  /** The command leaves the behaviour of kind `k` alone. */
  predicate Spares(c: Command, k: Kind) {
    match c
    case Reset => false
    case SetDefault(j) => j != k
    case SetCount(j, x) => x < 0 || j != k
    case SetRandom(j) => j != k
    case Execute(q) => q <= 0 || k != Execution
  }

  lemma AskPays(m: Manager, k: Kind, coin: bool, j: Kind)
    ensures var a := Ask(m, k, coin);
            && Paid(m, a.m, j, if j == k && a.ok then 1 else 0)
            && a.m.exeQty == m.exeQty
  {
  }

  /** The shared object both sessions hold a pointer to. */
  class BehaviorManager {
    var mode: Each<Mode>
    var times: Each<nat>
    var exeQty: int

    function View(): Manager
      reads this
    {
      Manager(mode, times, exeQty)
    }

    constructor ()
      ensures View() == INITIAL
    {
      mode, times, exeQty := Same(Default), Same(0), UNLIMITED;
    }

    /** login(), new_order(), ...: dispatch through the pointer of the action. */
    method Question(k: Kind, coin: bool) returns (ok: bool)
      modifies this
      ensures Answer(ok, View()) == Ask(old(View()), k, coin)
    {
      match mode.Get(k)
      case Default => ok := true;
      case Random => ok := coin;
      case Counted =>
        if times.Get(k) > 0 {
          times := times.Set(k, times.Get(k) - 1);
          ok := true;
        } else {
          ok := false;
        }
    }

    method ExecutionQty() returns (qty: int)
      modifies this
      ensures Quantity(qty, View()) == TakeExecutionQty(old(View()))
    {
      if exeQty == UNLIMITED {
        return UNLIMITED;
      }
      qty := exeQty;
      exeQty := 0;
    }

    method Command(c: Command)
      modifies this
      ensures View() == Obey(old(View()), c)
    {
      match c
      case Reset =>
        mode := Same(Default);
      case SetDefault(k) =>
        mode := mode.Set(k, Default);
        if k == Execution { exeQty := UNLIMITED; }
      case SetCount(k, x) =>
        if x < 0 { return; }
        times := times.Set(k, x);
        mode := mode.Set(k, Counted);
        if k == Execution { exeQty := UNLIMITED; }
      case SetRandom(k) =>
        mode := mode.Set(k, Random);
        if k == Execution { exeQty := UNLIMITED; }
      case Execute(q) =>
        if q <= 0 { return; }
        mode := mode.Set(Execution, Default);
        exeQty := q;
    }
  }
}
