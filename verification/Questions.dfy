/** What the manager answers, question by question, and how many questions the two sessions ask. */
module Questions {
  import opened Bytes
  import opened Behavior

  // ---------------------------------------------------------------- the manager alone

  /** What happens at the manager: a session asks, a session takes the one-shot quantity, the administrator commands. */
  datatype Turn = Asks(kind: Kind, coin: bool) | Takes | Told(command: Command)

  function After(m: Manager, turns: seq<Turn>): Manager {
    if turns == [] then m
    else
      var before := After(m, turns[..|turns| - 1]);
      match turns[|turns| - 1]
      case Asks(k, coin) => Ask(before, k, coin).m
      case Takes => TakeExecutionQty(before).m
      case Told(c) => Obey(before, c)
  }

  /** The answer to the question asked in turn `i`. */
  predicate Yes(m: Manager, turns: seq<Turn>, i: nat)
    requires i < |turns| && turns[i].Asks?
  {
    Ask(After(m, turns[..i]), turns[i].kind, turns[i].coin).ok
  }

  /** The quantity handed out in turn `i`. */
  function Taken(m: Manager, turns: seq<Turn>, i: nat): int
    requires i < |turns| && turns[i].Takes?
  {
    TakeExecutionQty(After(m, turns[..i])).qty
  }

  function AskedOf(turns: seq<Turn>, k: Kind): nat {
    if turns == [] then 0
    else AskedOf(turns[..|turns| - 1], k) + if turns[|turns| - 1].Asks? && turns[|turns| - 1].kind == k then 1 else 0
  }

  predicate LeftAlone(turns: seq<Turn>, k: Kind) {
    forall i :: 0 <= i < |turns| && turns[i].Told? ==> Spares(turns[i].command, k)
  }

  /** The commands after which kind `k` has the behaviour `mode`. */
  predicate Sets(c: Command, k: Kind, mode: Mode) {
    match c
    case Reset => mode == Default
    case SetDefault(j) => j == k && mode == Default
    case SetCount(j, n) => j == k && n >= 0 && mode == Counted
    case SetRandom(j) => j == k && mode == Random
    case Execute(q) => q > 0 && k == Execution && mode == Default
  }

  lemma TurnKeepsMode(m: Manager, turn: Turn, k: Kind)
    requires turn.Told? ==> Spares(turn.command, k)
    ensures After(m, [turn]).mode.Get(k) == m.mode.Get(k)
  {
    assert [turn][..0] == [];
  }

  lemma {:induction false} ModeStays(m: Manager, c: Command, k: Kind, mode: Mode, turns: seq<Turn>)
    requires Sets(c, k, mode) && LeftAlone(turns, k)
    ensures After(Obey(m, c), turns).mode.Get(k) == mode
  {
    if turns != [] {
      hide Ask, Obey, TakeExecutionQty, Spares;
      var n := |turns| - 1;
      ModeStays(m, c, k, mode, turns[..n]);
      TurnKeepsMode(After(Obey(m, c), turns[..n]), turns[n], k);
      assert [turns[n]][..0] == [];
    }
  }

  lemma {:induction false} CounterAfter(m: Manager, k: Kind, n: nat, turns: seq<Turn>)
    requires LeftAlone(turns, k)
    ensures After(Obey(m, SetCount(k, n)), turns).times.Get(k) == Max(0, n - AskedOf(turns, k))
  {
    if turns != [] {
      CounterAfter(m, k, n, turns[..|turns| - 1]);
      ModeStays(m, SetCount(k, n), k, Counted, turns[..|turns| - 1]);
    }
  }

  /** After `bm set count k n` exactly the first n questions of kind k are answered yes, whatever else is asked and
      commanded meanwhile, as long as the behaviour of kind k is left alone. */
  lemma CountedAnswers(m: Manager, k: Kind, n: nat, turns: seq<Turn>, i: nat)
    requires LeftAlone(turns, k) && i < |turns| && turns[i].Asks? && turns[i].kind == k
    ensures Yes(Obey(m, SetCount(k, n)), turns, i) <==> AskedOf(turns[..i], k) < n
  {
    ModeStays(m, SetCount(k, n), k, Counted, turns[..i]);
    CounterAfter(m, k, n, turns[..i]);
  }

  /** A default behaviour says yes, a random one says what its coin says, until the behaviour of the kind is set
      again. */
  lemma UncountedAnswers(m: Manager, c: Command, k: Kind, mode: Mode, turns: seq<Turn>, i: nat)
    requires Sets(c, k, mode) && LeftAlone(turns, k) && i < |turns| && turns[i].Asks? && turns[i].kind == k
    ensures mode == Default ==> Yes(Obey(m, c), turns, i)
    ensures mode == Random ==> (Yes(Obey(m, c), turns, i) <==> turns[i].coin)
  {
    ModeStays(m, c, k, mode, turns[..i]);
  }

  /** The command touches the one-shot quantity: it sets it, or sets the behaviour of executions. */
  predicate TouchesQuantity(c: Command) {
    match c
    case Reset => false
    case SetDefault(k) => k == Execution
    case SetCount(k, n) => k == Execution && n >= 0
    case SetRandom(k) => k == Execution
    case Execute(q) => q > 0
  }

  predicate QuantityLeft(turns: seq<Turn>) {
    forall i :: 0 <= i < |turns| && turns[i].Told? ==> !TouchesQuantity(turns[i].command)
  }

  predicate SomeTaken(turns: seq<Turn>) {
    exists i :: 0 <= i < |turns| && turns[i].Takes?
  }

  lemma {:induction false} QuantityAfter(m: Manager, turns: seq<Turn>)
    requires QuantityLeft(turns)
    ensures After(m, turns).exeQty == if m.exeQty != UNLIMITED && SomeTaken(turns) then 0 else m.exeQty
  {
    if turns != [] {
      var n := |turns| - 1;
      QuantityAfter(m, turns[..n]);
      if SomeTaken(turns[..n]) {
        var i :| 0 <= i < n && turns[..n][i].Takes?;
        assert turns[i].Takes?;
      }
      assert SomeTaken(turns) ==> SomeTaken(turns[..n]) || turns[n].Takes? by {
        if SomeTaken(turns) && !turns[n].Takes? {
          var i :| 0 <= i < |turns| && turns[i].Takes?;
          assert turns[..n][i].Takes?;
        }
      }
    }
  }

  /** After `bm execute n` the first to take the quantity gets n and the others get 0; without it everybody gets -1. */
  lemma QuantityIsHandedOutOnce(m: Manager, n: int, turns: seq<Turn>, i: nat)
    requires n > 0 && QuantityLeft(turns) && i < |turns| && turns[i].Takes?
    ensures Taken(Obey(m, Execute(n)), turns, i) == if SomeTaken(turns[..i]) then 0 else n
    ensures m.exeQty == -1 ==> Taken(m, turns, i) == -1
  {
    QuantityAfter(Obey(m, Execute(n)), turns[..i]);
    QuantityAfter(m, turns[..i]);
  }

  // ---------------------------------------------------------------- counters

  /** `n` questions of kind `k` were asked between `m` and `m1`, as far as a counter can tell. */
  ghost predicate UsedUp(m: Manager, m1: Manager, k: Kind, n: int) {
    m.mode.Get(k) == Counted ==>
      m1.mode.Get(k) == Counted && m1.times.Get(k) == Max(0, m.times.Get(k) - n)
  }

  lemma AskUses(m: Manager, kind: Kind, coin: bool, k: Kind)
    ensures UsedUp(m, Ask(m, kind, coin).m, k, if k == kind then 1 else 0)
  {
  }

  lemma UsesAdd(m0: Manager, m1: Manager, m2: Manager, k: Kind, n1: nat, n2: nat)
    requires UsedUp(m0, m1, k, n1) && UsedUp(m1, m2, k, n2)
    ensures UsedUp(m0, m2, k, n1 + n2)
  {
  }
}
