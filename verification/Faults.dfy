/** Runs, from the opening on, after which the ledger of the client is wrong. */
module Faults {
  import opened Bytes
  import opened OuchOrders
  import opened Ouch
  import opened Walks
  import opened OuchLedger
  import Behavior
  import Exchange

  const TOKEN: Token := Token([65, 65, 65, 65, 65, 65, 65, 65, 65, 65, 65, 65, 65, 65])

  const SYMBOL: Bytes := [88, 0, 0, 0, 0, 0, 0, 0]
  const FIRM: Bytes := [70, 0, 0, 0]

  function Request(timeInForce: uint32): EnterOrder {
    EnterOrder(TOKEN, BUY, 1000, SYMBOL, 100, timeInForce, FIRM, Ascii('Y'), Ascii('A'),
               Ascii('Y'), 0, Ascii('N'), Ascii('R'))
  }

  function Entered(timeInForce: uint32): OuchOrder {
    ParseOrder(Request(timeInForce), 1, 0)
  }

  /** A tick at time 0, in which everything random comes out as said. */
  function TickOf(order: seq<Token>, roll: Roll): Draws {
    Draws(0, _ => true, _ => Entered(SYSTEM), order, _ => true, _ => roll)
  }

  /** A run of the OUCH side alone. */
  function OnlyOuch(steps: seq<Step>): seq<Exchange.Step> {
    if steps == [] then [] else OnlyOuch(steps[..|steps| - 1]) + [Exchange.OnOuch(steps[|steps| - 1])]
  }

  /** What the run leaves of the OUCH session, with the manager at its defaults. */
  function After(steps: seq<Step>): Session {
    Exchange.Run(Exchange.Opening(0), OnlyOuch(steps)).ouch
  }

  ghost predicate Unchanged(steps: seq<Step>) {
    var x := Exchange.Run(Exchange.Opening(0), OnlyOuch(steps));
    x.m == Behavior.INITIAL
  }

  lemma OneMore(steps: seq<Step>, step: Step, s: Session, r: Session)
    requires Unchanged(steps) && After(steps) == s
    requires Legal(s, Behavior.INITIAL, step) && Apply(s, Behavior.INITIAL, step) == Outcome(r, Behavior.INITIAL)
    ensures Unchanged(steps + [step]) && After(steps + [step]) == r
  {
    hide Legal, Apply;
    var all := steps + [step];
    assert all[..|steps|] == steps;
    var run := OnlyOuch(steps);
    assert OnlyOuch(all) == run + [Exchange.OnOuch(step)];
    assert (run + [Exchange.OnOuch(step)])[..|run|] == run;
  }

  // ---------------------------------------------------------------- the beginning

  function Beginning(timeInForce: uint32): seq<Step> {
    [DoLogin(true), DoEnter(Request(timeInForce), 1, 0, true)]
  }

  function Single(o: OuchOrder): Book {
    map[TOKEN := o]
  }

  function Begun(timeInForce: uint32): Session {
    Session(Single(Entered(timeInForce)), map[], [], [], [], true, 0,
            [LoginAccepted, Accepted(AcceptedMessage(Entered(timeInForce)))])
  }

  lemma Begins(timeInForce: uint32)
    ensures Unchanged(Beginning(timeInForce)) && After(Beginning(timeInForce)) == Begun(timeInForce)
  {
    hide Legal, Apply, Begun, Request, Exchange.Next;
    var s := LoggedIn();
    var enter := DoEnter(Request(timeInForce), 1, 0, true);
    LogsIn();
    Enters(timeInForce);
    assert OnlyOuch([]) == [];
    OneMore([], DoLogin(true), Initial(0), s);
    assert [] + [DoLogin(true)] == [DoLogin(true)];
    OneMore([DoLogin(true)], enter, s, Begun(timeInForce));
    assert [DoLogin(true)] + [enter] == Beginning(timeInForce);
  }

  function LoggedIn(): Session {
    Initial(0).(loggedIn := true, log := [LoginAccepted])
  }

  lemma LogsIn()
    ensures Legal(Initial(0), Behavior.INITIAL, DoLogin(true))
    ensures Apply(Initial(0), Behavior.INITIAL, DoLogin(true)) == Outcome(LoggedIn(), Behavior.INITIAL)
  {
  }

  lemma Enters(timeInForce: uint32)
    ensures var enter := DoEnter(Request(timeInForce), 1, 0, true);
            && Legal(LoggedIn(), Behavior.INITIAL, enter)
            && Apply(LoggedIn(), Behavior.INITIAL, enter) == Outcome(Begun(timeInForce), Behavior.INITIAL)
  {
    RequestIsValid(timeInForce);
    hide ValidEnter, AcceptedMessage, ParseOrder;
    assert map[][TOKEN := Entered(timeInForce)] == Single(Entered(timeInForce));
  }

  lemma RequestIsValid(timeInForce: uint32)
    ensures ValidEnter(Request(timeInForce))
  {
    assert SWEEPS[0] == Ascii('Y') && CROSS_TYPES[0] == Ascii('N') && CUSTOMER_TYPES[1] == Ascii('R');
    assert DISPLAYS[1] == Ascii('Y');
  }

  /** The client's row for the order at the beginning. */
  function Row0(timeInForce: uint32): Row {
    Row(1000, 0, BUY, 100, timeInForce, 0)
  }

  lemma NothingToReplay()
    ensures Replay([]) == map[]
  {
  }

  lemma BegunRow(timeInForce: uint32)
    ensures Replay(Begun(timeInForce).log) == map[TOKEN := Row0(timeInForce)]
  {
    hide StrNCpy, Replay;
    var a := Accepted(AcceptedMessage(Entered(timeInForce)));
    assert Replay([]) == map[] by {
      NothingToReplay();
    }
    assert [LoginAccepted] + [a] == Begun(timeInForce).log;
    ReplayOne([], LoginAccepted);
    assert [] + [LoginAccepted] == [LoginAccepted];
    ReplayOne([LoginAccepted], a);
  }

  // ---------------------------------------------------------------- faults

  /** A row with something open and no order for it: the ledger is not the book. */
  lemma Misled(s: Session, row: Row)
    requires s.active == map[] && Replay(s.log) == map[TOKEN := row] && row.open != 0
    ensures !Rebuilt(s)
  {
    hide Replay;
    assert !AgreesAt(s.active, {}, Replay(s.log), TOKEN);
  }

  /** cancel_all drops an order whose time is over without a message. */
  lemma CancelAllMisleads()
    ensures !Rebuilt(After(Beginning(IOC) + [DoCancelAll([TOKEN], 0)]))
  {
    hide Apply, Legal, Beginning, After, Unchanged;
    var s := Begun(IOC);
    var r := s.(active := map[]);
    Begins(IOC);
    ExpiredIsDropped();
    OneMore(Beginning(IOC), DoCancelAll([TOKEN], 0), s, r);
    BegunRow(IOC);
    Misled(r, Row0(IOC));
  }

  lemma ExpiredIsDropped()
    ensures var s, step := Begun(IOC), DoCancelAll([TOKEN], 0);
            && Legal(s, Behavior.INITIAL, step)
            && Apply(s, Behavior.INITIAL, step) == Outcome(s.(active := map[]), Behavior.INITIAL)
  {
    hide Behavior.Ask;
    assert [TOKEN][..0] == [];
    assert CancelAllLog(Begun(IOC).log, Single(Entered(IOC)), [TOKEN], 0) == Begun(IOC).log;
  }

  /** A session that has nothing but orders in the book and modifies in the queue. */
  function Plain(b: Book, queue: seq<ModifyOrder>, log: Log): Session {
    Session(b, map[], [], queue, [], true, 0, log)
  }

  function Fresh(b: Book, log: Log): Phase {
    Phase(b, map[], log, {}, Behavior.INITIAL)
  }

  lemma CancelTwo(p: Phase, a: CancelOrder, b: CancelOrder, coin: Coins)
    ensures CancelAllOf(p, [a, b], coin) == CancelStep(CancelStep(p, a, coin(0)), b, coin(1))
  {
    hide CancelStep;
    assert [a, b][..1] == [a] && [a][..0] == [];
    assert CancelAllOf(p, [a], coin) == CancelStep(p, a, coin(0));
  }

  lemma ModifyTwo(p: Phase, a: ModifyOrder, b: ModifyOrder)
    ensures ModifyAllOf(p, [a]) == ModifyStep(p, a) && ModifyAllOf(p, [a, b]) == ModifyStep(ModifyStep(p, a), b)
  {
    hide ModifyStep;
    assert [a, b][..1] == [a] && [a][..0] == [];
    assert ModifyAllOf(p, [a]) == ModifyStep(p, a);
  }

  /** The passes of a tick in which no order is left to execute. */
  lemma LastTick(s: Session, p1: Phase, p2: Phase, p3: Phase)
    requires s.loggedIn && s.lastBeat == 0 && s.finished == map[]
    requires var coin := TickOf([], 1).cancelCoin; CancelAllOf(Fresh(s.active, s.log), s.pendingCancel, coin) == p1
    requires ModifyAllOf(Fresh(p1.active - p1.done, p1.log), s.pendingModify) == p2
    requires ReplaceAllOf(Fresh(p2.active - p2.done, p2.log), s.pendingReplace, TickOf([], 1).junk) == p3
    requires p1.m == Behavior.INITIAL && p2.m == Behavior.INITIAL && p3.m == Behavior.INITIAL
    requires p1.finished == map[] && p2.finished == map[] && p3.finished == map[] && p3.active - p3.done == map[]
    ensures var step := DoTick(TickOf([], 1));
            && Legal(s, Behavior.INITIAL, step)
            && Apply(s, Behavior.INITIAL, step) == Outcome(Plain(map[], s.pendingModify, p3.log), Behavior.INITIAL)
  {
    hide CancelAllOf, ModifyAllOf, ReplaceAllOf;
    var none: Book := map[];
    assert none - {} == none;
  }

  // ---------------------------------------------------------------- cancelling twice

  const FULL_CANCEL: CancelOrder := CancelOrder(TOKEN, 0)

  /** Two full cancels in one tick are both reported. */
  lemma TwoCancelsMislead()
    ensures !Rebuilt(After(Beginning(SYSTEM) + [DoCancel(FULL_CANCEL, true)] + [DoCancel(FULL_CANCEL, true)]
                           + [DoTick(TickOf([], 1))]))
  {
    hide Apply, Legal, Beginning, After, Unchanged, Begun;
    var s := Begun(SYSTEM);
    var s1 := s.(pendingCancel := [FULL_CANCEL]);
    var s2 := s.(pendingCancel := [FULL_CANCEL, FULL_CANCEL]);
    var steps := Beginning(SYSTEM);
    var cancel := DoCancel(FULL_CANCEL, true);
    Begins(SYSTEM);
    CancelsQueue();
    OneMore(steps, cancel, s, s1);
    OneMore(steps + [cancel], cancel, s1, s2);
    TwoCancelsWorkedOff();
    var canceled := Canceled(TOKEN, 1000, UserRequested);
    var r := Plain(map[], [], s.log + [canceled] + [canceled]);
    OneMore(steps + [cancel] + [cancel], DoTick(TickOf([], 1)), s2, r);
    BegunRow(SYSTEM);
    ReplayOne(s.log, canceled);
    ReplayOne(s.log + [canceled], canceled);
    Misled(r, Row0(SYSTEM).(open := -1000));
  }

  lemma CancelsQueue()
    ensures var s, cancel := Begun(SYSTEM), DoCancel(FULL_CANCEL, true);
            var s1, s2 := s.(pendingCancel := [FULL_CANCEL]), s.(pendingCancel := [FULL_CANCEL, FULL_CANCEL]);
            && Legal(s, Behavior.INITIAL, cancel) && Legal(s1, Behavior.INITIAL, cancel)
            && Apply(s, Behavior.INITIAL, cancel) == Outcome(s1, Behavior.INITIAL)
            && Apply(s1, Behavior.INITIAL, cancel) == Outcome(s2, Behavior.INITIAL)
  {
    assert [] + [FULL_CANCEL] == [FULL_CANCEL];
    assert [FULL_CANCEL] + [FULL_CANCEL] == [FULL_CANCEL, FULL_CANCEL];
  }

  lemma TwoCancelsWorkedOff()
    ensures var s, canceled := Begun(SYSTEM), Canceled(TOKEN, 1000, UserRequested);
            var s2, step := s.(pendingCancel := [FULL_CANCEL, FULL_CANCEL]), DoTick(TickOf([], 1));
            && Legal(s2, Behavior.INITIAL, step)
            && Apply(s2, Behavior.INITIAL, step)
               == Outcome(Plain(map[], [], s.log + [canceled] + [canceled]), Behavior.INITIAL)
  {
    hide Apply, Legal, StrNCpy, AcceptedMessage, CancelAllOf;
    var s, canceled := Begun(SYSTEM), Canceled(TOKEN, 1000, UserRequested);
    var d := TickOf([], 1);
    var p := Fresh(s.active, s.log);
    CancelTwo(p, FULL_CANCEL, FULL_CANCEL, d.cancelCoin);
    var p0 := p.(done := {TOKEN}, log := s.log + [canceled]);
    assert CancelStep(p, FULL_CANCEL, true) == p0;
    var p1 := p.(done := {TOKEN}, log := s.log + [canceled] + [canceled]);
    assert CancelStep(p0, FULL_CANCEL, true) == p1;
    hide CancelStep;
    LastTick(s.(pendingCancel := [FULL_CANCEL, FULL_CANCEL]), p1, Fresh(map[], p1.log), Fresh(map[], p1.log));
  }

  // ---------------------------------------------------------------- replacing an order by itself

  const SAME_TOKEN: ReplaceOrder := ReplaceOrder(TOKEN, TOKEN, 500, 100, SYSTEM, Ascii('Y'), Ascii('Y'), 0)

  function SelfReplaced(): Event {
    Replaced(ReplacedMessage(SAME_TOKEN, Renewed(SAME_TOKEN, Entered(SYSTEM))))
  }

  /** A replacement of an order by its own token erases it, and reports that it lives. */
  lemma SelfReplacementMisleads()
    ensures !Rebuilt(After(Beginning(SYSTEM) + [DoReplace(SAME_TOKEN, true)] + [DoTick(TickOf([], 1))]))
  {
    hide Apply, Legal, Beginning, After, Unchanged, Begun, ReplacedMessage;
    var s := Begun(SYSTEM);
    var s1 := s.(pendingReplace := [SAME_TOKEN]);
    var replaced := SelfReplaced();
    var r := Plain(map[], [], s.log + [replaced]);
    Begins(SYSTEM);
    ReplaceQueues();
    OneMore(Beginning(SYSTEM), DoReplace(SAME_TOKEN, true), s, s1);
    SelfReplacementWorkedOff();
    OneMore(Beginning(SYSTEM) + [DoReplace(SAME_TOKEN, true)], DoTick(TickOf([], 1)), s1, r);
    BegunRow(SYSTEM);
    ReplayOne(s.log, replaced);
    SelfReplacedMessage();
    Misled(r, Row0(SYSTEM).(open := 500));
  }

  lemma SelfReplacedMessage()
    ensures var m := ReplacedMessage(SAME_TOKEN, Renewed(SAME_TOKEN, Entered(SYSTEM)));
            && m.original == TOKEN && m.token == TOKEN && m.qty == 500 && m.side == BUY && m.price == 100
            && m.timeInForce == SYSTEM
  {
    hide StrNCpy;
  }

  lemma ReplaceQueues()
    ensures var s, replace := Begun(SYSTEM), DoReplace(SAME_TOKEN, true);
            && Legal(s, Behavior.INITIAL, replace)
            && Apply(s, Behavior.INITIAL, replace) == Outcome(s.(pendingReplace := [SAME_TOKEN]), Behavior.INITIAL)
  {
    assert ValidReplace(SAME_TOKEN) by {
      assert SWEEPS[0] == Ascii('Y') && DISPLAYS[1] == Ascii('Y');
    }
    assert [] + [SAME_TOKEN] == [SAME_TOKEN];
  }

  lemma SelfReplacementWorkedOff()
    ensures var s, replaced := Begun(SYSTEM), SelfReplaced();
            var s1, step := s.(pendingReplace := [SAME_TOKEN]), DoTick(TickOf([], 1));
            && Legal(s1, Behavior.INITIAL, step)
            && Apply(s1, Behavior.INITIAL, step) == Outcome(Plain(map[], [], s.log + [replaced]), Behavior.INITIAL)
  {
    hide ReplacedMessage, Apply, Legal;
    var s, replaced := Begun(SYSTEM), SelfReplaced();
    var p := Fresh(s.active, s.log);
    var none: Book := map[];
    assert [SAME_TOKEN][..0] == [];
    assert p.active[TOKEN := Renewed(SAME_TOKEN, Entered(SYSTEM))] - {TOKEN} == none;
    assert p.active - {} == p.active;
    assert ReplaceAllOf(p, [SAME_TOKEN], TickOf([], 1).junk) == Fresh(none, s.log + [replaced]);
    LastTick(s.(pendingReplace := [SAME_TOKEN]), p, p, Fresh(none, s.log + [replaced]));
  }

  // ---------------------------------------------------------------- raising what a modify asked for

  const TO_500: ModifyOrder := ModifyOrder(TOKEN, BUY, 500)
  const TO_800: ModifyOrder := ModifyOrder(TOKEN, BUY, 800)

  /** The order with so many shares left and executed. */
  function With(remaining: int, executed: int): OuchOrder {
    Entered(SYSTEM).(remaining := remaining, executed := executed)
  }

  /** A buy order modified to 500 shares and later to 800. When 600 are executed the first request, which is tried again
      at every tick, closes the order; the second reports 200 shares; then the order is erased. In the tick that does it
      nothing was requested. */
  lemma RaisedModifyMisleads()
    ensures !Rebuilt(After(Beginning(SYSTEM) + [DoModify(TO_500, true)] + [DoTick(TickOf([TOKEN], 1))]
                           + [DoModify(TO_800, true)] + [DoTick(TickOf([TOKEN], 5))] + [DoTick(TickOf([], 1))]))
  {
    hide Apply, Legal, Beginning, After, Unchanged, Begun;
    var s := Begun(SYSTEM);
    var q, q2 := [TO_500], [TO_500, TO_800];
    var l1 := s.log + [Modified(TOKEN, BUY, 500)] + [Executed(TOKEN, 100, 100)];
    var l2 := l1 + [Modified(TOKEN, BUY, 400)] + [Modified(TOKEN, BUY, 700)] + [Executed(TOKEN, 500, 100)];
    var l3 := l2 + [Modified(TOKEN, BUY, 0)] + [Modified(TOKEN, BUY, 200)];
    var steps := Beginning(SYSTEM);
    var steps1 := steps + [DoModify(TO_500, true)];
    var steps2 := steps1 + [DoTick(TickOf([TOKEN], 1))];
    var steps3 := steps2 + [DoModify(TO_800, true)];
    var steps4 := steps3 + [DoTick(TickOf([TOKEN], 5))];
    Begins(SYSTEM);
    BegunIsPlain();
    ModifyQueues(With(1000, 0), [], TO_500, s.log);
    OneMore(steps, DoModify(TO_500, true), s, Plain(Single(With(1000, 0)), q, s.log));
    FirstModifyTick(s.log);
    OneMore(steps1, DoTick(TickOf([TOKEN], 1)), Plain(Single(With(1000, 0)), q, s.log),
            Plain(Single(With(400, 100)), q, l1));
    ModifyQueues(With(400, 100), q, TO_800, l1);
    OneMore(steps2, DoModify(TO_800, true), Plain(Single(With(400, 100)), q, l1),
            Plain(Single(With(400, 100)), q2, l1));
    SecondModifyTick(l1);
    OneMore(steps3, DoTick(TickOf([TOKEN], 5)), Plain(Single(With(400, 100)), q2, l1),
            Plain(Single(With(200, 600)), q2, l2));
    ThirdModifyTick(l2);
    OneMore(steps4, DoTick(TickOf([], 1)), Plain(Single(With(200, 600)), q2, l2), Plain(map[], q2, l3));
    BegunRow(SYSTEM);
    RaisedRow(s.log, l1, l2, l3);
    Misled(Plain(map[], q2, l3), Row0(SYSTEM).(open := 200, filled := 600));
  }

  lemma BegunIsPlain()
    ensures Begun(SYSTEM) == Plain(Single(With(1000, 0)), [], Begun(SYSTEM).log)
  {
  }

  lemma ModifyQueues(o: OuchOrder, q: seq<ModifyOrder>, mo: ModifyOrder, log: Log)
    requires mo.token == TOKEN && ValidModify(mo)
    ensures var s, step := Plain(Single(o), q, log), DoModify(mo, true);
            && Legal(s, Behavior.INITIAL, step)
            && Apply(s, Behavior.INITIAL, step) == Outcome(Plain(Single(o), q + [mo], log), Behavior.INITIAL)
  {
  }

  /** A tick without cancels and replaces, in which the order is executed. */
  lemma FillingTick(o: OuchOrder, o1: OuchOrder, o2: OuchOrder, q: seq<ModifyOrder>, log: Log, log1: Log, roll: Roll,
                    filled: Log)
    requires ModifyAllOf(Fresh(Single(o), log), q) == Fresh(Single(o1), log1)
    requires VisitOrder(o1, 0, roll) == Keeps(o2, filled)
    ensures var s, step := Plain(Single(o), q, log), DoTick(TickOf([TOKEN], roll));
            && Legal(s, Behavior.INITIAL, step)
            && Apply(s, Behavior.INITIAL, step) == Outcome(Plain(Single(o2), q, log1 + filled), Behavior.INITIAL)
  {
    hide ModifyAllOf, VisitOrder;
    var d := TickOf([TOKEN], roll);
    var s := Plain(Single(o), q, log);
    assert Single(o) - {} == Single(o) && Single(o1) - {} == Single(o1);
    assert BeforeExecution(s, Behavior.INITIAL, d) == Outcome(Plain(Single(o1), q, log1), Behavior.INITIAL);
    assert [TOKEN][..0] == [];
    var p := Fresh(Single(o1), log1);
    assert Single(o1)[TOKEN := o2] == Single(o2) && Single(o2) - {} == Single(o2);
    assert ExecuteAllOf(p, [TOKEN], 0, d.executeCoin, d.roll) == Fresh(Single(o2), log1 + filled);
  }

  lemma FirstModifyTick(log: Log)
    ensures var s, step := Plain(Single(With(1000, 0)), [TO_500], log), DoTick(TickOf([TOKEN], 1));
            var log1 := log + [Modified(TOKEN, BUY, 500)] + [Executed(TOKEN, 100, 100)];
            && Legal(s, Behavior.INITIAL, step)
            && Apply(s, Behavior.INITIAL, step)
               == Outcome(Plain(Single(With(400, 100)), [TO_500], log1), Behavior.INITIAL)
  {
    hide Apply, Legal;
    var p := Fresh(Single(With(1000, 0)), log);
    ModifyTwo(p, TO_500, TO_500);
    assert ModifyStep(p, TO_500).active == Single(With(500, 0));
    FillingTick(With(1000, 0), With(500, 0), With(400, 100), [TO_500], log, log + [Modified(TOKEN, BUY, 500)], 1,
                [Executed(TOKEN, 100, 100)]);
  }

  lemma SecondModifyTick(log: Log)
    ensures var s, step := Plain(Single(With(400, 100)), [TO_500, TO_800], log), DoTick(TickOf([TOKEN], 5));
            var log1 := log + [Modified(TOKEN, BUY, 400)] + [Modified(TOKEN, BUY, 700)] + [Executed(TOKEN, 500, 100)];
            && Legal(s, Behavior.INITIAL, step)
            && Apply(s, Behavior.INITIAL, step)
               == Outcome(Plain(Single(With(200, 600)), [TO_500, TO_800], log1), Behavior.INITIAL)
  {
    hide Apply, Legal;
    var p := Fresh(Single(With(400, 100)), log);
    ModifyTwo(p, TO_500, TO_800);
    assert ModifyStep(p, TO_500).active == Single(With(400, 100));
    assert ModifyStep(ModifyStep(p, TO_500), TO_800).active == Single(With(700, 100));
    FillingTick(With(400, 100), With(700, 100), With(200, 600), [TO_500, TO_800], log,
                log + [Modified(TOKEN, BUY, 400)] + [Modified(TOKEN, BUY, 700)], 5, [Executed(TOKEN, 500, 100)]);
  }

  lemma ThirdModifyTick(log: Log)
    ensures var s, step := Plain(Single(With(200, 600)), [TO_500, TO_800], log), DoTick(TickOf([], 1));
            var log1 := log + [Modified(TOKEN, BUY, 0)] + [Modified(TOKEN, BUY, 200)];
            && Legal(s, Behavior.INITIAL, step)
            && Apply(s, Behavior.INITIAL, step) == Outcome(Plain(map[], [TO_500, TO_800], log1), Behavior.INITIAL)
  {
    hide Apply, Legal;
    var p := Fresh(Single(With(200, 600)), log);
    var log1 := log + [Modified(TOKEN, BUY, 0)] + [Modified(TOKEN, BUY, 200)];
    ModifyTwo(p, TO_500, TO_800);
    var p2 := p.(done := {TOKEN}, log := log1);
    assert ModifyStep(ModifyStep(p, TO_500), TO_800).active == Single(With(200, 600));
    assert p.active - {} == p.active;
    var none: Book := map[];
    assert p2.active - p2.done == none;
    LastTick(Plain(Single(With(200, 600)), [TO_500, TO_800], log), p, p2, Fresh(none, log1));
  }

  lemma RaisedRow(log: Log, l1: Log, l2: Log, l3: Log)
    requires Replay(log) == map[TOKEN := Row0(SYSTEM)]
    requires l1 == log + [Modified(TOKEN, BUY, 500)] + [Executed(TOKEN, 100, 100)]
    requires l2 == l1 + [Modified(TOKEN, BUY, 400)] + [Modified(TOKEN, BUY, 700)] + [Executed(TOKEN, 500, 100)]
    requires l3 == l2 + [Modified(TOKEN, BUY, 0)] + [Modified(TOKEN, BUY, 200)]
    ensures Replay(l3) == map[TOKEN := Row0(SYSTEM).(open := 200, filled := 600)]
  {
    hide Replay;
    ReplayOne(log, Modified(TOKEN, BUY, 500));
    ReplayOne(log + [Modified(TOKEN, BUY, 500)], Executed(TOKEN, 100, 100));
    ReplayOne(l1, Modified(TOKEN, BUY, 400));
    ReplayOne(l1 + [Modified(TOKEN, BUY, 400)], Modified(TOKEN, BUY, 700));
    ReplayOne(l1 + [Modified(TOKEN, BUY, 400)] + [Modified(TOKEN, BUY, 700)], Executed(TOKEN, 500, 100));
    ReplayOne(l2, Modified(TOKEN, BUY, 0));
    ReplayOne(l2 + [Modified(TOKEN, BUY, 0)], Modified(TOKEN, BUY, 200));
  }
}
