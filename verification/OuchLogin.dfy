/** Orders are accepted only while the client is logged in, and a login only while it is not. */
module OuchLogin {
  import opened Bytes
  import opened OuchOrders
  import opened Ouch
  import opened Walks
  import opened OuchTrace
  import Behavior

  /** Before position `n` there is a login that no logout and no lost connection ended. */
  ghost predicate OpenAt(log: Log, n: nat)
    requires n <= |log|
  {
    exists i :: LoginHolds(log, i, n)
  }

  ghost predicate LoginHolds(log: Log, i: int, n: nat)
    requires n <= |log|
  {
    0 <= i < n && log[i].LoginAccepted? && forall h :: i < h < n ==> !log[h].SessionClosed?
  }

  ghost predicate LoginRespected(log: Log) {
    forall j :: 0 <= j < |log| ==>
      (log[j].Accepted? ==> OpenAt(log, j)) && (log[j].LoginAccepted? ==> !OpenAt(log, j))
  }

  ghost predicate Regular(s: Session) {
    LoginRespected(s.log) && (s.loggedIn <==> OpenAt(s.log, |s.log|))
  }

  /** Between two logins lies an end of the session. */
  lemma LoginsAreSeparated(log: Log, i: nat, j: nat)
    requires LoginRespected(log) && i < j < |log| && log[i].LoginAccepted? && log[j].LoginAccepted?
    ensures exists h :: i < h < j && log[h].SessionClosed?
  {
    if forall h :: i < h < j ==> !log[h].SessionClosed? {
      assert LoginHolds(log, i, j);
    }
  }

  lemma PrefixOpen(l0: Log, l1: Log, n: nat)
    requires n <= |l0| <= |l1| && l1[..|l0|] == l0
    ensures OpenAt(l0, n) <==> OpenAt(l1, n)
  {
    assert forall h :: 0 <= h < |l0| ==> l1[h] == l0[h];
    if OpenAt(l0, n) {
      var i :| LoginHolds(l0, i, n);
      assert LoginHolds(l1, i, n);
    }
    if OpenAt(l1, n) {
      var i :| LoginHolds(l1, i, n);
      assert LoginHolds(l0, i, n);
    }
  }

  /** Other events neither open nor close the session. */
  lemma OthersKeep(l0: Log, l1: Log, cs: set<Class>)
    requires LoginRespected(l0) && Adds(l0, l1, cs)
    requires ALogin !in cs && AnEntry !in cs && AClosing !in cs
    ensures LoginRespected(l1)
    ensures OpenAt(l1, |l1|) <==> OpenAt(l0, |l0|)
  {
    forall j | 0 <= j < |l1|
      ensures (l1[j].Accepted? ==> OpenAt(l1, j)) && (l1[j].LoginAccepted? ==> !OpenAt(l1, j))
    {
      if j < |l0| {
        assert l1[j] == l0[j];
        PrefixOpen(l0, l1, j);
      }
    }
    PrefixOpen(l0, l1, |l0|);
    if OpenAt(l1, |l1|) {
      var i :| LoginHolds(l1, i, |l1|);
      assert ClassOf(l1[i]) == ALogin;
      assert LoginHolds(l1, i, |l0|);
    }
    if OpenAt(l0, |l0|) {
      var i :| LoginHolds(l1, i, |l0|);
      assert forall h :: |l0| <= h < |l1| ==> !l1[h].SessionClosed?;
      assert LoginHolds(l1, i, |l1|);
    }
  }

  /** One event at the end of the log. */
  lemma OneMore(log: Log, e: Event)
    requires LoginRespected(log)
    requires (e.Accepted? ==> OpenAt(log, |log|)) && (e.LoginAccepted? ==> !OpenAt(log, |log|))
    ensures LoginRespected(log + [e])
    ensures OpenAt(log + [e], |log| + 1) <==> e.LoginAccepted? || (!e.SessionClosed? && OpenAt(log, |log|))
  {
    var l1 := log + [e];
    assert l1[|log|] == e;
    forall j | 0 <= j < |l1|
      ensures (l1[j].Accepted? ==> OpenAt(l1, j)) && (l1[j].LoginAccepted? ==> !OpenAt(l1, j))
    {
      PrefixOpen(log, l1, j);
    }
    PrefixOpen(log, l1, |log|);
    if e.LoginAccepted? {
      assert LoginHolds(l1, |log|, |l1|);
    } else if !e.SessionClosed? && OpenAt(log, |log|) {
      var i :| LoginHolds(l1, i, |log|);
      assert LoginHolds(l1, i, |l1|);
    } else if OpenAt(l1, |l1|) {
      var i :| LoginHolds(l1, i, |l1|);
      assert i != |log| && LoginHolds(l1, i, |log|);
    }
  }

  lemma EnterRegular(s: Session, m: Manager, eo: EnterOrder, id: uint64, now: int, coin: bool)
    requires Regular(s)
    ensures Regular(Enter(s, m, eo, id, now, coin).s)
  {
    hide LoginRespected, OpenAt, ValidEnter, Behavior.Ask, AcceptedMessage;
    OneMore(s.log, Rejected(eo.token, ExceededConfiguredSafety));
    OneMore(s.log, Rejected(eo.token, Other));
    if s.loggedIn {
      OneMore(s.log, Accepted(AcceptedMessage(ParseOrder(eo, id, now))));
    }
  }

  lemma LoginRegular(s: Session, m: Manager, coin: bool)
    requires Regular(s)
    ensures Regular(HandleLogin(s, m, coin).s)
  {
    hide LoginRespected, OpenAt, Behavior.Ask;
    OneMore(s.log, LoginRejected(SessionNotAvailable));
    OneMore(s.log, LoginRejected(NotAuthorized));
    if !s.loggedIn {
      OneMore(s.log, LoginAccepted);
    }
  }

  lemma StepRegular(s: Session, m: Manager, step: Step)
    requires Regular(s) && Legal(s, m, step)
    ensures Regular(Apply(s, m, step).s)
    ensures step.DoClose? ==> Apply(s, m, step).s.active == s.active && Apply(s, m, step).s.finished == s.finished
  {
    hide LoginRespected, OpenAt, Adds, BeforeExecution;
    match step
    case DoLogin(coin) => LoginRegular(s, m, coin);
    case DoClose => OneMore(s.log, SessionClosed);
    case DoEnter(eo, id, now, coin) => EnterRegular(s, m, eo, id, now, coin);
    case DoTick(d) =>
      TickPays(s, m, d);
      OthersKeep(s.log, Tick(s, m, d).s.log, {AUserCancel, AFill, Another});
      TickKeepsLogin(s, m, d);
    case DoCancelAll(order, now) =>
      CancelAllAdds(s.log, s.active, order, now);
      OthersKeep(s.log, CancelAll(s, order, now).log, {Another});
    case _ => QueuePays(s, m, step);
  }

  lemma TickKeepsLogin(s: Session, m: Manager, d: Draws)
    requires IsOrder(d.order, BeforeExecution(s, m, d).s.active.Keys)
    ensures Tick(s, m, d).s.loggedIn == s.loggedIn
  {
  }
}
