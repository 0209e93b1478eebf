/**
 Losing the remote object, by what happened: which calls in flight have lost their interface and
 will be tried again, and what the proxy's status is.
 */
module Reconnection {
  import opened Wrappers
  import opened CallQueue

  // ------------------------------------------------ What an event does to a call in flight

  /** A call whose interface is alive was sent over the one that is there. */
  ghost predicate AliveInv(s: State) {
    forall c :: c in s.inFlight && !s.inFlight[c] ==> s.hasInterface
  }

  ghost predicate FlightInv(s: State) {
    AliveInv(s) && (s.status == Ready ==> s.hasInterface)
  }

  predicate SentBetween(s: State, t: State, c: nat) {
    multiset(t.sent)[c] > multiset(s.sent)[c]
  }

  /** A call in flight was sent just now, over an interface that is alive; or it was in flight before,
      and has lost its interface if it had already or the event drops the interface. */
  predicate FlightMoves(s: State, t: State, c: nat, drops: bool) {
    c in t.inFlight ==>
      if SentBetween(s, t, c) then !t.inFlight[c]
      else c in s.inFlight && t.inFlight[c] == (s.inFlight[c] || drops)
  }

  lemma QueueFlight(s: State, c: nat)
    requires OnePlace(s, c) && FlightInv(s)
    ensures FlightMoves(s, QueueCall(s), c, false) && FlightInv(QueueCall(s))
  {
  }

  lemma FinishFlight(s: State, t: State, d: nat, c: nat)
    requires FlightInv(s) && t.sent == s.sent && t.inFlight == s.inFlight - {d}
    requires t.status == s.status && t.hasInterface == s.hasInterface
    ensures FlightMoves(s, t, c, false) && FlightInv(t)
  {
  }

  lemma IncompleteFlight(s: State, c: nat)
    requires AliveInv(s)
    ensures var t := SetStatus(s, Incomplete); FlightMoves(s, t, c, false) && FlightInv(t)
  {
  }

  lemma InvalidFlight(s: State, c: nat)
    requires AliveInv(s)
    ensures var t := SetStatus(s, Invalid); FlightMoves(s, t, c, false) && FlightInv(t)
  {
    FinishAllIs(s.(status := Invalid), s.queue);
    hide FinishAll;
  }

  lemma ReadyFlight(s: State, c: nat)
    requires NoDuplicates(s.queue) && s.hasInterface
    ensures var t := SetStatus(s, Ready); FlightMoves(s, t, c, false) && FlightInv(t)
  {
    DoCallsIs(s.(status := Ready), s.queue);
    CountOnce(s.queue, c);
    hide DoCalls, NoDuplicates, Unsent;
  }

  lemma DropFlight(s: State, c: nat)
    requires FlightInv(s)
    ensures var t := DropInterface(s);
      && !t.hasInterface && t.queue == s.queue && t.sent == s.sent
      && t.hasConnection == s.hasConnection && t.hasPath == s.hasPath
      && FlightMoves(s, t, c, true) && forall d :: d in t.inFlight ==> t.inFlight[d]
    ensures AliveInv(DropInterface(s))
  {
  }

  lemma ThenMoves(s: State, t: State, u: State, c: nat)
    requires t.sent == s.sent && FlightMoves(s, t, c, true) && FlightMoves(t, u, c, false)
    ensures FlightMoves(s, u, c, true)
  {
  }

  lemma SameFlight(s: State, s': State, t: State, c: nat)
    requires s'.inFlight == s.inFlight && s'.sent == s.sent && FlightMoves(s', t, c, false)
    ensures FlightMoves(s, t, c, false)
  {
  }

  lemma UpdateFlight(s: State, connected: bool, c: nat)
    requires FlightInv(s) && NoDuplicates(s.queue)
    ensures var t := Update(s, connected); FlightMoves(s, t, c, true) && FlightInv(t)
  {
    var t := DropInterface(s);
    DropFlight(s, c);
    hide DropInterface, SetStatus, FlightMoves, NoDuplicates, AliveInv, FlightInv;
    if !t.hasConnection || !t.hasPath {
      IncompleteFlight(t, c);
      ThenMoves(s, t, SetStatus(t, Incomplete), c);
    } else if !connected {
      InvalidFlight(t, c);
      ThenMoves(s, t, SetStatus(t, Invalid), c);
    } else {
      var ready := t.(hasInterface := true);
      ReadyFlight(ready, c);
      SameFlight(t, ready, SetStatus(ready, Ready), c);
      ThenMoves(s, t, SetStatus(ready, Ready), c);
    }
  }

  lemma EndFlight(s: State, d: nat, outcome: Outcome, c: nat)
    requires FlightInv(s) && d in s.inFlight
    ensures var t := OnFinished(s, d, outcome); FlightMoves(s, t, c, false) && FlightInv(t)
  {
    hide RemoveOne;
  }

  lemma CancelFlight(s: State, d: nat, c: nat)
    requires FlightInv(s)
    ensures var t := Cancel(s, d).0; FlightMoves(s, t, c, false) && FlightInv(t)
  {
    hide RemoveOne;
  }

  lemma FailFlight(s: State, d: nat, c: nat)
    requires FlightInv(s)
    ensures var t := Fail(s, d); FlightMoves(s, t, c, false) && FlightInv(t)
  {
    hide RemoveOne;
  }

  lemma StepFlight(s: State, e: Event, c: nat)
    requires PlaceInv(s) && FlightInv(s) && Enabled(s, e)
    ensures FlightMoves(s, Step(s, e), c, IsWorld(e)) && FlightInv(Step(s, e))
  {
    assert OnePlace(s, c);
    hide FlightMoves, FlightInv, QueueCall, Cancel, OnFinished, Fail, SetStatus, Update;
    match e
    case Queue => QueueFlight(s, c);
    case CancelCall(d) => CancelFlight(s, d, c);
    case CallEnds(d, outcome) => EndFlight(s, d, outcome, c);
    case PostedFailure(d) => FailFlight(s, d, c);
    case SetError => ErrorFlight(s, c);
    case SetConnection(connected) => WorldFlight(s, e, c);
    case SetDisconnected => WorldFlight(s, e, c);
    case SetObjectPath(_, _) => WorldFlight(s, e, c);
  }

  lemma ErrorFlight(s: State, c: nat)
    requires FlightInv(s)
    ensures FlightMoves(s, SetStatus(s, Invalid), c, false) && FlightInv(SetStatus(s, Invalid))
  {
    InvalidFlight(s, c);
  }

  lemma WorldFlight(s: State, e: Event, c: nat)
    requires PlaceInv(s) && FlightInv(s) && Enabled(s, e) && IsWorld(e)
    ensures FlightMoves(s, Step(s, e), c, true) && FlightInv(Step(s, e))
  {
    WorldStep(s, e);
    hide Step, Update;
    UpdateFlight(WorldChange(s, e), ConnectedAfter(e), c);
  }

  // -------------------------------------------------------- Which calls are tried again

  /** Since the call was last sent, an event came that drops the interface. */
  ghost predicate Lost(es: seq<Event>, c: nat)
    requires Exec(INITIAL, es).Some?
  {
    es != [] &&
    var n := |es| - 1;
    !SentBetween(Exec(INITIAL, es[..n]).value, Exec(INITIAL, es).value, c) && (Lost(es[..n], c) || IsWorld(es[n]))
  }

  lemma LostGrows(s: State, es: seq<Event>, c: nat) returns (u: State)
    requires es != [] && Reachable(s, es)
    ensures Reachable(u, es[..|es| - 1]) && Enabled(u, es[|es| - 1]) && s == Step(u, es[|es| - 1]) && Inv(u)
    ensures Lost(es, c) <==> !SentBetween(u, s, c) && (Lost(es[..|es| - 1], c) || IsWorld(es[|es| - 1]))
  {
    hide Step, Enabled, Inv;
    u := CallQueue.LastStep(INITIAL, es, s);
    ReachableInv(u, es[..|es| - 1]);
  }

  /** In every run, a call in flight has lost its interface exactly when an event that drops it came
      after the call was last sent. */
  lemma {:induction false} LostExactly(s: State, es: seq<Event>, c: nat)
    requires Reachable(s, es)
    ensures c in s.inFlight ==> (s.inFlight[c] <==> Lost(es, c))
    ensures FlightInv(s)
    decreases |es|
  {
    assert FlightInv(INITIAL);
    hide Step, Enabled, PlaceInv, OrderInv, FlightInv, Lost;
    if es != [] {
      var u := LostGrows(s, es, c);
      LostExactly(u, es[..|es| - 1], c);
      StepFlight(u, es[|es| - 1], c);
    }
  }

  /** So a call that ends with the error of a vanished peer waits again, behind the others and
      unfinished, exactly when the interface was dropped after it was last sent; in every other
      case it is finished, and reported. */
  lemma {:induction false} RequeuedExactly(s: State, es: seq<Event>, c: nat, outcome: Outcome)
    requires Reachable(s, es) && c in s.inFlight
    ensures var t := Step(s, CallEnds(c, outcome));
      && c !in t.inFlight
      && if Lost(es, c) && outcome == Error(true)
         then t.queue == s.queue + [c] && c !in t.finished && t.notified == s.notified
         else c !in t.queue && c in t.finished && t.notified == s.notified + multiset{c}
  {
    LostExactly(s, es, c);
    ReachableInv(s, es);
    assert OnePlace(s, c);
    RemoveOneRemoves(s.queue, c);
    hide Exec, Lost, RemoveOne, OrderInv, FlightInv;
  }

  // --------------------------------------------------------- The status, by what happened

  predicate Connected(es: seq<Event>) {
    es != [] &&
    match es[|es| - 1]
    case SetConnection(_) => true
    case SetDisconnected => false
    case _ => Connected(es[..|es| - 1])
  }

  predicate HasPath(es: seq<Event>) {
    es != [] &&
    match es[|es| - 1]
    case SetObjectPath(empty, _) => !empty
    case SetDisconnected => false
    case _ => HasPath(es[..|es| - 1])
  }

  /** The last event that was about the connection, the path or an error decides. */
  function StatusAfter(es: seq<Event>): Status {
    if es == [] then Incomplete
    else
      var e := es[|es| - 1];
      if e.SetError? then Invalid
      else if !IsWorld(e) then StatusAfter(es[..|es| - 1])
      else if !Connected(es) || !HasPath(es) then Incomplete
      else if ConnectedAfter(e) then Ready
      else Invalid
  }

  lemma SetStatusIs(s: State, status: Status)
    requires NoDuplicates(s.queue)
    ensures var t := SetStatus(s, status);
      t.status == status && t.hasConnection == s.hasConnection && t.hasPath == s.hasPath
  {
    DoCallsIs(s.(status := status), s.queue);
    FinishAllIs(s.(status := status), s.queue);
    hide DoCalls, FinishAll;
  }

  lemma UpdateStatus(s: State, connected: bool)
    requires NoDuplicates(s.queue)
    ensures var t := Update(s, connected);
      && t.hasConnection == s.hasConnection && t.hasPath == s.hasPath
      && t.status == if !s.hasConnection || !s.hasPath then Incomplete else if connected then Ready else Invalid
  {
    var s1 := DropInterface(s);
    assert s1.queue == s.queue && s1.hasConnection == s.hasConnection && s1.hasPath == s.hasPath;
    hide SetStatus, DropInterface;
    SetStatusIs(s1, Incomplete);
    SetStatusIs(s1, Invalid);
    SetStatusIs(s1.(hasInterface := true), Ready);
  }

  /** Status, connection and path. */
  predicate SameStatus(s: State, t: State) {
    t.hasConnection == s.hasConnection && t.hasPath == s.hasPath && t.status == s.status
  }

  lemma OtherStatus(s: State, e: Event)
    requires Enabled(s, e) && !IsWorld(e) && !e.SetError?
    ensures SameStatus(s, Step(s, e))
  {
    hide RemoveOne;
  }

  lemma StepStatus(s: State, e: Event)
    requires NoDuplicates(s.queue) && Enabled(s, e)
    ensures var t := Step(s, e);
      if IsWorld(e) then
        var w := WorldChange(s, e);
        && t.hasConnection == w.hasConnection && t.hasPath == w.hasPath
        && t.status == if !w.hasConnection || !w.hasPath then Incomplete else if ConnectedAfter(e) then Ready else Invalid
      else
        && t.hasConnection == s.hasConnection && t.hasPath == s.hasPath
        && t.status == if e.SetError? then Invalid else s.status
  {
    assert e.SetError? ==> Step(s, e) == SetStatus(s, Invalid);
    hide Update, SetStatus, Step;
    if IsWorld(e) {
      WorldStep(s, e);
      UpdateStatus(WorldChange(s, e), ConnectedAfter(e));
    } else if e.SetError? {
      SetStatusIs(s, Invalid);
    } else {
      OtherStatus(s, e);
    }
  }

  /** In every run the status of the proxy is what the events about connection, path and errors
      say: it is Ready exactly while the last of them found all there. */
  lemma {:induction false} StatusExactly(s: State, es: seq<Event>)
    requires Reachable(s, es)
    ensures s.status == StatusAfter(es) && s.hasConnection == Connected(es) && s.hasPath == HasPath(es)
    decreases |es|
  {
    hide Step, Enabled, OrderInv;
    if es != [] {
      var u := LostGrows(s, es, 0);
      StatusExactly(u, es[..|es| - 1]);
      StepStatus(u, es[|es| - 1]);
    }
  }
}
