/**
 The reconnecting client proxy: calls wait for a connection and an object path, go out in
 order when both are there, and come back to the queue when the remote object dies under
 them.  A call is known by its position in the order of queueCall.
 */
module CallQueue {
  import opened Wrappers

  // ---------------------------------------------------------------- Data model

  datatype Status = Incomplete | Ready | Invalid

  /** How a call in flight ends; `gone`: with one of the two errors of a vanished peer. */
  datatype Outcome = Success | Error(gone: bool)

  datatype State = State(
    status: Status,
    hasConnection: bool,
    hasPath: bool,
    hasInterface: bool,
    queue: seq<nat>,
    // calls in flight, with the interfaceWasDestroyed flag
    inFlight: map<nat, bool>,
    // calls with a failure posted, because they were queued while Invalid
    failing: set<nat>,
    finished: set<nat>,
    // calls that have a watcher: sent at least once
    started: set<nat>,
    next: nat,
    // histories
    sent: seq<nat>,
    firsts: seq<nat>,
    notified: multiset<nat>)

  const INITIAL := State(Incomplete, false, false, false, [], map[], {}, {}, {}, 0, [], [], multiset{})

  // ------------------------------------------------------------ Slots, on values

  function DoCall(s: State, c: nat): State {
    s.(inFlight := s.inFlight[c := false],
       started := s.started + {c},
       sent := s.sent + [c],
       firsts := if c in s.started then s.firsts else s.firsts + [c])
  }

  function DoCalls(s: State, calls: seq<nat>): State {
    if calls == [] then s else DoCall(DoCalls(s, calls[..|calls| - 1]), calls[|calls| - 1])
  }

  function Finish(s: State, c: nat): State {
    s.(queue := RemoveOne(s.queue, c),
       inFlight := s.inFlight - {c},
       finished := s.finished + {c},
       notified := s.notified + multiset{c})
  }

  function RemoveOne(q: seq<nat>, c: nat): seq<nat> {
    if q == [] then [] else if q[0] == c then q[1..] else [q[0]] + RemoveOne(q[1..], c)
  }

  function FinishAll(s: State, calls: seq<nat>): State {
    if calls == [] then s else Finish(FinishAll(s, calls[..|calls| - 1]), calls[|calls| - 1])
  }

  function SetStatus(s: State, status: Status): State {
    var s1 := s.(status := status);
    match status
    case Ready => DoCalls(s1, s1.queue).(queue := [])
    case Invalid => FinishAll(s1, s1.queue).(queue := [])
    case Incomplete => s1
  }

  function DropInterface(s: State): State {
    if s.hasInterface then s.(hasInterface := false, inFlight := map c | c in s.inFlight :: true) else s
  }

  function Update(s: State, connected: bool): State {
    var s1 := DropInterface(s);
    if !s1.hasConnection || !s1.hasPath then SetStatus(s1, Incomplete)
    else if !connected then SetStatus(s1, Invalid)
    else SetStatus(s1.(hasInterface := true), Ready)
  }

  function QueueCall(s: State): State {
    var c := s.next;
    var s1 := s.(next := c + 1);
    match s.status
    case Ready => DoCall(s1, c)
    case Incomplete => s1.(queue := s1.queue + [c])
    case Invalid => s1.(failing := s1.failing + {c})
  }

  /** Too late once the call has a watcher, and a requeued call keeps its old one. */
  function Cancel(s: State, c: nat): (r: (State, bool)) {
    if c in s.started then (s, false) else (Finish(s, c), true)
  }

  function OnFinished(s: State, c: nat, outcome: Outcome): State
    requires c in s.inFlight
  {
    if s.inFlight[c] && outcome == Error(true) then s.(inFlight := s.inFlight - {c}, queue := s.queue + [c])
    else Finish(s, c)
  }

  /** The posted failure of a call that was queued while Invalid. */
  function Fail(s: State, c: nat): State {
    Finish(s.(failing := s.failing - {c}), c)
  }

  // ------------------------------------------------------------------------ Runs

  datatype Event =
    | Queue
    | CancelCall(c: nat)
    | CallEnds(c: nat, outcome: Outcome)
    | PostedFailure(c: nat)
    | SetConnection(connected: bool)
    | SetDisconnected
    | SetObjectPath(empty: bool, connected: bool)
    | SetError

  predicate Enabled(s: State, e: Event) {
    match e
    case CancelCall(c) => c < s.next && c !in s.finished
    case CallEnds(c, _) => c in s.inFlight
    case PostedFailure(c) => c in s.failing
    case SetObjectPath(empty, _) => !s.hasPath || empty
    case _ => true
  }

  function Step(s: State, e: Event): State
    requires Enabled(s, e)
  {
    match e
    case Queue => QueueCall(s)
    case CancelCall(c) => Cancel(s, c).0
    case CallEnds(c, outcome) => OnFinished(s, c, outcome)
    case PostedFailure(c) => Fail(s, c)
    case SetConnection(connected) => Update(s.(hasConnection := true), connected)
    case SetDisconnected => Update(s.(hasConnection := false, hasPath := false), false)
    case SetObjectPath(empty, connected) => Update(s.(hasPath := !empty), connected)
    case SetError => SetStatus(s, Invalid)
  }

  function Exec(s: State, es: seq<Event>): Option<State> {
    if es == [] then Some(s)
    else
      match Exec(s, es[..|es| - 1])
      case None => None
      case Some(t) => if Enabled(t, es[|es| - 1]) then Some(Step(t, es[|es| - 1])) else None
  }

  lemma {:induction false} LastStep(s: State, es: seq<Event>, t: State) returns (u: State)
    requires es != [] && Exec(s, es) == Some(t)
    ensures Exec(s, es[..|es| - 1]) == Some(u) && Enabled(u, es[|es| - 1]) && t == Step(u, es[|es| - 1])
    ensures es == es[..|es| - 1] + [es[|es| - 1]]
  {
    hide Step, Enabled;
    u := Exec(s, es[..|es| - 1]).value;
  }

  /** Events that lead to update(). */
  predicate IsWorld(e: Event) {
    e.SetConnection? || e.SetDisconnected? || e.SetObjectPath?
  }

  /** Connection and path after such an event. */
  function WorldChange(s: State, e: Event): State
    requires IsWorld(e)
  {
    match e
    case SetConnection(_) => s.(hasConnection := true)
    case SetObjectPath(empty, _) => s.(hasPath := !empty)
    case SetDisconnected => s.(hasConnection := false, hasPath := false)
  }

  predicate ConnectedAfter(e: Event)
    requires IsWorld(e)
  {
    !e.SetDisconnected? && e.connected
  }

  lemma WorldStep(s: State, e: Event)
    requires IsWorld(e) && Enabled(s, e)
    ensures Step(s, e) == Update(WorldChange(s, e), ConnectedAfter(e))
  {
  }

  // ------------------------------------------------------------------- Invariant

  ghost predicate NoDuplicates(q: seq<nat>) {
    forall i, j :: 0 <= i < j < |q| ==> q[i] != q[j]
  }

  /** Every call is in exactly one place. */
  predicate OnePlace(s: State, c: nat) {
    && (c in s.inFlight ==> c !in s.queue && c !in s.finished && c !in s.failing && c in s.started)
    && (c in s.queue ==> c !in s.finished && c !in s.failing)
    && (c in s.failing ==> c !in s.started && c < s.next)
    && (c < s.next <==> c in s.queue || c in s.inFlight || c in s.finished || c in s.failing)
    && (c in s.started ==> c < s.next)
    && (c in s.started <==> c in s.sent)
  }

  ghost predicate PlaceInv(s: State) {
    NoDuplicates(s.queue) && forall c: nat :: OnePlace(s, c)
  }

  /** First sends happen in the order of queueCall, and calls not yet sent wait in that order. */
  ghost predicate OrderInv(s: State) {
    && (forall i, j :: 0 <= i < j < |s.firsts| ==> s.firsts[i] < s.firsts[j])
    && (forall i :: 0 <= i < |s.firsts| ==> s.firsts[i] < s.next)
    && (forall j, k :: 0 <= j < k < |s.queue| && s.queue[j] !in s.started && s.queue[k] !in s.started ==>
          s.queue[j] < s.queue[k])
    && (forall i, k :: 0 <= i < |s.firsts| && 0 <= k < |s.queue| && s.queue[k] !in s.started ==>
          s.firsts[i] < s.queue[k])
    && (s.status != Incomplete ==> forall k :: 0 <= k < |s.queue| ==> s.queue[k] in s.started)
    && (s.status == Ready ==> s.hasInterface)
  }

  ghost predicate Inv(s: State) {
    PlaceInv(s) && OrderInv(s)
  }

  // ------------------------------------------------------- Dispatching and failing all

  /** The calls that have never been sent, in order. */
  function Unsent(started: set<nat>, calls: seq<nat>): seq<nat> {
    if calls == [] then []
    else Unsent(started, calls[..|calls| - 1])
         + (if calls[|calls| - 1] in started then [] else [calls[|calls| - 1]])
  }

  lemma {:induction false} UnsentMember(started: set<nat>, calls: seq<nat>, c: nat)
    ensures c in Unsent(started, calls) <==> c in calls && c !in started
  {
    if calls != [] {
      var n := |calls| - 1;
      UnsentMember(started, calls[..n], c);
      assert calls == calls[..n] + [calls[n]];
    }
  }

  lemma {:induction false} UnsentInOrder(started: set<nat>, calls: seq<nat>)
    requires forall j, k :: 0 <= j < k < |calls| && calls[j] !in started && calls[k] !in started ==> calls[j] < calls[k]
    ensures var u := Unsent(started, calls);
            forall i, j :: 0 <= i < j < |u| ==> u[i] < u[j]
  {
    if calls != [] {
      var n := |calls| - 1;
      UnsentInOrder(started, calls[..n]);
      var u := Unsent(started, calls[..n]);
      forall i | 0 <= i < |u| && calls[n] !in started
        ensures u[i] < calls[n]
      {
        UnsentMember(started, calls[..n], u[i]);
        assert u[i] in calls[..n];
        var k :| 0 <= k < n && calls[..n][k] == u[i];
        assert calls[k] == u[i];
      }
    }
  }

  /** The state after sending the given calls, each once. */
  function Dispatched(s: State, calls: seq<nat>): State {
    s.(inFlight := s.inFlight + Unbroken(calls),
       started := s.started + SetOf(calls),
       sent := s.sent + calls,
       firsts := s.firsts + Unsent(s.started, calls))
  }

  function SetOf(calls: seq<nat>): set<nat> {
    set c | c in calls
  }

  /** Calls just sent, their interface alive. */
  function Unbroken(calls: seq<nat>): map<nat, bool> {
    map c | c in calls :: false
  }

  lemma DispatchParts(s: State, calls: seq<nat>, c: nat)
    requires c !in calls
    ensures (s.inFlight + Unbroken(calls))[c := false] == s.inFlight + Unbroken(calls + [c])
    ensures s.started + SetOf(calls) + {c} == s.started + SetOf(calls + [c])
    ensures c in s.started + SetOf(calls) <==> c in s.started
    ensures (s.sent + calls) + [c] == s.sent + (calls + [c])
    ensures Unsent(s.started, calls + [c]) == Unsent(s.started, calls) + (if c in s.started then [] else [c])
  {
    assert (calls + [c])[..|calls|] == calls;
  }

  lemma DispatchFirsts(s: State, calls: seq<nat>, c: nat)
    requires c !in calls
    ensures (if c in s.started then s.firsts + Unsent(s.started, calls) else (s.firsts + Unsent(s.started, calls)) + [c])
         == s.firsts + Unsent(s.started, calls + [c])
  {
    DispatchParts(s, calls, c);
    hide Unsent;
    if c in s.started {
      assert Unsent(s.started, calls) + [] == Unsent(s.started, calls);
    }
  }

  lemma DispatchOne(s: State, calls: seq<nat>, c: nat)
    requires c !in calls
    ensures DoCall(Dispatched(s, calls), c) == Dispatched(s, calls + [c])
  {
    hide Unsent, SetOf, Unbroken;
    DispatchParts(s, calls, c);
    DispatchFirsts(s, calls, c);
  }

  /** All waiting calls go out, in order, each once. */
  lemma {:induction false} DoCallsIs(s: State, calls: seq<nat>)
    requires NoDuplicates(calls)
    ensures DoCalls(s, calls) == Dispatched(s, calls)
  {
    if calls == [] {
      assert s.inFlight + Unbroken(calls) == s.inFlight;
      assert s.started + SetOf(calls) == s.started;
    } else {
      hide Dispatched, DoCall;
      var n := |calls| - 1;
      DoCallsIs(s, calls[..n]);
      assert calls == calls[..n] + [calls[n]];
      DispatchOne(s, calls[..n], calls[n]);
    }
  }

  lemma {:induction false} FinishAllIs(s: State, calls: seq<nat>)
    ensures FinishAll(s, calls) ==
            s.(queue := FinishAll(s, calls).queue,
               inFlight := s.inFlight - (set c | c in calls),
               finished := s.finished + (set c | c in calls),
               notified := s.notified + multiset(calls))
  {
    if calls == [] {
      assert s.inFlight - (set c | c in calls) == s.inFlight;
      assert s.finished + (set c | c in calls) == s.finished;
    } else {
      var n := |calls| - 1;
      FinishAllIs(s, calls[..n]);
      assert calls == calls[..n] + [calls[n]];
      FinishOne(s, calls[..n], calls[n]);
    }
  }

  lemma FinishOne(s: State, calls: seq<nat>, c: nat)
    ensures s.inFlight - (set d | d in calls) - {c} == s.inFlight - (set d | d in calls + [c])
    ensures s.finished + (set d | d in calls) + {c} == s.finished + (set d | d in calls + [c])
    ensures s.notified + multiset(calls) + multiset{c} == s.notified + multiset(calls + [c])
  {
  }

  lemma {:induction false} RemoveOneRemoves(q: seq<nat>, c: nat)
    requires NoDuplicates(q)
    ensures NoDuplicates(RemoveOne(q, c))
    ensures forall d :: d in RemoveOne(q, c) <==> d in q && d != c
  {
    if q != [] {
      assert forall d :: d in q <==> d == q[0] || d in q[1..];
      assert q[0] !in q[1..];
      if q[0] != c {
        RemoveOneRemoves(q[1..], c);
      }
    }
  }

  /** What is left after a removal keeps its order. */
  lemma {:induction false} RemoveOneIsSubsequence(q: seq<nat>, c: nat, i: nat, j: nat) returns (i': nat, j': nat)
    requires i < j < |RemoveOne(q, c)|
    ensures i' < j' < |q| && q[i'] == RemoveOne(q, c)[i] && q[j'] == RemoveOne(q, c)[j]
  {
    if q[0] == c {
      i', j' := i + 1, j + 1;
    } else if i == 0 {
      i' := 0;
      j' := RemoveOneIndex(q[1..], c, j - 1);
      j' := j' + 1;
    } else {
      i', j' := RemoveOneIsSubsequence(q[1..], c, i - 1, j - 1);
      i', j' := i' + 1, j' + 1;
    }
  }

  lemma {:induction false} RemoveOneIndex(q: seq<nat>, c: nat, j: nat) returns (j': nat)
    requires j < |RemoveOne(q, c)|
    ensures j' < |q| && q[j'] == RemoveOne(q, c)[j]
  {
    if q[0] == c {
      j' := j + 1;
    } else if j == 0 {
      j' := 0;
    } else {
      j' := RemoveOneIndex(q[1..], c, j - 1);
      j' := j' + 1;
    }
  }

  // ------------------------------------------------ Every step keeps the invariant

  lemma FinishKeepsInv(s: State, c: nat)
    requires Inv(s) && c < s.next
    ensures Inv(Finish(s, c))
  {
    var t := Finish(s, c);
    RemoveOneRemoves(s.queue, c);
    forall d: nat
      ensures OnePlace(t, d)
    {
      assert OnePlace(s, d);
    }
    FinishKeepsOrder(s, c);
  }

  lemma FinishKeepsOrder(s: State, c: nat)
    requires OrderInv(s)
    ensures OrderInv(Finish(s, c))
  {
    var t := Finish(s, c);
    forall j, k | 0 <= j < k < |t.queue| && t.queue[j] !in t.started && t.queue[k] !in t.started
      ensures t.queue[j] < t.queue[k]
    {
      var j', k' := RemoveOneIsSubsequence(s.queue, c, j, k);
    }
    forall k | 0 <= k < |t.queue|
      ensures forall i :: 0 <= i < |t.firsts| && t.queue[k] !in t.started ==> t.firsts[i] < t.queue[k]
      ensures t.status != Incomplete ==> t.queue[k] in t.started
    {
      var k' := RemoveOneIndex(s.queue, c, k);
    }
  }

  lemma ReadyKeepsInv(s: State)
    requires Inv(s) && s.hasInterface
    ensures Inv(SetStatus(s, Ready))
    ensures var t := SetStatus(s, Ready);
            t.sent == s.sent + s.queue && t.queue == [] && t.firsts == s.firsts + Unsent(s.started, s.queue)
  {
    var t := SetStatus(s, Ready);
    DoCallsIs(s.(status := Ready), s.queue);
    UnsentInOrder(s.started, s.queue);
    forall c: nat
      ensures OnePlace(t, c)
    {
      assert OnePlace(s, c);
    }
    var u := Unsent(s.started, s.queue);
    forall i | 0 <= i < |u|
      ensures u[i] < s.next
      ensures forall j :: 0 <= j < |s.firsts| ==> s.firsts[j] < u[i]
    {
      UnsentMember(s.started, s.queue, u[i]);
      assert OnePlace(s, u[i]);
      var k :| 0 <= k < |s.queue| && s.queue[k] == u[i];
    }
  }

  lemma InvalidKeepsInv(s: State)
    requires Inv(s)
    ensures Inv(SetStatus(s, Invalid))
  {
    var t := SetStatus(s, Invalid);
    FinishAllIs(s.(status := Invalid), s.queue);
    forall c: nat
      ensures OnePlace(t, c)
    {
      assert OnePlace(s, c);
    }
  }

  lemma SamePlaces(s: State, t: State)
    requires PlaceInv(s)
    requires t.queue == s.queue && t.inFlight.Keys == s.inFlight.Keys && t.finished == s.finished
    requires t.failing == s.failing && t.started == s.started && t.next == s.next && t.sent == s.sent
    ensures PlaceInv(t)
  {
    forall c: nat
      ensures OnePlace(t, c)
    {
      assert OnePlace(s, c);
    }
  }

  /** update() is called after connection and path have changed; a Ready status may be
      without an interface only inside it. */
  lemma UpdateKeepsInv(s: State, connected: bool)
    requires PlaceInv(s) && OrderInv(s.(hasInterface := true))
    ensures Inv(Update(s, connected))
  {
    var s1 := DropInterface(s);
    var s2, s3 := s1.(hasInterface := true), s1.(status := Incomplete);
    hide PlaceInv;
    SamePlaces(s, s2);
    SamePlaces(s, s3);
    assert OrderInv(s3) && OrderInv(s2);
    hide OrderInv;
    if s1.hasConnection && s1.hasPath {
      if connected {
        ReadyKeepsInv(s2);
      } else {
        InvalidKeepsInv(s3);
      }
    }
  }

  lemma QueueCallPlace(s: State, c: nat)
    requires OnePlace(s, c) && OnePlace(s, s.next)
    ensures OnePlace(QueueCall(s), c)
  {
  }

  lemma QueueCallKeepsPlaces(s: State)
    requires PlaceInv(s)
    ensures PlaceInv(QueueCall(s))
  {
    assert OnePlace(s, s.next);
    assert NoDuplicates(QueueCall(s).queue);
    hide NoDuplicates;
    forall c: nat
      ensures OnePlace(QueueCall(s), c)
    {
      assert OnePlace(s, c);
      hide OnePlace, QueueCall;
      QueueCallPlace(s, c);
    }
  }

  lemma QueuedBelowNext(s: State)
    requires PlaceInv(s)
    ensures forall k :: 0 <= k < |s.queue| ==> s.queue[k] < s.next
    ensures s.next !in s.started
  {
    forall k | 0 <= k < |s.queue|
      ensures s.queue[k] < s.next
    {
      assert OnePlace(s, s.queue[k]);
    }
    assert OnePlace(s, s.next);
  }

  lemma QueueCallKeepsInv(s: State)
    requires Inv(s)
    ensures Inv(QueueCall(s))
  {
    QueueCallKeepsPlaces(s);
    QueuedBelowNext(s);
    hide PlaceInv;
  }

  lemma OnFinishedKeepsInv(s: State, c: nat, outcome: Outcome)
    requires Inv(s) && c in s.inFlight
    ensures Inv(OnFinished(s, c, outcome))
  {
    assert OnePlace(s, c);
    if s.inFlight[c] && outcome == Error(true) {
      var t := OnFinished(s, c, outcome);
      forall d: nat
        ensures OnePlace(t, d)
      {
        assert OnePlace(s, d);
      }
    } else {
      FinishKeepsInv(s, c);
    }
  }

  lemma FailKeepsInv(s: State, c: nat)
    requires Inv(s) && c in s.failing
    ensures Inv(Fail(s, c))
  {
    assert OnePlace(s, c);
    FinishKeepsInv(s, c);
    var t := Fail(s, c);
    forall d: nat
      ensures OnePlace(t, d)
    {
      assert OnePlace(Finish(s, c), d);
    }
  }

  lemma WorldKeepsInv(s: State, connection: bool, path: bool, connected: bool)
    requires Inv(s)
    ensures Inv(Update(s.(hasConnection := connection, hasPath := path), connected))
  {
    var t := s.(hasConnection := connection, hasPath := path);
    assert OrderInv(t.(hasInterface := true));
    hide PlaceInv, OrderInv, Update;
    SamePlaces(s, t);
    UpdateKeepsInv(t, connected);
  }

  lemma CancelKeepsInv(s: State, c: nat)
    requires Inv(s) && c < s.next
    ensures Inv(Cancel(s, c).0)
  {
    hide Inv, Finish;
    FinishKeepsInv(s, c);
  }

  lemma StepKeepsInv(s: State, e: Event)
    requires Inv(s) && Enabled(s, e)
    ensures Inv(Step(s, e))
  {
    hide Inv, Update, QueueCall, Cancel, OnFinished, Fail, SetStatus;
    match e
    case Queue => QueueCallKeepsInv(s);
    case CancelCall(c) => CancelKeepsInv(s, c);
    case CallEnds(c, outcome) => OnFinishedKeepsInv(s, c, outcome);
    case PostedFailure(c) => FailKeepsInv(s, c);
    case SetConnection(connected) => WorldKeepsInv(s, true, s.hasPath, connected);
    case SetDisconnected => WorldKeepsInv(s, false, false, false);
    case SetObjectPath(empty, connected) => WorldKeepsInv(s, s.hasConnection, !empty, connected);
    case SetError => InvalidKeepsInv(s);
  }

  lemma {:induction false} RunKeepsInv(s: State, es: seq<Event>, t: State)
    requires Inv(s) && Exec(s, es) == Some(t)
    ensures Inv(t)
  {
    hide Inv, Step, Enabled;
    if es != [] {
      var u := LastStep(s, es, t);
      RunKeepsInv(s, es[..|es| - 1], u);
      StepKeepsInv(u, es[|es| - 1]);
    }
  }

  // --------------------------------------------------- What holds in every run

  ghost predicate Reachable(s: State, es: seq<Event>) {
    Exec(INITIAL, es) == Some(s)
  }

  lemma ReachableInv(s: State, es: seq<Event>)
    requires Reachable(s, es)
    ensures Inv(s)
  {
    assert forall c: nat :: OnePlace(INITIAL, c);
    RunKeepsInv(INITIAL, es, s);
  }

  /** Every call ever queued is waiting, in flight, finished, or about to fail because it was
      queued while Invalid; the first three exclude each other and nothing waits twice. */
  lemma EveryCallIsInOnePlace(s: State, es: seq<Event>, c: nat)
    requires Reachable(s, es) && c < s.next
    ensures c in s.queue || c in s.inFlight || c in s.finished || c in s.failing
    ensures !(c in s.queue && c in s.inFlight) && !(c in s.queue && c in s.finished)
    ensures !(c in s.inFlight && c in s.finished)
    ensures c in s.failing ==> c !in s.queue && c !in s.inFlight && c !in s.sent
    ensures NoDuplicates(s.queue)
  {
    ReachableInv(s, es);
    assert OnePlace(s, c);
  }

  lemma UpdateSendsQueue(s: State, connected: bool)
    requires NoDuplicates(s.queue) && Update(s, connected).status == Ready
    ensures var t := Update(s, connected);
            t.queue == [] && t.sent == s.sent + s.queue && t.finished == s.finished
  {
    var s1 := DropInterface(s).(hasInterface := true, status := Ready);
    DoCallsIs(s1, s1.queue);
    FinishAllIs(DropInterface(s).(status := Invalid), s.queue);
    hide DoCalls, FinishAll;
  }

  /** On becoming Ready, all that waits goes out, in the order in which it waits. */
  lemma ReadySendsQueueInOrder(s: State, es: seq<Event>, e: Event)
    requires Reachable(s, es) && IsWorld(e) && Enabled(s, e) && Step(s, e).status == Ready
    ensures var t := Step(s, e);
            t.queue == [] && t.sent == s.sent + s.queue && t.finished == s.finished
  {
    ReachableInv(s, es);
    WorldStep(s, e);
    hide Step, Update, OrderInv;
    UpdateSendsQueue(WorldChange(s, e), ConnectedAfter(e));
  }

  /** First sends happen in the order of queueCall, across reconnections. */
  lemma FirstSendsInOrder(s: State, es: seq<Event>)
    requires Reachable(s, es)
    ensures forall i, j :: 0 <= i < j < |s.firsts| ==> s.firsts[i] < s.firsts[j]
    ensures s.status == Ready ==> forall k :: 0 <= k < |s.queue| ==> s.queue[k] in s.started
  {
    ReachableInv(s, es);
  }

  // ------------------------------------------------- What an event does to one call

  /** How many times the event reports call `c` finished. */
  function Reports(s: State, e: Event, c: nat): nat
    requires Enabled(s, e)
  {
    match e
    case Queue => 0
    case CancelCall(d) => if d == c && c !in s.started then 1 else 0
    case CallEnds(d, outcome) => if d == c && !(s.inFlight[d] && outcome == Error(true)) then 1 else 0
    case PostedFailure(d) => if d == c then 1 else 0
    case SetError => if c in s.queue then 1 else 0
    case _ => if c in s.queue && FailsQueue(WorldChange(s, e), ConnectedAfter(e)) then 1 else 0
  }

  predicate FailsQueue(s: State, connected: bool) {
    s.hasConnection && s.hasPath && !connected
  }

  /** Reported `n` times more, and then finished; a finished call is not sent again. */
  predicate Moves(s: State, t: State, c: nat, n: nat) {
    && t.notified[c] == s.notified[c] + n
    && (c in t.finished <==> c in s.finished || n > 0)
    && (c in s.finished ==> multiset(t.sent)[c] == multiset(s.sent)[c])
  }

  predicate StaysFailing(s: State, t: State, c: nat) {
    t.next == s.next && (c in t.failing <==> c in s.failing)
  }

  lemma QueueMoves(s: State, c: nat)
    requires OnePlace(s, c)
    ensures var t := QueueCall(s);
      && Moves(s, t, c, 0) && t.next == s.next + 1
      && (c in t.failing <==> c in s.failing || (c == s.next && s.status == Invalid))
  {
  }

  lemma CancelMoves(s: State, d: nat, c: nat)
    ensures var t := Cancel(s, d).0;
      Moves(s, t, c, if d == c && c !in s.started then 1 else 0) && StaysFailing(s, t, c)
  {
    hide RemoveOne;
  }

  lemma EndMoves(s: State, d: nat, outcome: Outcome, c: nat)
    requires d in s.inFlight
    ensures var t := OnFinished(s, d, outcome);
      && Moves(s, t, c, if d == c && !(s.inFlight[d] && outcome == Error(true)) then 1 else 0)
      && StaysFailing(s, t, c)
  {
    hide RemoveOne;
  }

  lemma FailMoves(s: State, d: nat, c: nat)
    ensures var t := Fail(s, d);
      && Moves(s, t, c, if d == c then 1 else 0)
      && t.next == s.next && (c in t.failing <==> c in s.failing && c != d)
  {
    hide RemoveOne;
  }

  lemma InvalidMoves(s: State, c: nat)
    requires NoDuplicates(s.queue)
    ensures var t := SetStatus(s, Invalid);
      Moves(s, t, c, if c in s.queue then 1 else 0) && StaysFailing(s, t, c)
  {
    FinishAllIs(s.(status := Invalid), s.queue);
    CountOnce(s.queue, c);
    hide FinishAll, NoDuplicates;
  }

  lemma UpdateMoves(s: State, connected: bool, c: nat)
    requires NoDuplicates(s.queue) && (c in s.finished ==> c !in s.queue)
    ensures var t := Update(s, connected);
      Moves(s, t, c, if c in s.queue && FailsQueue(s, connected) then 1 else 0) && StaysFailing(s, t, c)
  {
    var s1 := DropInterface(s);
    InvalidMoves(s1, c);
    BecomesReady(s1.(hasInterface := true), c);
    hide DoCalls, FinishAll;
  }

  lemma BecomesReady(s: State, c: nat)
    requires NoDuplicates(s.queue) && (c in s.finished ==> c !in s.queue)
    ensures var t := SetStatus(s, Ready); Moves(s, t, c, 0) && StaysFailing(s, t, c)
  {
    DoCallsIs(s.(status := Ready), s.queue);
    CountOnce(s.queue, c);
    hide DoCalls, NoDuplicates, Unsent, SetOf, Unbroken;
  }

  lemma {:induction false} CountOnce(q: seq<nat>, c: nat)
    requires NoDuplicates(q)
    ensures multiset(q)[c] == if c in q then 1 else 0
  {
    if q != [] {
      CountOnce(q[1..], c);
      assert q == [q[0]] + q[1..];
      assert q[0] !in q[1..];
    }
  }

  /** Whatever happens, a call is reported as `Reports` says. */
  lemma StepMoves(s: State, e: Event, c: nat)
    requires PlaceInv(s) && Enabled(s, e)
    ensures Moves(s, Step(s, e), c, Reports(s, e, c))
    ensures c in Step(s, e).failing <==>
      (c in s.failing && e != PostedFailure(c)) || (e.Queue? && c == s.next && s.status == Invalid)
    ensures Step(s, e).next == s.next + if e.Queue? then 1 else 0
  {
    hide Moves, QueueCall, Cancel, OnFinished, Fail, SetStatus, Update;
    assert OnePlace(s, c);
    match e
    case Queue => QueueMoves(s, c);
    case CancelCall(d) => CancelMoves(s, d, c);
    case CallEnds(d, outcome) => EndMoves(s, d, outcome, c);
    case PostedFailure(d) => FailMoves(s, d, c);
    case SetError => InvalidMoves(s, c);
    case _ =>
      WorldStep(s, e);
      UpdateMoves(WorldChange(s, e), ConnectedAfter(e), c);
      SameMoves(s, WorldChange(s, e), Step(s, e), c, Reports(s, e, c));
  }

  lemma SameMoves(s: State, s': State, t: State, c: nat, n: nat)
    requires s'.notified == s.notified && s'.finished == s.finished && s'.sent == s.sent
    requires Moves(s', t, c, n)
    ensures Moves(s, t, c, n)
  {
  }

  /** A finished call is reported again only by the failure posted for it. */
  lemma FinishedReports(s: State, e: Event, c: nat)
    requires OnePlace(s, c) && Enabled(s, e) && c in s.finished
    ensures Reports(s, e, c) == if e == PostedFailure(c) then 1 else 0
  {
  }

  /** A finished call stays finished and is never sent again. */
  lemma {:induction false} FinishedStaysFinished(s: State, es: seq<Event>, t: State, c: nat)
    requires Inv(s) && c in s.finished && Exec(s, es) == Some(t)
    ensures c in t.finished && multiset(t.sent)[c] == multiset(s.sent)[c]
  {
    hide Step, Reports, Enabled, PlaceInv, OrderInv;
    if es != [] {
      var u := LastStep(s, es, t);
      FinishedStaysFinished(s, es[..|es| - 1], u, c);
      RunKeepsInv(s, es[..|es| - 1], u);
      StepMoves(u, es[|es| - 1], c);
    }
  }

  /** Cancelling works exactly on calls that were never sent, and those never will be. */
  lemma CancelledIsNeverSent(s: State, es: seq<Event>, c: nat, fs: seq<Event>, t: State)
    requires Reachable(s, es) && c < s.next && c !in s.finished && Exec(Cancel(s, c).0, fs) == Some(t)
    ensures Cancel(s, c).1 <==> c !in s.sent
    ensures Cancel(s, c).1 ==> c in t.finished && c !in t.sent
  {
    ReachableInv(s, es);
    assert OnePlace(s, c);
    if Cancel(s, c).1 {
      FinishKeepsInv(s, c);
      FinishedStaysFinished(Cancel(s, c).0, fs, t, c);
    }
  }

  predicate Quiet(s: State) {
    s.status == Ready ==> s.queue == []
  }

  /** Ready means that nothing waits, up to the one exception: a call that comes back while
      the proxy is already Ready again stays in the queue until the next reconnection. */
  lemma QuietExactly(s: State, e: Event)
    requires Inv(s) && Quiet(s) && Enabled(s, e)
    ensures Quiet(Step(s, e)) <==>
            !(s.status == Ready && e.CallEnds? && s.inFlight[e.c] && e.outcome == Error(true))
  {
    match e {
      case SetConnection(connected) => UpdateIsQuiet(s.(hasConnection := true), connected);
      case SetDisconnected => UpdateIsQuiet(s.(hasConnection := false, hasPath := false), false);
      case SetObjectPath(empty, connected) => UpdateIsQuiet(s.(hasPath := !empty), connected);
      case _ =>
    }
  }

  lemma UpdateIsQuiet(s: State, connected: bool)
    ensures Quiet(Update(s, connected))
  {
  }

  // --------------------------------------------- When a call is reported twice

  predicate OnceOnly(s: State, c: nat) {
    s.notified[c] == if c in s.finished then 1 else 0
  }

  /** A step keeps "reported once, when finished" for a call exactly when it is not the posted
      failure of that call after its cancellation. */
  lemma OnceOnlyExactly(s: State, e: Event, c: nat)
    requires PlaceInv(s) && OnceOnly(s, c) && Enabled(s, e)
    ensures OnceOnly(Step(s, e), c) <==> !(e == PostedFailure(c) && c in s.finished)
  {
    assert OnePlace(s, c);
    StepMoves(s, e, c);
    if c in s.finished {
      FinishedReports(s, e, c);
    }
    AtMostOnce(s, e, c);
    hide Step, Reports, Enabled, PlaceInv, OnePlace;
  }

  lemma AtMostOnce(s: State, e: Event, c: nat)
    requires Enabled(s, e)
    ensures Reports(s, e, c) <= 1
  {
  }

  /** Only its cancellation finishes a call whose failure is posted. */
  ghost predicate FailingInv(s: State, es: seq<Event>, c: nat) {
    && (c in s.failing ==> (c in s.finished <==> CancelCall(c) in es))
    && (c >= s.next ==> CancelCall(c) !in es)
  }

  lemma FailingReports(s: State, e: Event, c: nat)
    requires OnePlace(s, c) && Enabled(s, e)
    ensures c in s.failing && e != PostedFailure(c) ==> Reports(s, e, c) == if e == CancelCall(c) then 1 else 0
    ensures c >= s.next ==> Reports(s, e, c) == 0 && e != CancelCall(c) && c !in s.finished && c !in s.failing
  {
  }

  lemma {:induction false} StepKeepsFailing(s: State, e: Event, es: seq<Event>, c: nat)
    requires PlaceInv(s) && Enabled(s, e) && FailingInv(s, es, c)
    ensures FailingInv(Step(s, e), es + [e], c)
  {
    assert OnePlace(s, c);
    assert CancelCall(c) in es + [e] <==> CancelCall(c) in es || e == CancelCall(c);
    StepMoves(s, e, c);
    FailingReports(s, e, c);
    hide Step, Reports, Enabled, PlaceInv, OnePlace;
  }

  lemma {:induction false} RunKeepsFailing(s: State, es: seq<Event>, c: nat)
    requires Reachable(s, es)
    ensures FailingInv(s, es, c)
    decreases |es|
  {
    assert FailingInv(INITIAL, [], c);
    hide FailingInv, Step, Enabled, PlaceInv, OrderInv;
    if es != [] {
      var n := |es| - 1;
      var u := LastStep(INITIAL, es, s);
      RunKeepsFailing(u, es[..n], c);
      ReachableInv(u, es[..n]);
      StepKeepsFailing(u, es[n], es[..n], c);
    }
  }

  /** Cancelled, and then the posted failure. */
  ghost predicate CancelledTooLate(es: seq<Event>, c: nat) {
    exists j :: 0 <= j < |es| && es[j] == PostedFailure(c) && CancelCall(c) in es[..j]
  }

  lemma {:induction false} CancelledTooLateGrows(es: seq<Event>, e: Event, c: nat)
    ensures CancelledTooLate(es + [e], c) <==> CancelledTooLate(es, c) || (e == PostedFailure(c) && CancelCall(c) in es)
  {
    var fs := es + [e];
    if CancelledTooLate(es, c) {
      var j :| 0 <= j < |es| && es[j] == PostedFailure(c) && CancelCall(c) in es[..j];
      assert fs[j] == es[j] && fs[..j] == es[..j];
    }
    if e == PostedFailure(c) && CancelCall(c) in es {
      assert fs[|es|] == e && fs[..|es|] == es;
    }
    if CancelledTooLate(fs, c) {
      var j :| 0 <= j < |fs| && fs[j] == PostedFailure(c) && CancelCall(c) in fs[..j];
      if j < |es| {
        assert es[j] == fs[j] && fs[..j] == es[..j];
      } else {
        assert fs[..j] == es;
      }
    }
  }

  /** The reports of a call in a state that the events lead to. */
  ghost predicate ReportsAre(s: State, es: seq<Event>, c: nat) {
    && s.notified[c] == (if c !in s.finished then 0 else if CancelledTooLate(es, c) then 2 else 1)
    && (CancelledTooLate(es, c) ==> c in s.finished && c !in s.failing)
  }

  /** In every run, a finished call was reported finished once, unless its failure was posted
      because it was queued while Invalid, it was cancelled, and the failure came after; then it
      was reported twice. */
  lemma {:induction false} ReportedTwiceExactly(s: State, es: seq<Event>, c: nat)
    requires Reachable(s, es)
    ensures ReportsAre(s, es, c)
    decreases |es|
  {
    assert ReportsAre(INITIAL, [], c);
    hide ReportsAre, FailingInv, Step, Enabled, PlaceInv, OrderInv;
    if es != [] {
      var n := |es| - 1;
      var u := LastStep(INITIAL, es, s);
      ReportedTwiceExactly(u, es[..n], c);
      ReachableInv(u, es[..n]);
      RunKeepsFailing(u, es[..n], c);
      ReportStep(u, es[n], es[..n], c);
    }
  }

  lemma {:induction false} ReportStep(s: State, e: Event, es: seq<Event>, c: nat)
    requires PlaceInv(s) && Enabled(s, e) && FailingInv(s, es, c) && ReportsAre(s, es, c)
    ensures ReportsAre(Step(s, e), es + [e], c)
  {
    CancelledTooLateGrows(es, e, c);
    assert OnePlace(s, c);
    StepMoves(s, e, c);
    AtMostOnce(s, e, c);
    if c in s.finished {
      FinishedReports(s, e, c);
    }
    PostedIsFailing(s, e, c);
    hide CancelledTooLate, Step, Reports, Enabled, PlaceInv, OnePlace;
  }

  lemma PostedIsFailing(s: State, e: Event, c: nat)
    requires OnePlace(s, c) && Enabled(s, e)
    ensures e == PostedFailure(c) ==> c in s.failing && Reports(s, e, c) == 1
    ensures c in s.finished ==> c < s.next
  {
  }
}
