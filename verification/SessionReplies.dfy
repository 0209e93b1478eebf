/**
 Which event answers which request, and which request leaves the queue: a cancellation the first
 request with its key, a result or error of the plugin the running one.
 */
module SessionReplies {
  import opened Wrappers
  import opened SessionEngine

  /** The first request with the key is `m`. */
  ghost predicate IsFirst(q: seq<Request>, cancelKey: string, m: nat) {
    exists k :: 0 <= k < |q| && q[k].msg == m && q[k].cancelKey == cancelKey
                && forall j :: 0 <= j < k ==> q[j].cancelKey != cancelKey
  }

  predicate IsHead(s: State, m: nat) {
    s.queue != [] && s.queue[0].msg == m
  }

  /** The plugin is not up when the head of the queue should go to it. */
  predicate FailsToStart(s: State, e: Event) {
    e.WakeUp? && !e.up && !s.active && s.queue != [] && !s.watcher.Pending?
  }

  predicate Ends(s: State, e: Event) {
    e.PluginSays? && (e.response.ResultResponse? || e.response.ErrorResponse?) && s.active
  }

  ghost predicate GetsCancel(s: State, e: Event, m: nat) {
    e.ClientCancels? && IsFirst(s.queue, e.cancelKey, m)
  }

  predicate GetsResult(s: State, e: Event, m: nat) {
    Ends(s, e) && e.response.ResultResponse? && !s.canceled && IsHead(s, m)
  }

  predicate GetsError(s: State, e: Event, m: nat) {
    ((Ends(s, e) && e.response.ErrorResponse? && !s.canceled) || FailsToStart(s, e)) && IsHead(s, m)
  }

  /** A waiting request leaves when it is cancelled, the head when it has ended or could not start. */
  ghost predicate Leaves(s: State, e: Event, m: nat) {
    || (GetsCancel(s, e, m) && !(s.active && IsHead(s, m)))
    || ((Ends(s, e) || FailsToStart(s, e)) && IsHead(s, m))
  }

  function One(b: bool): nat {
    if b then 1 else 0
  }

  /** Replies and queue after an event, by the event. */
  ghost predicate Answers(s: State, e: Event, t: State, m: nat) {
    && t.cancels[m] == s.cancels[m] + One(GetsCancel(s, e, m))
    && t.results[m] == s.results[m] + One(GetsResult(s, e, m))
    && t.errors[m] == s.errors[m] + One(GetsError(s, e, m))
    && (Queued(t, m) <==> (Queued(s, m) && !Leaves(s, e, m)) || (e.ClientCalls? && m == |s.arrivals|))
  }

  lemma FirstIs(s: State, cancelKey: string, m: nat)
    requires QueueInv(s)
    ensures var i := IndexOf(s.queue, cancelKey); IsFirst(s.queue, cancelKey, m) <==> i < |s.queue| && s.queue[i].msg == m
  {
    var i := IndexOf(s.queue, cancelKey);
    if IsFirst(s.queue, cancelKey, m) {
      var k :| 0 <= k < |s.queue| && s.queue[k].msg == m && s.queue[k].cancelKey == cancelKey
               && forall j :: 0 <= j < k ==> s.queue[j].cancelKey != cancelKey;
      assert k == i;
    }
    hide IndexOf, QueueInv;
  }

  lemma WithdrawalAnswers(s: State, i: nat, m: nat)
    requires QueueInv(s) && i < |s.queue|
    ensures var t := CancelQueued(s, i);
      && t.cancels[m] == s.cancels[m] + One(m == s.queue[i].msg) && t.results == s.results && t.errors == s.errors
      && (Queued(t, m) <==> Queued(s, m) && m != s.queue[i].msg)
  {
    Removal(s, CancelQueued(s, i), i, m);
    hide Queued, QueueInv;
  }

  lemma RunningCancelAnswers(s: State, m: nat)
    requires s.queue != []
    ensures var t := CancelActive(s);
      && t.cancels[m] == s.cancels[m] + One(m == s.queue[0].msg) && t.results == s.results && t.errors == s.errors
      && (Queued(t, m) <==> Queued(s, m))
  {
  }

  /** The fields that `Answers` looks at. */
  predicate SameAnswers(s: State, t: State) {
    t.queue == s.queue && t.results == s.results && t.errors == s.errors && t.cancels == s.cancels
  }

  lemma NothingAnswers(s: State, e: Event, t: State, m: nat)
    requires SameAnswers(s, t) && !e.ClientCalls?
    requires !GetsCancel(s, e, m) && !Ends(s, e) && !FailsToStart(s, e)
    ensures Answers(s, e, t, m)
  {
    assert Queued(t, m) <==> Queued(s, m);
    hide IsFirst;
  }

  /** Which request a cancellation means, and whether it leaves. */
  lemma CancelMeans(s: State, cancelKey: string, m: nat)
    requires QueueInv(s) && FlagInv(s)
    ensures var e, i := ClientCancels(cancelKey), IndexOf(s.queue, cancelKey);
      && (GetsCancel(s, e, m) <==> i < |s.queue| && s.queue[i].msg == m)
      && (Leaves(s, e, m) <==> i < |s.queue| && s.queue[i].msg == m && !(s.active && i == 0))
      && !GetsResult(s, e, m) && !GetsError(s, e, m)
  {
    var i := IndexOf(s.queue, cancelKey);
    FirstIs(s, cancelKey, m);
    if 0 < i < |s.queue| {
      QueuedOnce(s, 0, i);
    }
    hide IndexOf, IsFirst, QueueInv, FlagInv;
  }

  lemma CancelAnswers(s: State, cancelKey: string, m: nat)
    requires QueueInv(s) && FlagInv(s)
    ensures Answers(s, ClientCancels(cancelKey), Step(s, ClientCancels(cancelKey)), m)
  {
    var i := IndexOf(s.queue, cancelKey);
    CancelMeans(s, cancelKey, m);
    hide IndexOf, CancelQueued, CancelActive, GetsCancel, GetsResult, GetsError, Leaves, Queued, QueueInv, FlagInv;
    if i < |s.queue| {
      if i == 0 && s.active {
        RunningCancelAnswers(s, m);
      } else {
        WithdrawalAnswers(s, i, m);
      }
    }
  }

  lemma CallAnswers(s: State, cancelKey: string, m: nat)
    requires QueueInv(s)
    ensures Answers(s, ClientCalls(cancelKey), Step(s, ClientCalls(cancelKey)), m)
  {
    var t := Process(s, cancelKey);
    assert t.queue[|s.queue|].msg == |s.arrivals|;
    if Queued(s, m) {
      var k :| 0 <= k < |s.queue| && s.queue[k].msg == m;
      assert t.queue[k].msg == m;
    }
    hide QueueInv;
  }

  lemma HeadGoes(s: State, t: State, m: nat)
    requires QueueInv(s) && s.queue != [] && t.queue == s.queue[1..] && t.arrivals == s.arrivals
    ensures Queued(t, m) <==> Queued(s, m) && !IsHead(s, m)
  {
    assert t.queue == s.queue[..0] + s.queue[1..];
    Removal(s, t, 0, m);
    hide Queued, QueueInv;
  }

  lemma ResultAnswers(s: State, m: nat)
    requires QueueInv(s) && s.queue != []
    ensures var t := ProcessResultReply(s);
      && t.results[m] == s.results[m] + One(!s.canceled && IsHead(s, m)) && t.errors == s.errors && t.cancels == s.cancels
      && (Queued(t, m) <==> Queued(s, m) && !IsHead(s, m))
  {
    HeadGoes(s, ProcessResultReply(s), m);
    hide Queued, QueueInv;
  }

  lemma ErrorAnswers(s: State, m: nat)
    requires QueueInv(s) && s.queue != []
    ensures var t := ProcessError(s);
      && t.errors[m] == s.errors[m] + One(!s.canceled && IsHead(s, m)) && t.results == s.results && t.cancels == s.cancels
      && (Queued(t, m) <==> Queued(s, m) && !IsHead(s, m))
  {
    HeadGoes(s, ProcessError(s), m);
    hide Queued, QueueInv;
  }

  lemma SameQueued(s: State, t: State, m: nat)
    requires t.queue == s.queue
    ensures Queued(t, m) <==> Queued(s, m)
  {
  }

  lemma ResultStep(s: State, up: bool, m: nat)
    requires QueueInv(s) && s.queue != [] && !s.obtained
    ensures var t := HandlePluginResponse(s, ResultResponse, up);
      && t.results[m] == s.results[m] + One(!s.canceled && IsHead(s, m)) && t.errors == s.errors && t.cancels == s.cancels
      && (Queued(t, m) <==> Queued(s, m) && !IsHead(s, m))
  {
    var s1 := s.(processing := false);
    var t := HandlePluginResponse(s, ResultResponse, up);
    assert t == ProcessResultReply(s1).(obtained := true);
    SameQueue(s, s1);
    ResultAnswers(s1, m);
    SameQueued(s, s1, m);
    SameQueued(ProcessResultReply(s1), t, m);
    hide ProcessResultReply, HandlePluginResponse, Queued, QueueInv;
  }

  lemma ErrorStep(s: State, up: bool, m: nat)
    requires QueueInv(s) && s.queue != [] && !s.obtained
    ensures var t := HandlePluginResponse(s, ErrorResponse, up);
      && t.errors[m] == s.errors[m] + One(!s.canceled && IsHead(s, m)) && t.results == s.results && t.cancels == s.cancels
      && (Queued(t, m) <==> Queued(s, m) && !IsHead(s, m))
  {
    var s1 := s.(processing := false);
    var t := HandlePluginResponse(s, ErrorResponse, up);
    assert t == ProcessError(s1).(obtained := true);
    SameQueue(s, s1);
    ErrorAnswers(s1, m);
    SameQueued(s, s1, m);
    SameQueued(ProcessError(s1), t, m);
    hide ProcessError, HandlePluginResponse, Queued, QueueInv;
  }

  lemma TerminalAnswers(s: State, r: Response, up: bool, m: nat)
    requires QueueInv(s) && FlagInv(s) && s.active && (r.ResultResponse? || r.ErrorResponse?)
    ensures Enabled(s, PluginSays(r, up))
    ensures Answers(s, PluginSays(r, up), Step(s, PluginSays(r, up)), m)
  {
    assert s.queue != [] && !s.obtained && s.everProcessed;
    hide HandlePluginResponse, Queued, QueueInv, FlagInv, IsFirst, IsHead;
    if r.ResultResponse? {
      ResultStep(s, up, m);
    } else {
      ErrorStep(s, up, m);
    }
  }

  lemma OtherResponseAnswers(s: State, r: Response, up: bool, m: nat)
    requires FlagInv(s) && s.everProcessed && !Ends(s, PluginSays(r, up))
    ensures Answers(s, PluginSays(r, up), Step(s, PluginSays(r, up)), m)
  {
    assert SameAnswers(s, HandlePluginResponse(s, r, up)) by {
      hide ProcessResultReply, ProcessError, UiAllowed;
    }
    hide HandlePluginResponse, FlagInv;
    NothingAnswers(s, PluginSays(r, up), Step(s, PluginSays(r, up)), m);
  }

  lemma StartProcessAnswers(s: State, up: bool, policy: int)
    requires s.queue != []
    ensures var t := StartProcess(s, up, policy);
      if up then SameAnswers(s, t)
      else && t.queue == s.queue[1..] && t.results == s.results && t.cancels == s.cancels && t.arrivals == s.arrivals
           && t.errors == s.errors + multiset{s.queue[0].msg}
  {
  }

  lemma StartNewAnswers(s: State, up: bool, policy: int)
    ensures var t := StartNewRequest(s, up, policy);
      if !s.active && s.queue != [] && !s.watcher.Pending? && !up
      then && t.queue == s.queue[1..] && t.results == s.results && t.cancels == s.cancels && t.arrivals == s.arrivals
           && t.errors == s.errors + multiset{s.queue[0].msg}
      else SameAnswers(s, t)
  {
    hide StartProcess;
    var s1 := ClearCanceled(s);
    assert SameAnswers(s, s1) && s1.active == s.active && s1.watcher == s.watcher && s1.arrivals == s.arrivals;
    hide ClearCanceled;
    if s.queue != [] {
      StartProcessAnswers(s1.(autoDestruct := false), up, policy);
    }
  }

  lemma WakeUpAnswers(s: State, up: bool, policy: int, m: nat)
    requires QueueInv(s) && Enabled(s, WakeUp(up, policy))
    ensures Answers(s, WakeUp(up, policy), Step(s, WakeUp(up, policy)), m)
  {
    var e := WakeUp(up, policy);
    var t := Step(s, e);
    StartNewAnswers(s.(wakeups := s.wakeups - 1), up, policy);
    hide StartNewRequest, Queued, QueueInv, IsFirst;
    if FailsToStart(s, e) {
      HeadGoes(s, t, m);
    } else {
      NothingAnswers(s, e, t, m);
    }
  }

  lemma WorldAnswers(s: State, e: Event, m: nat)
    requires Enabled(s, e) && (e.CredentialsSystemReady? || e.UiAnswers? || e.UiDelivered?)
    ensures Answers(s, e, Step(s, e), m)
  {
    NothingAnswers(s, e, Step(s, e), m);
    hide Queued;
  }

  /** Every event gives every request exactly the replies that `Answers` says: cancellation of the
      first one with the key; the running one its result or error unless it is cancelled; an error
      to a head whose plugin is not up; and those leave the queue, but for a running one that is
      cancelled, and nothing else does. */
  lemma StepAnswers(s: State, e: Event, m: nat)
    requires QueueInv(s) && FlagInv(s) && Enabled(s, e)
    ensures Answers(s, e, Step(s, e), m)
  {
    assert e.PluginSays? ==> s.everProcessed;
    hide Answers, Step, Enabled, QueueInv, FlagInv;
    match e
    case ClientCalls(k) => CallAnswers(s, k, m);
    case ClientCancels(k) => CancelAnswers(s, k, m);
    case CredentialsSystemReady => WorldAnswers(s, e, m);
    case WakeUp(up, policy) => WakeUpAnswers(s, up, policy, m);
    case PluginSays(r, up) =>
      if Ends(s, e) {
        TerminalAnswers(s, r, up, m);
      } else {
        OtherResponseAnswers(s, r, up, m);
      }
    case UiAnswers => WorldAnswers(s, e, m);
    case UiDelivered(_, _) => WorldAnswers(s, e, m);
  }

  // --------------------------------------------------------- Idle cores are marked

  /** An idle core that is not marked for destruction has an event posted, which will look again. */
  predicate MarkInv(s: State) {
    !s.active && !s.autoDestruct ==> s.wakeups > 0
  }

  /** The core becomes idle only with an event posted, and the mark goes only when it becomes active. */
  ghost predicate KeepsMark(s: State, t: State) {
    MarkInv(s) ==> MarkInv(t)
  }

  lemma CancelKeepsMark(s: State, cancelKey: string)
    ensures KeepsMark(s, Cancel(s, cancelKey))
  {
    hide IndexOf;
  }

  lemma CallKeepsMark(s: State, cancelKey: string)
    ensures KeepsMark(s, Process(s, cancelKey))
  {
  }

  lemma StartProcessKeepsMark(s: State, up: bool, policy: int)
    requires s.queue != []
    ensures MarkInv(StartProcess(s, up, policy))
  {
  }

  /** Whatever it finds, a start event leaves the core marked, active, or with an event posted. */
  lemma StartNewKeepsMark(s: State, up: bool, policy: int)
    requires s.watcher.Pending? ==> s.active
    ensures MarkInv(StartNewRequest(s, up, policy))
  {
    hide StartProcess;
    var s1 := ClearCanceled(s);
    assert s1.active == s.active && s1.watcher == s.watcher && s1.queue == s.queue;
    hide ClearCanceled;
    if s.queue != [] {
      StartProcessKeepsMark(s1.(autoDestruct := false), up, policy);
    }
  }

  lemma ResultKeepsMark(s: State)
    ensures KeepsMark(s, ProcessResultReply(s))
  {
  }

  lemma ErrorKeepsMark(s: State)
    ensures KeepsMark(s, ProcessError(s))
  {
  }

  lemma ResponseKeepsMark(s: State, r: Response, up: bool)
    ensures KeepsMark(s, HandlePluginResponse(s, r, up))
  {
    ResultKeepsMark(s.(processing := false));
    ErrorKeepsMark(s.(processing := false));
    hide ProcessResultReply, ProcessError, UiAllowed;
  }

  lemma StepKeepsMark(s: State, e: Event)
    requires FlagInv(s) && MarkInv(s) && Enabled(s, e)
    ensures MarkInv(Step(s, e))
  {
    assert s.watcher.Pending? ==> s.active;
    hide FlagInv, Process, Cancel, StartNewRequest, HandlePluginResponse;
    match e
    case ClientCalls(k) => CallKeepsMark(s, k);
    case ClientCancels(k) => CancelKeepsMark(s, k);
    case CredentialsSystemReady =>
    case WakeUp(up, policy) => StartNewKeepsMark(s.(wakeups := s.wakeups - 1), up, policy);
    case PluginSays(r, up) => ResponseKeepsMark(s, r, up);
    case UiAnswers =>
    case UiDelivered(_, _) =>
  }

  /** In every run, a core that is idle and has nothing posted is marked for automatic destruction, so
      that it will be collected. */
  lemma {:induction false} IdleIsMarked(s: State, ready: bool, es: seq<Event>)
    requires Reachable(s, ready, es)
    ensures !s.active && s.wakeups == 0 ==> s.autoDestruct
    ensures MarkInv(s)
    decreases |es|
  {
    hide Step, Enabled, QueueInv, StartInv, FlagInv, ReplyInv;
    if es != [] {
      var u := Exec(Init(ready), es[..|es| - 1]).value;
      IdleIsMarked(u, ready, es[..|es| - 1]);
      ReachableInv(u, ready, es[..|es| - 1]);
      StepKeepsMark(u, es[|es| - 1]);
    }
  }
}
