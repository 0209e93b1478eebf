/**
 What a session core and its plugin say to each other, over every run: the plugin works under
 the policy that came with its request, its dialogs open as far as that policy allows, and it
 hears of cancellations and answers.
 */
module PluginTalk {
  import opened Wrappers
  import opened SessionEngine

  // ------------------------------------------------------ What each event changes

  /** The event hands the head of the queue to the plugin. */
  predicate Starts(s: State, e: Event) {
    e.WakeUp? && e.up && !s.active && s.queue != [] && !s.watcher.Pending?
  }

  /** What the core and its proxy write to the plugin at an event. */
  function Messages(s: State, e: Event): seq<Message>
    requires Enabled(s, e)
  {
    match e
    case WakeUp(_, policy) => if Starts(s, e) then [Work(s.queue[0].msg, policy)] else []
    case ClientCancels(k) =>
      if s.active && s.queue != [] && s.queue[0].cancelKey == k then [Abort(s.queue[0].msg)] else []
    case PluginSays(UiResponse(credentials, captcha), up) =>
      if !s.obtained && up && Forbidden(s.uiPolicy, credentials, captcha) then [Forbid(credentials, captcha)] else []
    case UiDelivered(refresh, up) => if !s.canceled && up then [Answer(s.watcher.dialog, refresh)] else []
    case _ => []
  }

  /** No dialogs at all, or none for credentials without a captcha. */
  predicate Forbidden(policy: int, queriesCredentials: bool, queriesCaptcha: bool) {
    policy == NO_USER_INTERACTION_POLICY || (policy == VALIDATION_POLICY && queriesCredentials && !queriesCaptcha)
  }

  /** What an event does to the talk: the policy changes, and a request becomes the running one, only
      when it is started; the plugin is told what `Messages` says; the running request stays the
      head of the queue; and a dialog that is not the old one is of that request. */
  ghost predicate Talks(s: State, e: Event, t: State)
    requires Enabled(s, e)
  {
    && t.uiPolicy == (if Starts(s, e) then e.policy else s.uiPolicy)
    && t.told == s.told + Messages(s, e)
    && s.started <= t.started
    && t.everProcessed == (s.everProcessed || Starts(s, e))
    && (Starts(s, e) ==> s.queue[0].msg in t.started)
    && (t.active ==> s.active || Starts(s, e))
    && (t.active ==> s.queue != [] && t.queue != [] && t.queue[0] == s.queue[0])
    && WatcherMoves(s, t)
  }

  /** The dialog that was there, or none, or one of the running request. */
  ghost predicate WatcherMoves(s: State, t: State) {
    || t.watcher.NoWatcher?
    || (!s.watcher.NoWatcher? && t.watcher.dialog == s.watcher.dialog)
    || (s.active && s.everProcessed && s.queue != [] && t.watcher.dialog.owner == s.queue[0].msg)
  }

  lemma StartProcessTalks(s: State, up: bool, policy: int)
    requires s.queue != []
    ensures var t := StartProcess(s, up, policy);
      && t.active == up && t.uiPolicy == (if up then policy else s.uiPolicy)
      && t.told == (if up then s.told + [Work(s.queue[0].msg, policy)] else s.told)
      && (up ==> t.queue == s.queue)
      && t.started == s.started + [s.queue[0].msg] && t.everProcessed == (s.everProcessed || up)
  {
  }

  /** A start event would hand the head of the queue to a plugin that is up. */
  predicate CanStart(s: State) {
    !s.active && s.queue != [] && !s.watcher.Pending?
  }

  lemma StartNewTalks(s: State, up: bool, policy: int)
    ensures var t := StartNewRequest(s, up, policy);
      && t.active == (if CanStart(s) then up else s.active)
      && t.uiPolicy == (if CanStart(s) && up then policy else s.uiPolicy)
      && t.told == (if CanStart(s) && up then s.told + [Work(s.queue[0].msg, policy)] else s.told)
      && t.started == (if CanStart(s) then s.started + [s.queue[0].msg] else s.started)
      && t.everProcessed == (s.everProcessed || (CanStart(s) && up))
      && (t.active ==> t.queue == s.queue)
  {
    hide StartProcess;
    var s1 := ClearCanceled(s);
    assert s1.queue == s.queue && s1.active == s.active && s1.watcher == s.watcher;
    assert s1.uiPolicy == s.uiPolicy && s1.told == s.told && s1.started == s.started;
    assert s1.everProcessed == s.everProcessed;
    hide ClearCanceled;
    if s.queue != [] {
      StartProcessTalks(s1.(autoDestruct := false), up, policy);
    }
  }

  /** The parts of `Talks` for a start event. */
  ghost predicate WakeUpMoves(s: State, up: bool, policy: int, t: State) {
    && t.active == (if CanStart(s) then up else s.active)
    && t.uiPolicy == (if CanStart(s) && up then policy else s.uiPolicy)
    && t.told == (if CanStart(s) && up then s.told + [Work(s.queue[0].msg, policy)] else s.told)
    && t.started == (if CanStart(s) then s.started + [s.queue[0].msg] else s.started)
    && t.everProcessed == (s.everProcessed || (CanStart(s) && up))
    && (t.active ==> t.queue == s.queue)
    && t.watcher == s.watcher
  }

  lemma WakeUpIs(s: State, up: bool, policy: int)
    requires s.wakeups > 0
    ensures WakeUpMoves(s, up, policy, Step(s, WakeUp(up, policy)))
  {
    var s1 := s.(wakeups := s.wakeups - 1);
    StartNewTalks(s1, up, policy);
    WakeUpKeepsWaiting(s1, up, policy);
    hide StartNewRequest;
  }

  lemma WakeUpTalks(s: State, up: bool, policy: int)
    requires FlagInv(s) && Enabled(s, WakeUp(up, policy))
    ensures Talks(s, WakeUp(up, policy), Step(s, WakeUp(up, policy)))
  {
    WakeUpIs(s, up, policy);
    assert s.active ==> s.queue != [];
    assert s.told + [] == s.told;
    hide Step, FlagInv;
    var t := Step(s, WakeUp(up, policy));
    assert CanStart(s) ==> t.started[|s.started|] == s.queue[0].msg;
  }

  lemma CallTalks(s: State, cancelKey: string)
    requires FlagInv(s)
    ensures Talks(s, ClientCalls(cancelKey), Step(s, ClientCalls(cancelKey)))
  {
    assert s.told + [] == s.told;
  }

  lemma CancelActiveIs(s: State)
    requires s.queue != []
    ensures var t := CancelActive(s);
      && t.uiPolicy == s.uiPolicy && t.active == s.active
      && t.started == s.started && t.everProcessed == s.everProcessed
      && t.told == s.told + [Abort(s.queue[0].msg)] && WatcherMoves(s, t)
  {
  }

  lemma CancelQueuedIs(s: State, i: nat)
    requires i < |s.queue|
    ensures var t := CancelQueued(s, i);
      && t.uiPolicy == s.uiPolicy && t.active == s.active
      && t.started == s.started && t.everProcessed == s.everProcessed
      && t.told == s.told && WatcherMoves(s, t)
  {
  }

  lemma CancelIs(s: State, cancelKey: string)
    ensures var t := Cancel(s, cancelKey);
      && t.uiPolicy == s.uiPolicy && t.active == s.active
      && t.started == s.started && t.everProcessed == s.everProcessed && WatcherMoves(s, t)
      && t.told == (if s.active && s.queue != [] && s.queue[0].cancelKey == cancelKey then s.told + [Abort(s.queue[0].msg)]
                    else s.told)
  {
    var i := IndexOf(s.queue, cancelKey);
    assert WatcherMoves(s, s);
    hide IndexOf, CancelActive, CancelQueued, WatcherMoves;
    if i < |s.queue| {
      CancelQueuedIs(s, i);
      CancelActiveIs(s);
    }
  }

  lemma CancelKeepsHead(s: State, cancelKey: string)
    requires s.active && s.queue != []
    ensures var t := Cancel(s, cancelKey); t.queue != [] && t.queue[0] == s.queue[0]
  {
    var i := IndexOf(s.queue, cancelKey);
    if 0 < i < |s.queue| {
      assert (s.queue[..i] + s.queue[i + 1..])[0] == s.queue[0];
    }
    hide IndexOf;
  }

  lemma CancelTalks(s: State, cancelKey: string)
    requires FlagInv(s)
    ensures Talks(s, ClientCancels(cancelKey), Step(s, ClientCancels(cancelKey)))
  {
    hide Cancel, WatcherMoves;
    CancelIs(s, cancelKey);
    if s.active {
      CancelKeepsHead(s, cancelKey);
    }
    assert s.told + [] == s.told;
  }

  /** A terminal answer tells the plugin nothing, and the request is no longer running. */
  predicate EndsQuietly(s: State, t: State) {
    && t.uiPolicy == s.uiPolicy && t.told == s.told && t.started == s.started && t.everProcessed == s.everProcessed
    && t.watcher in {s.watcher, NoWatcher} && (s.queue != [] ==> !t.active)
  }

  lemma ResultEndsQuietly(s: State)
    ensures EndsQuietly(s, ProcessResultReply(s))
  {
  }

  lemma ErrorEndsQuietly(s: State)
    ensures EndsQuietly(s, ProcessError(s))
  {
  }

  lemma AnswerEnds(s: State, r: Response, up: bool)
    requires FlagInv(s) && s.everProcessed && (r.ResultResponse? || r.ErrorResponse?)
    ensures Talks(s, PluginSays(r, up), Step(s, PluginSays(r, up)))
  {
    ResultEndsQuietly(s.(processing := false));
    ErrorEndsQuietly(s.(processing := false));
    assert s.told + [] == s.told;
    hide ProcessResultReply, ProcessError, UiAllowed;
  }

  lemma AskTalks(s: State, r: Response, up: bool)
    requires FlagInv(s) && s.everProcessed && !(r.ResultResponse? || r.ErrorResponse?)
    ensures Talks(s, PluginSays(r, up), Step(s, PluginSays(r, up)))
  {
    assert s.told + [] == s.told;
  }

  lemma WorldTalks(s: State, e: Event)
    requires FlagInv(s) && Enabled(s, e) && (e.CredentialsSystemReady? || e.UiAnswers?)
    ensures Talks(s, e, Step(s, e))
  {
    assert s.told + [] == s.told;
  }

  lemma DeliveryTalks(s: State, refresh: bool, up: bool)
    requires FlagInv(s) && Enabled(s, UiDelivered(refresh, up))
    ensures Talks(s, UiDelivered(refresh, up), Step(s, UiDelivered(refresh, up)))
  {
    assert s.told + [] == s.told;
  }

  lemma StepTalks(s: State, e: Event)
    requires FlagInv(s) && Enabled(s, e)
    ensures Talks(s, e, Step(s, e))
  {
    assert e.PluginSays? ==> s.everProcessed;
    hide Talks, Step, Enabled, FlagInv;
    match e
    case ClientCalls(k) => CallTalks(s, k);
    case ClientCancels(k) => CancelTalks(s, k);
    case CredentialsSystemReady => WorldTalks(s, e);
    case WakeUp(up, policy) => WakeUpTalks(s, up, policy);
    case PluginSays(r, up) =>
      if r.ResultResponse? || r.ErrorResponse? {
        AnswerEnds(s, r, up);
      } else {
        AskTalks(s, r, up);
      }
    case UiAnswers => WorldTalks(s, e);
    case UiDelivered(refresh, up) => DeliveryTalks(s, refresh, up);
  }

  /** The proxy counts as processing from what it tells the plugin, but for a cancellation, to a result or
      error. */
  lemma ProcessingExactly(s: State, e: Event)
    requires FlagInv(s) && Enabled(s, e)
    ensures Step(s, e).processing
         == if Messages(s, e) != [] && !e.ClientCancels? then true
            else if e.PluginSays? && (e.response.ResultResponse? || e.response.ErrorResponse?) then false
            else s.processing
  {
    assert e.PluginSays? ==> s.everProcessed;
    hide Process, Cancel, StartNewRequest, HandlePluginResponse, FlagInv;
    match e
    case ClientCalls(k) => CallProcessing(s, k);
    case ClientCancels(k) => CancelProcessing(s, k);
    case CredentialsSystemReady =>
    case WakeUp(up, policy) => WakeUpProcessing(s.(wakeups := s.wakeups - 1), up, policy);
    case PluginSays(r, up) => ResponseProcessing(s, r, up);
    case UiAnswers =>
    case UiDelivered(_, _) =>
  }

  lemma CallProcessing(s: State, cancelKey: string)
    ensures Process(s, cancelKey).processing == s.processing
  {
  }

  lemma CancelProcessing(s: State, cancelKey: string)
    ensures Cancel(s, cancelKey).processing == s.processing
  {
    hide IndexOf;
  }

  lemma StartProcessing(s: State, up: bool, policy: int)
    requires s.queue != []
    ensures StartProcess(s, up, policy).processing == (s.processing || up)
  {
  }

  lemma WakeUpProcessing(s: State, up: bool, policy: int)
    ensures StartNewRequest(s, up, policy).processing == (s.processing || (CanStart(s) && up))
  {
    hide StartProcess;
    var s1 := ClearCanceled(s);
    assert s1.active == s.active && s1.watcher == s.watcher && s1.queue == s.queue && s1.processing == s.processing;
    hide ClearCanceled;
    if s.queue != [] {
      StartProcessing(s1.(autoDestruct := false), up, policy);
    }
  }

  lemma ResponseProcessing(s: State, r: Response, up: bool)
    requires FlagInv(s) && s.everProcessed
    ensures HandlePluginResponse(s, r, up).processing
         == if r.ResultResponse? || r.ErrorResponse? then false
            else if Messages(s, PluginSays(r, up)) != [] then true else s.processing
  {
    TerminalProcessing(s.(processing := false));
    hide ProcessResultReply, ProcessError, FlagInv;
  }

  lemma TerminalProcessing(s: State)
    ensures ProcessResultReply(s).processing == s.processing && ProcessError(s).processing == s.processing
  {
  }

  // ------------------------------------------------- The policy of the running request

  lemma LastStep(ready: bool, es: seq<Event>, t: State) returns (u: State)
    requires es != [] && Reachable(t, ready, es)
    ensures Reachable(u, ready, es[..|es| - 1]) && Enabled(u, es[|es| - 1]) && t == Step(u, es[|es| - 1]) && FlagInv(u)
  {
    u := Exec(Init(ready), es[..|es| - 1]).value;
    ReachableInv(u, ready, es[..|es| - 1]);
    hide Step, Enabled, FlagInv, QueueInv, StartInv, ReplyInv;
  }

  /** The position of the event since which the core is active. */
  ghost function StartOf(ready: bool, es: seq<Event>): (i: nat)
    requires Exec(Init(ready), es).Some? && Exec(Init(ready), es).value.active
    ensures i < |es|
  {
    if Exec(Init(ready), es[..|es| - 1]).value.active then StartOf(ready, es[..|es| - 1]) else |es| - 1
  }

  /** In every run, the policy that the proxy has for the running request is the one that came with
      the event that started it. */
  lemma {:induction false} RunningPolicy(s: State, ready: bool, es: seq<Event>)
    requires Reachable(s, ready, es) && s.active
    ensures var i := StartOf(ready, es);
      && es[i].WakeUp? && es[i].up && s.uiPolicy == es[i].policy
      && Exec(Init(ready), es[..i]).Some? && !Exec(Init(ready), es[..i]).value.active
      && s.queue != [] && Exec(Init(ready), es[..i]).value.queue != []
      && Exec(Init(ready), es[..i]).value.queue[0] == s.queue[0]
    decreases |es|
  {
    var n := |es| - 1;
    var u := LastStep(ready, es, s);
    StepTalks(u, es[n]);
    if u.active {
      RunningPolicy(u, ready, es[..n]);
      var i := StartOf(ready, es[..n]);
      assert es[..n][..i] == es[..i];
    }
  }

  /** The policy that came with the running request. */
  ghost function GivenPolicy(ready: bool, es: seq<Event>): int
    requires Exec(Init(ready), es).Some? && Exec(Init(ready), es).value.active
  {
    RunningPolicy(Exec(Init(ready), es).value, ready, es);
    es[StartOf(ready, es)].policy
  }

  /** A dialog on screen is for the running request, which is not cancelled; and unless it only
      refreshes, the policy that came with that request allows it. */
  lemma DialogRespectsPolicy(s: State, ready: bool, es: seq<Event>)
    requires Reachable(s, ready, es) && s.watcher.Pending?
    ensures s.active && !s.canceled && s.queue != [] && s.watcher.dialog.owner == s.queue[0].msg
    ensures !s.watcher.dialog.refresh ==>
      !Forbidden(GivenPolicy(ready, es), s.watcher.dialog.queriesCredentials, s.watcher.dialog.queriesCaptcha)
  {
    ReachableInv(s, ready, es);
    RunningPolicy(s, ready, es);
    hide QueueInv, StartInv, ReplyInv, Exec, StartOf;
  }

  lemma AskIs(s: State, credentials: bool, captcha: bool, up: bool)
    requires FlagInv(s) && s.everProcessed
    ensures var t := HandlePluginResponse(s, UiResponse(credentials, captcha), up);
      if !s.active then t == s
      else
        var forbidden := Forbidden(s.uiPolicy, credentials, captcha);
        && s.queue != []
        && t.told == (if forbidden && up then s.told + [Forbid(credentials, captcha)] else s.told)
        && t.watcher == (if forbidden || s.canceled then s.watcher
                         else Pending(Dialog(s.queue[0].msg, false, credentials, captcha)))
  {
  }

  lemma RefreshIs(s: State, up: bool)
    requires FlagInv(s) && s.everProcessed
    ensures var t := HandlePluginResponse(s, RefreshedResponse, up);
      if !s.active || s.canceled then t == s
      else s.queue != [] && t == s.(watcher := Pending(Dialog(s.queue[0].msg, true, false, false)))
  {
    hide UiAllowed;
  }

  /** What a plugin that asks for a dialog gets: the dialog, exactly when a request is running, not
      cancelled, whose policy does not forbid it; and a refusal exactly when the policy does. */
  lemma {:induction false} DialogOpensExactly(s: State, ready: bool, es: seq<Event>, credentials: bool, captcha: bool, up: bool)
    requires Reachable(s, ready, es) && s.everProcessed
    ensures var t := Step(s, PluginSays(UiResponse(credentials, captcha), up));
      if !s.active then t == s
      else
        var forbidden := Forbidden(GivenPolicy(ready, es), credentials, captcha);
        && s.queue != []
        && t.told == (if forbidden && up then s.told + [Forbid(credentials, captcha)] else s.told)
        && t.watcher == (if forbidden || s.canceled then s.watcher
                         else Pending(Dialog(s.queue[0].msg, false, credentials, captcha)))
  {
    hide FlagInv, QueueInv, StartInv, ReplyInv, Exec, StartOf, HandlePluginResponse, Forbidden;
    ReachableInv(s, ready, es);
    if s.active {
      RunningPolicy(s, ready, es);
      assert GivenPolicy(ready, es) == s.uiPolicy;
    }
    hide GivenPolicy;
    AskIs(s, credentials, captcha, up);
  }

  /** A refreshed dialog needs no policy. */
  lemma {:induction false} RefreshOpensExactly(s: State, ready: bool, es: seq<Event>, up: bool)
    requires Reachable(s, ready, es) && s.everProcessed
    ensures var t := Step(s, PluginSays(RefreshedResponse, up));
      if !s.active || s.canceled then t == s
      else s.queue != [] && t == s.(watcher := Pending(Dialog(s.queue[0].msg, true, false, false)))
  {
    ReachableInv(s, ready, es);
    RefreshIs(s, up);
    hide FlagInv, QueueInv, StartInv, ReplyInv, Exec, HandlePluginResponse;
  }

  lemma AnswerIs(s: State, refresh: bool, up: bool)
    requires s.watcher.Answered?
    ensures var t := QueryUiSlot(s, refresh, up);
      && t.watcher == NoWatcher
      && t.told == (if s.canceled || !up then s.told else s.told + [Answer(s.watcher.dialog, refresh)])
  {
  }

  /** The answer of a dialog reaches the plugin, as an answer or as a wish to refresh, exactly when
      the running request is not cancelled and a process is up; and unless it was overtaken, that
      request is the one that asked. */
  lemma {:induction false} AnswerReachesPlugin(s: State, ready: bool, es: seq<Event>, refresh: bool, up: bool)
    requires Reachable(s, ready, es) && Enabled(s, UiDelivered(refresh, up))
    ensures var t := Step(s, UiDelivered(refresh, up));
      && t.watcher == NoWatcher
      && t.told == (if s.canceled || !up then s.told else s.told + [Answer(s.watcher.dialog, refresh)])
    ensures !Overtaken(ready, es) ==> s.active && s.watcher.dialog.owner == s.queue[0].msg
  {
    assert Step(s, UiDelivered(refresh, up)) == QueryUiSlot(s, refresh, up);
    AnswerIs(s, refresh, up);
    hide Exec, Overtaken, QueryUiSlot, Step;
    OvertakenExactly(s, ready, es);
  }

  // ----------------------------------------------------- The whole of what the plugin hears

  /** The request that the plugin was given last. */
  function LastWork(told: seq<Message>): Option<Message> {
    if told == [] then None
    else if told[|told| - 1].Work? then Some(told[|told| - 1])
    else LastWork(told[..|told| - 1])
  }

  lemma {:induction false} LastWorkIsWork(told: seq<Message>)
    ensures LastWork(told).Some? ==> LastWork(told).value.Work?
  {
    if told != [] {
      LastWorkIsWork(told[..|told| - 1]);
    }
  }

  /** May be said after `told`: requests come in the order of arrival; a cancellation is of the
      request last given; a refusal is what its policy asks for; an answer is for it or an earlier
      one. */
  predicate Fits(told: seq<Message>, message: Message) {
    var work := LastWork(told);
    match message
    case Work(m, _) => work.Some? && work.value.Work? ==> work.value.msg < m
    case Abort(m) => work.Some? && work.value.Work? && work.value.msg == m
    case Forbid(credentials, captcha) =>
      work.Some? && work.value.Work? && Forbidden(work.value.policy, credentials, captcha)
    case Answer(dialog, _) => work.Some? && work.value.Work? && dialog.owner <= work.value.msg
  }

  predicate Orderly(told: seq<Message>) {
    forall i :: 0 <= i < |told| ==> Fits(told[..i], told[i])
  }

  /** How the last message but the others is kept in the state. */
  ghost predicate TalkInv(s: State) {
    && Orderly(s.told)
    && (LastWork(s.told).Some? <==> s.everProcessed)
    && (s.everProcessed ==>
          && LastWork(s.told).value.Work? && LastWork(s.told).value.policy == s.uiPolicy
          && LastWork(s.told).value.msg in s.started
          && (s.active ==> s.queue != [] && LastWork(s.told).value.msg == s.queue[0].msg)
          && (!s.watcher.NoWatcher? ==> s.watcher.dialog.owner <= LastWork(s.told).value.msg))
    && (!s.everProcessed ==> s.watcher.NoWatcher?)
  }

  lemma {:induction false} Says(told: seq<Message>, message: Message)
    requires Orderly(told) && Fits(told, message)
    ensures Orderly(told + [message])
    ensures LastWork(told + [message]) == if message.Work? then Some(message) else LastWork(told)
  {
    var longer := told + [message];
    assert longer[..|told|] == told;
    forall i | 0 <= i < |longer|
      ensures Fits(longer[..i], longer[i])
    {
      if i < |told| {
        assert longer[..i] == told[..i];
      }
    }
  }

  /** The last work was given to a request that arrived before every other that waits. */
  lemma LastWorkIsEarlier(s: State)
    requires StartInv(s) && TalkInv(s) && s.everProcessed && !s.active && s.queue != []
    ensures LastWork(s.told).value.msg < s.queue[0].msg
  {
    var m := LastWork(s.told).value.msg;
    var i :| 0 <= i < |s.started| && s.started[i] == m;
    assert s.started[i] <= s.started[|s.started| - 1];
    hide LastWork, Orderly;
  }

  lemma MessageFits(s: State, e: Event)
    requires FlagInv(s) && StartInv(s) && TalkInv(s) && Enabled(s, e)
    ensures |Messages(s, e)| <= 1 && (Messages(s, e) != [] ==> Fits(s.told, Messages(s, e)[0]))
    ensures Starts(s, e) <==> Messages(s, e) != [] && Messages(s, e)[0].Work?
  {
    if Starts(s, e) && s.everProcessed {
      LastWorkIsEarlier(s);
    }
    hide LastWork, Orderly, StartInv;
  }

  /** The messages of an event leave what is said orderly, and the last work known. */
  lemma StepIsOrderly(s: State, e: Event)
    requires FlagInv(s) && StartInv(s) && TalkInv(s) && Enabled(s, e)
    ensures var told := s.told + Messages(s, e);
      && Orderly(told)
      && LastWork(told) == if Starts(s, e) then Some(Work(s.queue[0].msg, e.policy)) else LastWork(s.told)
  {
    MessageFits(s, e);
    assert Starts(s, e) ==> Messages(s, e) == [Work(s.queue[0].msg, e.policy)];
    hide Messages, LastWork, Orderly, Fits, StartInv, FlagInv, Starts, Enabled;
    if Messages(s, e) == [] {
      assert s.told + Messages(s, e) == s.told;
    } else {
      Says(s.told, Messages(s, e)[0]);
      assert Messages(s, e) == [Messages(s, e)[0]];
    }
  }

  lemma StepKeepsTalk(s: State, e: Event)
    requires FlagInv(s) && StartInv(s) && TalkInv(s) && Enabled(s, e)
    ensures TalkInv(Step(s, e))
  {
    StepTalks(s, e);
    StepIsOrderly(s, e);
    if Starts(s, e) && s.everProcessed {
      LastWorkIsEarlier(s);
    }
    assert Starts(s, e) ==> s.queue != [] && !s.active;
    hide Step, Enabled, Messages, LastWork, Orderly, Fits, StartInv, FlagInv, Starts;
  }

  /** In every run, all that the plugin hears is orderly: it is given requests in the order of their
      arrival, hears of no cancellation but of the request last given, and of no refusal that the
      policy of that one does not ask for; and its answers are for that one or an earlier one. */
  lemma {:induction false} TalkIsOrderly(s: State, ready: bool, es: seq<Event>)
    requires Reachable(s, ready, es)
    ensures TalkInv(s)
    decreases |es|
  {
    assert TalkInv(Init(ready));
    hide TalkInv, Step, Enabled, QueueInv, StartInv, FlagInv, ReplyInv;
    if es != [] {
      var u := LastStep(ready, es, s);
      TalkIsOrderly(u, ready, es[..|es| - 1]);
      ReachableInv(u, ready, es[..|es| - 1]);
      StepKeepsTalk(u, es[|es| - 1]);
    }
  }
}
