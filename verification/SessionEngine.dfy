/**
 The request engine of one authentication session: the request queue of
 SignonSessionCore together with the result automaton of its PluginProxy.

 A transition system over values: one function per slot, with histories of
 arrivals, starts and replies.
 */
module SessionEngine {
  import opened Wrappers

  // ---------------------------------------------------------------- Data model

  /** A D-Bus call waiting for an answer.  `msg` is its position in arrival order. */
  datatype Request = Request(msg: nat, cancelKey: string)

  /** The call to signon-ui: none, on screen, or answered with the answer still
      to be delivered to queryUiSlot (Qt posts that delivery). */
  datatype Watcher = NoWatcher | Pending(dialog: Dialog) | Answered(dialog: Dialog)

  /** The request for which a dialog was opened, and what the plugin asked. */
  datatype Dialog = Dialog(owner: nat, refresh: bool, queriesCredentials: bool, queriesCaptcha: bool)

  /** What the plugin process is sent: a request with its UI policy, that the request is cancelled,
      that a dialog is forbidden, or the answer of a dialog. */
  datatype Message =
    | Work(msg: nat, policy: int)
    | Abort(msg: nat)
    | Forbid(queriesCredentials: bool, queriesCaptcha: bool)
    | Answer(dialog: Dialog, refresh: bool)

  /** What a plugin process can send. */
  datatype Response =
    | ResultResponse
    | ErrorResponse
    | StoreResponse
    | SignalResponse
    | UiResponse(queriesCredentials: bool, queriesCaptcha: bool)
    | RefreshedResponse

  const NO_USER_INTERACTION_POLICY := 2
  const VALIDATION_POLICY := 3

  datatype State = State(
    // SignonSessionCore
    queue: seq<Request>,
    active: bool,
    canceled: bool,
    watcher: Watcher,
    autoDestruct: bool,
    // PluginProxy
    obtained: bool,
    processing: bool,
    uiPolicy: int,
    // the world: credentials system ready, posted startNewRequest events
    ready: bool,
    wakeups: nat,
    // histories
    arrivals: seq<Request>,
    started: seq<nat>,
    results: multiset<nat>,
    errors: multiset<nat>,
    cancels: multiset<nat>,
    forgotten: set<nat>,
    everProcessed: bool,
    told: seq<Message>)

  function Init(ready: bool): State {
    State([], false, false, NoWatcher, true, false, false, 0, ready, 0,
          [], [], multiset{}, multiset{}, multiset{}, {}, false, [])
  }

  // ------------------------------------------------------- Slots, on values

  function Post(s: State): State {
    s.(wakeups := s.wakeups + 1)
  }

  function Process(s: State, cancelKey: string): State {
    var r := Request(|s.arrivals|, cancelKey);
    var s1 := s.(queue := s.queue + [r], arrivals := s.arrivals + [r]);
    if s.ready then Post(s1) else s1
  }

  /** Index of the first request with the given key, |q| when there is none. */
  function IndexOf(q: seq<Request>, cancelKey: string): (i: nat)
    ensures i <= |q|
    ensures i < |q| ==> q[i].cancelKey == cancelKey
    ensures forall k :: 0 <= k < i ==> q[k].cancelKey != cancelKey
  {
    if q == [] || q[0].cancelKey == cancelKey then 0
    else
      var rest := IndexOf(q[1..], cancelKey);
      assert forall k :: 1 <= k <= rest ==> q[k] == q[1..][k - 1];
      rest + 1
  }

  function CancelActive(s: State): State
    requires s.queue != []
  {
    s.(canceled := true,
       watcher := if s.watcher.Pending? then NoWatcher else s.watcher,
       cancels := s.cancels + multiset{s.queue[0].msg},
       told := s.told + [Abort(s.queue[0].msg)])
  }

  function CancelQueued(s: State, i: nat): State
    requires i < |s.queue|
  {
    s.(queue := s.queue[..i] + s.queue[i + 1..],
       cancels := s.cancels + multiset{s.queue[i].msg})
  }

  function Cancel(s: State, cancelKey: string): State {
    var i := IndexOf(s.queue, cancelKey);
    if i == |s.queue| then s
    else if i == 0 && s.active then CancelActive(s)
    else CancelQueued(s, i)
  }

  function RequestDone(s: State): State
    requires s.queue != []
  {
    Post(s.(queue := s.queue[1..], active := false))
  }

  /** `up` is whether a plugin process is running (restartIfRequired); `policy` the UI
      policy in the merged parameters. */
  function StartProcess(s: State, up: bool, policy: int): State
    requires s.queue != []
  {
    var s1 := s.(active := true, started := s.started + [s.queue[0].msg]);
    if up then s1.(obtained := false, uiPolicy := policy, processing := true, everProcessed := true,
                    told := s1.told + [Work(s.queue[0].msg, policy)])
    else RequestDone(s1.(errors := s1.errors + multiset{s.queue[0].msg}))
  }

  /** The history remembers which cancellation this forgets. */
  function ClearCanceled(s: State): State {
    s.(canceled := false,
       forgotten := if s.active && s.canceled && s.queue != [] then s.forgotten + {s.queue[0].msg} else s.forgotten)
  }

  function StartNewRequest(s: State, up: bool, policy: int): State {
    var s1 := ClearCanceled(s);
    if s1.queue == [] then s1.(autoDestruct := true)
    else if s1.active then s1
    else if s1.watcher.Pending? then s1
    else StartProcess(s1.(autoDestruct := false), up, policy)
  }

  function CloseDialog(s: State): State {
    s.(watcher := if s.watcher.Pending? then NoWatcher else s.watcher)
  }

  function ProcessResultReply(s: State): State {
    if s.queue == [] then s
    else if s.canceled then RequestDone(s)
    else RequestDone(CloseDialog(s.(results := s.results + multiset{s.queue[0].msg})))
  }

  function ProcessError(s: State): State {
    if s.queue == [] then s
    else if s.canceled then RequestDone(s)
    else RequestDone(CloseDialog(s.(errors := s.errors + multiset{s.queue[0].msg})))
  }

  function OpenDialog(s: State, refresh: bool, queriesCredentials: bool, queriesCaptcha: bool): State {
    if !s.canceled && s.queue != [] then
      s.(watcher := Pending(Dialog(s.queue[0].msg, refresh, queriesCredentials, queriesCaptcha)))
    else s
  }

  /** PluginProxy::processUi and processRefresh. */
  function SendToPlugin(s: State, up: bool, message: Message): State {
    if up then s.(processing := true, told := s.told + [message]) else s
  }

  function UiAllowed(policy: int, queriesCredentials: bool, queriesCaptcha: bool): bool {
    policy != NO_USER_INTERACTION_POLICY
    && !(policy == VALIDATION_POLICY && queriesCredentials && !queriesCaptcha)
  }

  function HandlePluginResponse(s: State, r: Response, up: bool): State {
    match r
    case ResultResponse =>
      var s1 := s.(processing := false);
      (if s.obtained then s1 else ProcessResultReply(s1)).(obtained := true)
    case ErrorResponse =>
      var s1 := s.(processing := false);
      (if s.obtained then s1 else ProcessError(s1)).(obtained := true)
    case StoreResponse => s
    case SignalResponse => s
    case UiResponse(credentials, captcha) =>
      if s.obtained then s
      else if UiAllowed(s.uiPolicy, credentials, captcha) then OpenDialog(s, false, credentials, captcha)
      else SendToPlugin(s, up, Forbid(credentials, captcha))
    case RefreshedResponse =>
      if s.obtained then s else OpenDialog(s, true, false, false)
  }

  /** `refresh` is whether the answer asks for a new dialog. */
  function QueryUiSlot(s: State, refresh: bool, up: bool): State
    requires s.watcher.Answered?
  {
    (if s.canceled then s else SendToPlugin(s, up, Answer(s.watcher.dialog, refresh))).(watcher := NoWatcher)
  }

  // ------------------------------------------------------------------- Runs

  datatype Event =
    | ClientCalls(cancelKey: string)
    | ClientCancels(cancelKey: string)
    | CredentialsSystemReady
    | WakeUp(up: bool, policy: int)
    | PluginSays(response: Response, up: bool)
    | UiAnswers
    | UiDelivered(refresh: bool, up: bool)

  /** A plugin speaks only after it was given something to process; posted events
      are delivered only if there are any; queryUiSlot asserts a non-empty queue. */
  predicate Enabled(s: State, e: Event) {
    match e
    case ClientCalls(_) => true
    case ClientCancels(_) => true
    case CredentialsSystemReady => !s.ready
    case WakeUp(_, _) => s.wakeups > 0
    case PluginSays(_, _) => s.everProcessed
    case UiAnswers => s.watcher.Pending?
    case UiDelivered(_, _) => s.watcher.Answered? && s.queue != []
  }

  function Step(s: State, e: Event): State
    requires Enabled(s, e)
  {
    match e
    case ClientCalls(k) => Process(s, k)
    case ClientCancels(k) => Cancel(s, k)
    case CredentialsSystemReady => Post(s.(ready := true))
    case WakeUp(up, policy) => StartNewRequest(s.(wakeups := s.wakeups - 1), up, policy)
    case PluginSays(r, up) => HandlePluginResponse(s, r, up)
    case UiAnswers => s.(watcher := Answered(s.watcher.dialog))
    case UiDelivered(refresh, up) => QueryUiSlot(s, refresh, up)
  }

  /** The state after the events, None when one of them was not enabled. */
  function Exec(s: State, es: seq<Event>): Option<State> {
    if es == [] then Some(s)
    else
      match Exec(s, es[..|es| - 1])
      case None => None
      case Some(t) => if Enabled(t, es[|es| - 1]) then Some(Step(t, es[|es| - 1])) else None
  }

  // -------------------------------------------------------------- Invariant

  predicate Queued(s: State, m: nat) {
    exists k :: 0 <= k < |s.queue| && s.queue[k].msg == m
  }

  /** Arrived, and no longer in the queue. */
  predicate Departed(s: State, m: nat) {
    m < |s.arrivals| && !Queued(s, m)
  }

  /** The queue is a subsequence of the arrivals. */
  ghost predicate QueueInv(s: State) {
    && (forall k :: 0 <= k < |s.queue| ==>
          s.queue[k].msg < |s.arrivals| && s.arrivals[s.queue[k].msg] == s.queue[k])
    && (forall j, k :: 0 <= j < k < |s.queue| ==> s.queue[j].msg < s.queue[k].msg)
  }

  /** The flags of the core and of the proxy, taken together. */
  predicate FlagInv(s: State) {
    && (s.active ==> s.queue != [] && !s.obtained && s.everProcessed && !s.autoDestruct)
    && (!s.active && s.everProcessed ==> s.obtained)
    && (s.watcher.Pending? ==> s.active && !s.canceled && s.queue != [] && s.watcher.dialog.owner == s.queue[0].msg)
    && (s.watcher.Pending? && !s.watcher.dialog.refresh ==>
          UiAllowed(s.uiPolicy, s.watcher.dialog.queriesCredentials, s.watcher.dialog.queriesCaptcha))
    && (!s.watcher.NoWatcher? ==> s.watcher.dialog.owner in s.started)
    && (s.wakeups > 0 || s.everProcessed || s.started != [] ==> s.ready)
    && (s.ready && !s.active && s.queue != [] ==> s.wakeups > 0)
  }

  /** Starts happen in arrival order, and only the head of the queue can be running. */
  ghost predicate StartInv(s: State) {
    && (forall i, j :: 0 <= i < j < |s.started| ==> s.started[i] < s.started[j])
    && (s.started != [] ==>
          && s.started[|s.started| - 1] < |s.arrivals|
          && (s.queue != [] && !s.active ==> s.started[|s.started| - 1] < s.queue[0].msg))
    && (s.active ==> s.started != [] && s.queue != [] && s.started[|s.started| - 1] == s.queue[0].msg)
  }

  function Replies(s: State, m: nat): nat {
    s.results[m] + s.errors[m] + s.cancels[m]
  }

  /** Never cancelled, or cancelled once and the cancellation not forgotten. */
  predicate CanceledCleanly(s: State, m: nat) {
    s.cancels[m] == 0 || (s.cancels[m] == 1 && m !in s.forgotten)
  }

  /** A request that has not been touched has no reply. */
  predicate Untouched(s: State, m: nat) {
    s.results[m] == 0 && s.errors[m] == 0 && s.cancels[m] == 0 && m !in s.forgotten
  }

  /** The request in the plugin: nothing but cancellation replies so far. */
  predicate Running(s: State, m: nat) {
    && m in s.started
    && s.results[m] == 0 && s.errors[m] == 0
    && (s.canceled ==> s.cancels[m] >= 1)
    && (m in s.forgotten ==> s.cancels[m] >= 1)
    && (s.canceled && m in s.forgotten ==> s.cancels[m] >= 2)
    && (!s.canceled && m !in s.forgotten ==> s.cancels[m] == 0)
  }

  /** A request that left the queue. */
  predicate Settled(s: State, m: nat) {
    && Replies(s, m) >= 1
    && s.results[m] + s.errors[m] <= 1
    && (s.results[m] + s.errors[m] == 1 ==> m in s.started)
    && (Replies(s, m) == 1 <==> CanceledCleanly(s, m))
  }

  predicate ReplyInvAt(s: State, m: nat) {
    if s.active && s.queue != [] && m == s.queue[0].msg then Running(s, m)
    else if Departed(s, m) then Settled(s, m)
    else Untouched(s, m)
  }

  ghost predicate ReplyInv(s: State) {
    forall m: nat :: ReplyInvAt(s, m)
  }

  ghost predicate Inv(s: State) {
    QueueInv(s) && FlagInv(s) && StartInv(s) && ReplyInv(s)
  }

  // ----------------------------------------------- Every step keeps the invariant

  lemma ProcessKeepsOrder(s: State, cancelKey: string)
    requires QueueInv(s) && FlagInv(s) && StartInv(s)
    ensures var t := Process(s, cancelKey); QueueInv(t) && FlagInv(t) && StartInv(t)
  {
    var t := Process(s, cancelKey);
    assert QueueInv(t) by { hide FlagInv, StartInv; }
    assert StartInv(t) by { hide FlagInv; }
  }

  lemma ProcessKeepsReplyInvAt(s: State, cancelKey: string, m: nat)
    requires FlagInv(s) && ReplyInvAt(s, m)
    ensures ReplyInvAt(Process(s, cancelKey), m)
  {
    var t := Process(s, cancelKey);
    assert t.queue[|s.queue|].msg == |s.arrivals|;
    if Queued(s, m) {
      var k :| 0 <= k < |s.queue| && s.queue[k].msg == m;
      assert t.queue[k].msg == m;
    }
  }

  lemma ProcessKeepsInv(s: State, cancelKey: string)
    requires Inv(s)
    ensures Inv(Process(s, cancelKey))
  {
    hide QueueInv, StartInv, ReplyInvAt;
    ProcessKeepsOrder(s, cancelKey);
    forall m: nat
      ensures ReplyInvAt(Process(s, cancelKey), m)
    {
      assert ReplyInvAt(s, m);
      ProcessKeepsReplyInvAt(s, cancelKey, m);
    }
  }

  /** Where a request comes from when the one at `i` is dropped. */
  lemma {:induction false} WithoutOne(q: seq<Request>, i: nat, k: nat)
    requires i < |q| && k < |q| - 1
    ensures (q[..i] + q[i + 1..])[k] == q[if k < i then k else k + 1]
  {
  }

  lemma KeptInQueue(s: State, t: State, i: nat, k: nat)
    requires i < |s.queue| && t.queue == s.queue[..i] + s.queue[i + 1..]
    requires k < |s.queue| && k != i
    ensures Queued(t, s.queue[k].msg)
  {
    var j := if k < i then k else k - 1;
    WithoutOne(s.queue, i, j);
    assert t.queue[j] == s.queue[k];
  }

  lemma WasInQueue(s: State, t: State, i: nat, m: nat)
    requires QueueInv(s) && i < |s.queue| && t.queue == s.queue[..i] + s.queue[i + 1..]
    requires Queued(t, m)
    ensures Queued(s, m) && m != s.queue[i].msg
  {
    var k :| 0 <= k < |t.queue| && t.queue[k].msg == m;
    var j := if k < i then k else k + 1;
    WithoutOne(s.queue, i, k);
    QueuedOnce(s, i, j);
    hide QueueInv;
    assert s.queue[j].msg == m;
  }

  lemma QueuedOnce(s: State, i: nat, j: nat)
    requires QueueInv(s) && i < |s.queue| && j < |s.queue| && i != j
    ensures s.queue[i].msg != s.queue[j].msg
  {
  }

  /** Dropping the request at `i` from the queue leaves every other request where it was. */
  lemma Removal(s: State, t: State, i: nat, m: nat)
    requires QueueInv(s) && i < |s.queue|
    requires t.queue == s.queue[..i] + s.queue[i + 1..] && t.arrivals == s.arrivals
    ensures Queued(t, m) <==> Queued(s, m) && m != s.queue[i].msg
  {
    hide QueueInv;
    if Queued(t, m) {
      WasInQueue(s, t, i, m);
    } else if Queued(s, m) {
      var k :| 0 <= k < |s.queue| && s.queue[k].msg == m;
      if k != i {
        KeptInQueue(s, t, i, k);
      }
    }
  }

  lemma CancelActiveKeepsOrder(s: State)
    requires QueueInv(s) && FlagInv(s) && StartInv(s) && s.active
    ensures var t := CancelActive(s); QueueInv(t) && FlagInv(t) && StartInv(t)
  {
  }

  lemma CancelQueuedKeepsOrder(s: State, i: nat)
    requires QueueInv(s) && FlagInv(s) && StartInv(s) && i < |s.queue| && !(i == 0 && s.active)
    ensures var t := CancelQueued(s, i); QueueInv(t) && FlagInv(t) && StartInv(t)
  {
    var t := CancelQueued(s, i);
    assert forall k :: 0 <= k < |t.queue| ==> t.queue[k] == s.queue[if k < i then k else k + 1];
  }

  lemma CancelActiveKeepsReplyInvAt(s: State, m: nat)
    requires s.active && s.queue != [] && ReplyInvAt(s, m)
    ensures ReplyInvAt(CancelActive(s), m)
  {
    assert Queued(CancelActive(s), m) <==> Queued(s, m);
    assert Queued(s, s.queue[0].msg);
  }

  lemma CancelQueuedKeepsReplyInvAt(s: State, i: nat, m: nat)
    requires QueueInv(s) && i < |s.queue| && !(i == 0 && s.active) && ReplyInvAt(s, m)
    ensures ReplyInvAt(CancelQueued(s, i), m)
  {
    assert Queued(s, s.queue[i].msg);
    Removal(s, CancelQueued(s, i), i, m);
  }

  lemma CancelKeepsInv(s: State, cancelKey: string)
    requires Inv(s)
    ensures Inv(Cancel(s, cancelKey))
  {
    var i := IndexOf(s.queue, cancelKey);
    if i < |s.queue| {
      hide QueueInv, StartInv, ReplyInvAt;
      if i == 0 && s.active {
        CancelActiveKeepsOrder(s);
      } else {
        CancelQueuedKeepsOrder(s, i);
      }
      forall m: nat
        ensures ReplyInvAt(Cancel(s, cancelKey), m)
      {
        assert ReplyInvAt(s, m);
        if i == 0 && s.active {
          CancelActiveKeepsReplyInvAt(s, m);
        } else {
          CancelQueuedKeepsReplyInvAt(s, i, m);
        }
      }
    }
  }

  /** The terminal answer of the running request. */
  ghost predicate Terminal(s: State, t: State) {
    || t == ProcessResultReply(s.(processing := false)).(obtained := true)
    || t == ProcessError(s.(processing := false)).(obtained := true)
  }

  /** The head of the queue departs, with a reply unless it is cancelled, and without its dialog. */
  ghost predicate HeadDeparts(s: State, t: State)
    requires s.queue != []
  {
    && t.queue == s.queue[1..] && t.arrivals == s.arrivals && t.started == s.started && !t.active
    && t.cancels == s.cancels && t.forgotten == s.forgotten
    && (var m := multiset{s.queue[0].msg};
        if s.canceled then t.results == s.results && t.errors == s.errors
        else || (t.results == s.results + m && t.errors == s.errors)
             || (t.results == s.results && t.errors == s.errors + m))
    && t.watcher == (if s.watcher.Pending? && !s.canceled then NoWatcher else s.watcher)
    && t.wakeups == s.wakeups + 1 && t.ready == s.ready && t.everProcessed == s.everProcessed
  }

  lemma ResultReplyIs(s: State)
    requires s.queue != []
    ensures HeadDeparts(s, ProcessResultReply(s))
  {
  }

  lemma ErrorReplyIs(s: State)
    requires s.queue != []
    ensures HeadDeparts(s, ProcessError(s))
  {
  }

  lemma TerminalIs(s: State, t: State)
    requires s.queue != [] && Terminal(s, t)
    ensures HeadDeparts(s, t) && t.obtained
  {
    ResultReplyIs(s.(processing := false));
    ErrorReplyIs(s.(processing := false));
    hide ProcessResultReply, ProcessError;
  }

  lemma TerminalKeepsOrder(s: State, t: State)
    requires QueueInv(s) && FlagInv(s) && StartInv(s) && s.active && Terminal(s, t)
    ensures QueueInv(t) && FlagInv(t) && StartInv(t)
  {
    TerminalIs(s, t);
    hide Terminal;
    assert QueueInv(t) by { hide FlagInv, StartInv; }
    assert StartInv(t) by { hide FlagInv; }
  }

  lemma HeadSettles(s: State, t: State)
    requires s.queue != [] && Running(s, s.queue[0].msg) && HeadDeparts(s, t)
    ensures Settled(t, s.queue[0].msg)
  {
  }

  lemma OthersStay(s: State, t: State, m: nat)
    requires s.queue != [] && m != s.queue[0].msg && HeadDeparts(s, t)
    ensures Settled(s, m) ==> Settled(t, m)
    ensures Untouched(s, m) ==> Untouched(t, m)
  {
  }

  /** At most one more reply, and the request departs. */
  lemma TerminalKeepsReplyInvAt(s: State, t: State, m: nat)
    requires QueueInv(s) && FlagInv(s) && s.active && Terminal(s, t) && ReplyInvAt(s, m)
    ensures ReplyInvAt(t, m)
  {
    TerminalIs(s, t);
    assert t.queue == s.queue[..0] + s.queue[1..];
    assert Queued(s, s.queue[0].msg);
    Removal(s, t, 0, m);
    hide Terminal, Queued, QueueInv, Running, Settled, Untouched;
    if m == s.queue[0].msg {
      HeadSettles(s, t);
    } else {
      OthersStay(s, t, m);
    }
  }

  lemma TerminalKeepsInv(s: State, t: State)
    requires Inv(s) && s.active && Terminal(s, t)
    ensures Inv(t)
  {
    hide QueueInv, StartInv, ReplyInvAt, Terminal;
    forall m: nat
      ensures ReplyInvAt(t, m)
    {
      assert ReplyInvAt(s, m);
      TerminalKeepsReplyInvAt(s, t, m);
    }
    TerminalKeepsOrder(s, t);
  }

  lemma SameQueue(s: State, t: State)
    requires QueueInv(s) && t.queue == s.queue && t.arrivals == s.arrivals
    ensures QueueInv(t)
  {
  }

  lemma SameOrderKeepsOrder(s: State, t: State)
    requires QueueInv(s) && StartInv(s)
    requires t.queue == s.queue && t.arrivals == s.arrivals && t.active == s.active && t.started == s.started
    ensures QueueInv(t) && StartInv(t)
  {
  }

  /** Steps that touch neither the queue nor any reply. */
  lemma SameRepliesKeepReplyInv(s: State, t: State)
    requires ReplyInv(s)
    requires t.queue == s.queue && t.arrivals == s.arrivals && t.active == s.active && t.canceled == s.canceled
    requires t.started == s.started && t.results == s.results && t.errors == s.errors && t.cancels == s.cancels && t.forgotten == s.forgotten
    ensures ReplyInv(t)
  {
    forall m: nat
      ensures ReplyInvAt(t, m)
    {
      assert ReplyInvAt(s, m);
      assert Queued(t, m) <==> Queued(s, m);
    }
  }

  lemma ResponseKeepsInv(s: State, r: Response, up: bool)
    requires Inv(s) && s.everProcessed
    ensures Inv(HandlePluginResponse(s, r, up))
  {
    assert s.active ==> s.queue[0].msg in s.started;
    hide QueueInv, StartInv, ReplyInvAt;
    var t := HandlePluginResponse(s, r, up);
    if !s.obtained && (r.ResultResponse? || r.ErrorResponse?) {
      TerminalKeepsInv(s, t);
    } else {
      SameRepliesKeepReplyInv(s, t);
      SameOrderKeepsOrder(s, t);
    }
  }

  lemma StartProcessKeepsOrder(s: State, up: bool, policy: int)
    requires QueueInv(s) && StartInv(s) && s.queue != []
    requires !s.active && !s.canceled && !s.autoDestruct && s.ready && !s.watcher.Pending?
    requires s.everProcessed ==> s.obtained
    requires !s.watcher.NoWatcher? ==> s.watcher.dialog.owner in s.started
    ensures var t := StartProcess(s, up, policy); QueueInv(t) && FlagInv(t) && StartInv(t)
  {
    if !up {
      assert StartProcess(s, up, policy).queue == s.queue[1..];
    }
  }

  lemma WakeUpKeepsOrder(s: State, up: bool, policy: int)
    requires QueueInv(s) && FlagInv(s) && StartInv(s) && s.wakeups > 0
    ensures var t := StartNewRequest(s.(wakeups := s.wakeups - 1), up, policy);
            QueueInv(t) && FlagInv(t) && StartInv(t)
  {
    hide QueueInv, StartInv, StartProcess;
    var s1 := s.(wakeups := s.wakeups - 1, canceled := false, autoDestruct := false);
    if s.queue != [] && !s.active {
      SameOrderKeepsOrder(s, s1);
      StartProcessKeepsOrder(s1, up, policy);
    } else {
      SameOrderKeepsOrder(s, StartNewRequest(s.(wakeups := s.wakeups - 1), up, policy));
    }
  }

  lemma StartProcessKeepsReplyInvAt(s: State, up: bool, policy: int, m: nat)
    requires QueueInv(s) && s.queue != [] && !s.active && !s.canceled && ReplyInvAt(s, m)
    ensures ReplyInvAt(StartProcess(s, up, policy), m)
  {
    var t := StartProcess(s, up, policy);
    assert Queued(s, s.queue[0].msg);
    assert s.queue[0].msg in t.started by { assert t.started[|s.started|] == s.queue[0].msg; }
    assert m in s.started ==> m in t.started;
    if up {
      assert Queued(t, m) <==> Queued(s, m);
    } else {
      assert t.queue == s.queue[..0] + s.queue[1..];
      Removal(s, t, 0, m);
    }
  }

  lemma WakeUpKeepsReplyInvAt(s: State, up: bool, policy: int, m: nat)
    requires QueueInv(s) && FlagInv(s) && s.wakeups > 0 && ReplyInvAt(s, m)
    ensures ReplyInvAt(StartNewRequest(s.(wakeups := s.wakeups - 1), up, policy), m)
  {
    hide QueueInv, StartProcess;
    if s.queue != [] && !s.active {
      var s1 := s.(wakeups := s.wakeups - 1, canceled := false, autoDestruct := false);
      assert Queued(s1, m) <==> Queued(s, m);
      assert QueueInv(s1) by { SameQueue(s, s1); }
      StartProcessKeepsReplyInvAt(s1, up, policy, m);
    } else {
      var t := StartNewRequest(s.(wakeups := s.wakeups - 1), up, policy);
      assert Queued(t, m) <==> Queued(s, m);
      assert s.queue != [] ==> Queued(s, s.queue[0].msg);
    }
  }

  lemma WakeUpKeepsInv(s: State, up: bool, policy: int)
    requires Inv(s) && s.wakeups > 0
    ensures Inv(StartNewRequest(s.(wakeups := s.wakeups - 1), up, policy))
  {
    hide QueueInv, StartInv, ReplyInvAt, StartNewRequest;
    var t := StartNewRequest(s.(wakeups := s.wakeups - 1), up, policy);
    forall m: nat
      ensures ReplyInvAt(t, m)
    {
      assert ReplyInvAt(s, m);
      WakeUpKeepsReplyInvAt(s, up, policy, m);
    }
    WakeUpKeepsOrder(s, up, policy);
  }

  lemma EnvironmentKeepsInv(s: State, e: Event)
    requires Inv(s) && Enabled(s, e)
    requires e.CredentialsSystemReady? || e.UiAnswers? || e.UiDelivered?
    ensures Inv(Step(s, e))
  {
    hide QueueInv, StartInv, ReplyInvAt;
    SameRepliesKeepReplyInv(s, Step(s, e));
    SameOrderKeepsOrder(s, Step(s, e));
  }

  lemma StepKeepsInv(s: State, e: Event)
    requires Inv(s) && Enabled(s, e)
    ensures Inv(Step(s, e))
  {
    hide Inv;
    match e
    case ClientCalls(k) => ProcessKeepsInv(s, k);
    case ClientCancels(k) => CancelKeepsInv(s, k);
    case WakeUp(up, policy) => WakeUpKeepsInv(s, up, policy);
    case PluginSays(r, up) => ResponseKeepsInv(s, r, up);
    case _ => EnvironmentKeepsInv(s, e);
  }

  lemma WakeUpKeepsArrivals(s: State, up: bool, policy: int)
    ensures StartNewRequest(s, up, policy).arrivals == s.arrivals
  {
    WakeUpKeepsWaiting(s, up, policy);
    hide StartNewRequest;
  }

  lemma TerminalKeepsArrivals(s: State)
    ensures ProcessResultReply(s).arrivals == s.arrivals && ProcessError(s).arrivals == s.arrivals
  {
    if s.queue != [] {
      ResultReplyIs(s);
      ErrorReplyIs(s);
    } else {
      assert ProcessResultReply(s) == s && ProcessError(s) == s;
    }
    hide ProcessResultReply, ProcessError;
  }

  lemma ResponseKeepsArrivals(s: State, r: Response, up: bool)
    ensures HandlePluginResponse(s, r, up).arrivals == s.arrivals
  {
    TerminalKeepsArrivals(s.(processing := false));
    hide ProcessResultReply, ProcessError, UiAllowed;
  }

  lemma CancelKeepsArrivals(s: State, cancelKey: string)
    ensures Cancel(s, cancelKey).arrivals == s.arrivals
  {
    hide IndexOf;
  }

  lemma {:induction false} RunKeepsInv(s: State, es: seq<Event>, t: State)
    requires Inv(s) && Exec(s, es) == Some(t)
    ensures Inv(t)
  {
    if es != [] {
      var u := Exec(s, es[..|es| - 1]).value;
      RunKeepsInv(s, es[..|es| - 1], u);
      StepKeepsInv(u, es[|es| - 1]);
    }
  }

  // --------------------------------------------------- What holds in every run

  ghost predicate Reachable(s: State, ready: bool, es: seq<Event>) {
    Exec(Init(ready), es) == Some(s)
  }

  lemma ReachableInv(s: State, ready: bool, es: seq<Event>)
    requires Reachable(s, ready, es)
    ensures Inv(s)
  {
    assert forall m: nat :: ReplyInvAt(Init(ready), m);
    RunKeepsInv(Init(ready), es, s);
  }

  /** A request that left the queue has been answered; by the plugin at most once, and only
      after it was started; in all exactly once if and only if it was cancelled cleanly. */
  lemma EveryDepartureIsAnswered(s: State, ready: bool, es: seq<Event>, m: nat)
    requires Reachable(s, ready, es) && Departed(s, m)
    ensures Replies(s, m) >= 1
    ensures s.results[m] + s.errors[m] <= 1
    ensures s.results[m] + s.errors[m] == 1 ==> m in s.started
    ensures Replies(s, m) == 1 <==> CanceledCleanly(s, m)
  {
    ReachableInv(s, ready, es);
    assert ReplyInvAt(s, m);
    assert s.queue != [] ==> Queued(s, s.queue[0].msg);
  }

  /** Nothing is answered early: a queued request has no reply unless it is the running
      one, and that one has at most cancellation replies. */
  lemma NoEarlyReply(s: State, ready: bool, es: seq<Event>, k: nat)
    requires Reachable(s, ready, es) && k < |s.queue|
    ensures s.results[s.queue[k].msg] == 0 && s.errors[s.queue[k].msg] == 0
    ensures !(s.active && k == 0) ==> s.cancels[s.queue[k].msg] == 0
  {
    ReachableInv(s, ready, es);
    var m := s.queue[k].msg;
    assert ReplyInvAt(s, m);
    assert Queued(s, m);
    assert k > 0 ==> s.queue[0].msg < m;
  }

  /** No lost wake-up: work that could start has a posted event that will start it. */
  lemma NoLostWakeUp(s: State, ready: bool, es: seq<Event>)
    requires Reachable(s, ready, es) && s.ready && !s.active && s.queue != []
    ensures s.wakeups > 0 && Enabled(s, WakeUp(true, 0))
    ensures Step(s, WakeUp(true, 0)).active
    ensures Step(s, WakeUp(true, 0)).started == s.started + [s.queue[0].msg]
  {
    ReachableInv(s, ready, es);
  }

  /** Starts are a subsequence of the arrivals, the running request is the last start and
      the queue head, and nothing starts before the credentials system is ready. */
  lemma StartsInArrivalOrder(s: State, ready: bool, es: seq<Event>)
    requires Reachable(s, ready, es)
    ensures forall i, j :: 0 <= i < j < |s.started| ==> s.started[i] < s.started[j]
    ensures forall i :: 0 <= i < |s.started| ==> s.started[i] < |s.arrivals|
    ensures s.active ==> s.started != [] && s.queue != [] && s.started[|s.started| - 1] == s.queue[0].msg
    ensures !s.ready ==> s.started == [] && !s.active
  {
    ReachableInv(s, ready, es);
  }

  // ---------------------------------------------- Where the guarantees need care

  lemma {:induction false} ExecAppend(s: State, es: seq<Event>, fs: seq<Event>)
    ensures Exec(s, es + fs) == match Exec(s, es) case None => None case Some(t) => Exec(t, fs)
  {
    if fs == [] {
      assert es + fs == es;
    } else {
      var n := |fs| - 1;
      assert (es + fs)[..|es + fs| - 1] == es + fs[..n];
      ExecAppend(s, es, fs[..n]);
    }
  }

  lemma ExecCons(s: State, e: Event, es: seq<Event>)
    requires Enabled(s, e)
    ensures Exec(s, [e] + es) == Exec(Step(s, e), es)
  {
    ExecAppend(s, [e], es);
    assert [e][..0] == [];
  }

  lemma Reaches(s: State, ready: bool, es: seq<Event>, e: Event, t: State)
    requires Reachable(s, ready, es) && Enabled(s, e) && Step(s, e) == t
    ensures Reachable(t, ready, es + [e])
  {
    assert (es + [e])[..|es|] == es;
  }

  /** Call "a" is running, call "b" waits, and its wake-up is posted. */
  function TwoCalls(): State {
    Init(true).(queue := [Request(0, "a"), Request(1, "b")], arrivals := [Request(0, "a"), Request(1, "b")],
                active := true, autoDestruct := false, processing := true, everProcessed := true,
                started := [0], wakeups := 1, told := [Work(0, 0)])
  }

  /** Call "a" waits for its wake-up. */
  function OneCall(): State {
    Init(true).(queue := [Request(0, "a")], arrivals := [Request(0, "a")], wakeups := 1)
  }

  lemma OneCallArrives()
    ensures Step(Init(true), ClientCalls("a")) == OneCall()
  {
    assert [] + [Request(0, "a")] == [Request(0, "a")];
  }

  lemma OneCallStarts(s: State)
    requires s == OneCall().(active := true, autoDestruct := false, processing := true, everProcessed := true,
                             started := [0], wakeups := 0, told := [Work(0, 0)])
    ensures Step(OneCall(), WakeUp(true, 0)) == s
  {
    assert [] + [0] == [0];
  }

  lemma OneCallRunning(s: State) returns (es: seq<Event>)
    requires s == OneCall().(active := true, autoDestruct := false, processing := true, everProcessed := true,
                             started := [0], wakeups := 0, told := [Work(0, 0)])
    ensures Reachable(s, true, es)
  {
    es := [];
    assert Reachable(Init(true), true, es);
    OneCallArrives();
    OneCallStarts(s);
    assert Enabled(OneCall(), WakeUp(true, 0));
    hide Reachable, Exec, Step, OneCall;
    Reaches(Init(true), true, es, ClientCalls("a"), OneCall());
    es := es + [ClientCalls("a")];
    Reaches(OneCall(), true, es, WakeUp(true, 0), s);
    es := es + [WakeUp(true, 0)];
  }

  lemma TwoCallsOneRunning() returns (es: seq<Event>)
    ensures Reachable(TwoCalls(), true, es)
  {
    hide Reachable, Exec;
    var s := TwoCalls().(queue := [Request(0, "a")], arrivals := [Request(0, "a")], wakeups := 0);
    es := OneCallRunning(s);
    assert [Request(0, "a")] + [Request(1, "b")] == [Request(0, "a"), Request(1, "b")];
    Reaches(s, true, es, ClientCalls("b"), TwoCalls());
    es := es + [ClientCalls("b")];
  }

  /** The cancellation of the running request, forgotten by the next wake-up. */
  lemma ForgetByWakeUp(s: State, cancelKey: string)
    requires s.queue != [] && s.queue[0].cancelKey == cancelKey && s.active && s.wakeups > 0
    ensures Step(s, ClientCancels(cancelKey)).wakeups > 0
    ensures var t := Step(Step(s, ClientCancels(cancelKey)), WakeUp(true, 0));
      && t.queue == s.queue && t.active && !t.canceled && t.obtained == s.obtained
      && t.everProcessed == s.everProcessed && t.arrivals == s.arrivals
      && t.cancels == s.cancels + multiset{s.queue[0].msg} && t.errors == s.errors && t.results == s.results
  {
  }

  lemma ErrorAnswersHead(s: State)
    requires s.queue != [] && !s.canceled && !s.obtained
    ensures var t := HandlePluginResponse(s, ErrorResponse, true);
      && t.queue == s.queue[1..] && t.arrivals == s.arrivals
      && t.errors == s.errors + multiset{s.queue[0].msg} && t.cancels == s.cancels && t.results == s.results
  {
  }

  /** startNewRequest clears the cancellation flag before it looks at anything else: a single
      cancellation followed by another client's wake-up ends in two replies. */
  lemma ForgottenCancellation() returns (es: seq<Event>, s: State)
    ensures Reachable(s, true, es)
    ensures Departed(s, 0) && s.cancels[0] == 1 && s.errors[0] == 1 && Replies(s, 0) == 2
  {
    hide Reachable, Exec, Step, Enabled, TwoCalls, Departed, Replies;
    es := TwoCallsOneRunning();
    CancelForgetFail();
    var s4 := Step(TwoCalls(), ClientCancels("a"));
    var s5 := Step(s4, WakeUp(true, 0));
    s := Step(s5, PluginSays(ErrorResponse, true));
    Reaches(TwoCalls(), true, es, ClientCancels("a"), s4);
    es := es + [ClientCancels("a")];
    Reaches(s4, true, es, WakeUp(true, 0), s5);
    es := es + [WakeUp(true, 0)];
    Reaches(s5, true, es, PluginSays(ErrorResponse, true), s);
    es := es + [PluginSays(ErrorResponse, true)];
  }

  lemma CancelForgetFail()
    ensures Enabled(TwoCalls(), ClientCancels("a"))
    ensures var s4 := Step(TwoCalls(), ClientCancels("a"));
      && Enabled(s4, WakeUp(true, 0))
      && var s5 := Step(s4, WakeUp(true, 0));
         && Enabled(s5, PluginSays(ErrorResponse, true))
         && var s := Step(s5, PluginSays(ErrorResponse, true));
            Departed(s, 0) && s.cancels[0] == 1 && s.errors[0] == 1 && Replies(s, 0) == 2
  {
    ForgetByWakeUp(TwoCalls(), "a");
    var s5 := Step(Step(TwoCalls(), ClientCancels("a")), WakeUp(true, 0));
    ErrorAnswersHead(s5);
    hide Cancel, StartNewRequest, HandlePluginResponse;
    assert s5.queue[1..] == [Request(1, "b")];
  }

  /** The watcher belongs to the running request: that one asked for its dialog. */
  predicate WatcherOwned(s: State) {
    !s.watcher.NoWatcher? ==> s.active && s.queue != [] && s.watcher.dialog.owner == s.queue[0].msg
  }

  /** The plugin does not finish the request while an answered dialog is still undelivered. */
  predicate Prompt(s: State, e: Event) {
    !(e.PluginSays? && (e.response.ResultResponse? || e.response.ErrorResponse?)
      && !s.obtained && s.watcher.Answered?)
  }

  lemma ResponseIsPrompt(s: State, r: Response, up: bool)
    requires Inv(s) && WatcherOwned(s) && s.everProcessed
    ensures var t, e := HandlePluginResponse(s, r, up), PluginSays(r, up);
      && (WatcherOwned(t) <==> Prompt(s, e))
      && ((t.watcher.Answered? ==> t.queue != []) <==> Prompt(s, e) || |s.queue| > 1)
  {
    hide QueueInv, StartInv, ReplyInv, UiAllowed;
  }

  lemma WakeUpIsPrompt(s: State, up: bool, policy: int)
    requires Inv(s) && WatcherOwned(s) && s.wakeups > 0
    ensures var t := StartNewRequest(s.(wakeups := s.wakeups - 1), up, policy);
      WatcherOwned(t) && (t.watcher.Answered? ==> t.queue != [])
  {
    hide QueueInv, StartInv, ReplyInv;
  }

  lemma CancelIsPrompt(s: State, cancelKey: string)
    requires Inv(s) && WatcherOwned(s)
    ensures var t := Cancel(s, cancelKey); WatcherOwned(t) && (t.watcher.Answered? ==> t.queue != [])
  {
    hide QueueInv, StartInv, ReplyInv;
    var i := IndexOf(s.queue, cancelKey);
    if 0 < i < |s.queue| {
      assert (s.queue[..i] + s.queue[i + 1..])[0] == s.queue[0];
    }
  }

  /** One step keeps the watcher with the request that asked exactly when it is prompt; and it
      leaves an answer without any request exactly when it is not and no other request waits. */
  lemma PromptIsExact(s: State, e: Event)
    requires Inv(s) && WatcherOwned(s) && Enabled(s, e)
    ensures WatcherOwned(Step(s, e)) <==> Prompt(s, e)
    ensures (Step(s, e).watcher.Answered? ==> Step(s, e).queue != []) <==> Prompt(s, e) || |s.queue| > 1
  {
    hide Inv, Cancel, StartNewRequest, HandlePluginResponse;
    match e
    case ClientCancels(k) => CancelIsPrompt(s, k);
    case WakeUp(up, policy) => WakeUpIsPrompt(s, up, policy);
    case PluginSays(r, up) => ResponseIsPrompt(s, r, up);
    case UiAnswers => assert FlagInv(s) by { PendingIsOwned(s); }
    case _ =>
  }

  lemma PendingIsOwned(s: State)
    requires Inv(s)
    ensures FlagInv(s)
  {
  }

  ghost predicate PromptRun(s: State, es: seq<Event>) {
    es == [] ||
    (PromptRun(s, es[..|es| - 1])
     && (Exec(s, es[..|es| - 1]).Some? ==> Prompt(Exec(s, es[..|es| - 1]).value, es[|es| - 1])))
  }

  lemma {:induction false} PromptRunOwnsWatcher(s: State, ready: bool, es: seq<Event>)
    requires Reachable(s, ready, es) && PromptRun(Init(ready), es)
    ensures WatcherOwned(s)
    decreases |es|
  {
    if es != [] {
      var u := Exec(Init(ready), es[..|es| - 1]).value;
      PromptRunOwnsWatcher(u, ready, es[..|es| - 1]);
      ReachableInv(u, ready, es[..|es| - 1]);
      PromptIsExact(u, es[|es| - 1]);
    }
  }

  predicate CanDestroy(s: State) {
    !s.active && s.watcher == NoWatcher
  }

  /** An object marked for automatic destruction refuses destroy() after a step exactly when its
      queue ran empty under an answered dialog. */
  lemma {:induction false} RefusalIsExact(s: State, e: Event)
    requires Inv(s) && (s.autoDestruct ==> CanDestroy(s)) && Enabled(s, e)
    ensures var t := Step(s, e);
      (t.autoDestruct ==> CanDestroy(t)) <==> !(e.WakeUp? && s.queue == [] && s.watcher.Answered?)
  {
    hide QueueInv, StartInv, ReplyInv, UiAllowed;
    match e
    case ClientCancels(k) => CancelMarks(s, k);
    case WakeUp(up, policy) => WakeUpMarks(s, up, policy);
    case PluginSays(r, up) => ResponseMarks(s, r, up);
    case _ => hide Cancel, StartNewRequest, HandlePluginResponse;
  }

  lemma CancelMarks(s: State, cancelKey: string)
    requires FlagInv(s) && (s.autoDestruct ==> CanDestroy(s))
    ensures var t := Cancel(s, cancelKey); t.autoDestruct ==> CanDestroy(t)
  {
    hide IndexOf, UiAllowed;
  }

  lemma WakeUpMarks(s: State, up: bool, policy: int)
    requires FlagInv(s) && s.wakeups > 0
    ensures var t := StartNewRequest(s.(wakeups := s.wakeups - 1), up, policy);
      (t.autoDestruct ==> CanDestroy(t)) <==> !(s.queue == [] && s.watcher.Answered?)
  {
    hide StartProcess, UiAllowed;
    if s.queue != [] && !s.active {
      StartProcessMarks(s.(wakeups := s.wakeups - 1, canceled := false, autoDestruct := false), up, policy);
    }
  }

  lemma ResponseMarks(s: State, r: Response, up: bool)
    requires FlagInv(s) && (s.autoDestruct ==> CanDestroy(s)) && s.everProcessed
    ensures var t := HandlePluginResponse(s, r, up); t.autoDestruct ==> CanDestroy(t)
  {
    TerminalMarks(s.(processing := false));
    hide ProcessResultReply, ProcessError, UiAllowed;
  }

  lemma StartProcessMarks(s: State, up: bool, policy: int)
    requires s.queue != []
    ensures StartProcess(s, up, policy).autoDestruct == s.autoDestruct
  {
  }

  lemma TerminalMarks(s: State)
    ensures ProcessResultReply(s).autoDestruct == s.autoDestruct && ProcessError(s).autoDestruct == s.autoDestruct
  {
  }

  /** The answer at hand was overtaken: since it was given, the plugin finished the request. */
  ghost predicate Overtaken(ready: bool, es: seq<Event>)
    requires Exec(Init(ready), es).Some?
  {
    if es == [] then false
    else
      var n := |es| - 1;
      && Exec(Init(ready), es).value.watcher.Answered?
      && (Overtaken(ready, es[..n]) || !Prompt(Exec(Init(ready), es[..n]).value, es[n]))
  }

  /** An overtaken answer stays at hand until the watcher goes or another dialog opens. */
  lemma DisownedStays(s: State, e: Event)
    requires Inv(s) && Enabled(s, e) && s.watcher.Answered? && !WatcherOwned(s)
    ensures WatcherOwned(Step(s, e)) <==> !Step(s, e).watcher.Answered?
  {
    AnswerBeforeHead(s);
    hide ReplyInv, UiAllowed;
    match e
    case ClientCancels(k) => CancelKeepsStranger(s, k);
    case WakeUp(up, policy) => WakeUpKeepsStranger(s, up, policy);
    case PluginSays(r, up) => ResponseKeepsStranger(s, r, up);
    case _ =>
  }

  /** Whoever asked, if not the running request, is gone: every queued request came later. */
  lemma AnswerBeforeHead(s: State)
    requires Inv(s) && s.watcher.Answered? && !WatcherOwned(s)
    ensures forall k :: 0 <= k < |s.queue| ==> s.watcher.dialog.owner < s.queue[k].msg
    ensures Departed(s, s.watcher.dialog.owner)
  {
    hide ReplyInv, UiAllowed;
    var owner := s.watcher.dialog.owner;
    var i :| 0 <= i < |s.started| && s.started[i] == owner;
    assert s.started[i] <= s.started[|s.started| - 1];
  }

  ghost predicate Stranger(s: State) {
    && s.watcher.Answered? && s.watcher.dialog.owner < |s.arrivals|
    && forall k :: 0 <= k < |s.queue| ==> s.watcher.dialog.owner < s.queue[k].msg
  }

  lemma CancelKeepsStranger(s: State, cancelKey: string)
    requires Stranger(s)
    ensures Stranger(Cancel(s, cancelKey))
  {
    var i := IndexOf(s.queue, cancelKey);
    if i < |s.queue| && !(i == 0 && s.active) {
      WithdrawKeepsStranger(s, i);
    }
    hide IndexOf, CancelQueued;
  }

  lemma WithdrawKeepsStranger(s: State, i: nat)
    requires Stranger(s) && i < |s.queue|
    ensures Stranger(CancelQueued(s, i))
  {
    var t := CancelQueued(s, i);
    assert forall k :: 0 <= k < |t.queue| ==> t.queue[k] == s.queue[if k < i then k else k + 1];
  }

  lemma WakeUpKeepsStranger(s: State, up: bool, policy: int)
    requires Stranger(s) && s.wakeups > 0
    ensures Stranger(StartNewRequest(s.(wakeups := s.wakeups - 1), up, policy))
  {
    var s1 := s.(wakeups := s.wakeups - 1);
    WakeUpKeepsWaiting(s1, up, policy);
    KeepsStranger(s, StartNewRequest(s1, up, policy));
    hide StartNewRequest, Stranger;
  }

  /** The same requests wait, or all but the first, and the watcher is the same. */
  ghost predicate StillWaiting(s: State, t: State) {
    && t.watcher == s.watcher && t.arrivals == s.arrivals
    && (t.queue == s.queue || (s.queue != [] && t.queue == s.queue[1..]))
  }

  lemma KeepsStranger(s: State, t: State)
    requires Stranger(s) && StillWaiting(s, t)
    ensures Stranger(t)
  {
  }

  lemma WakeUpKeepsWaiting(s: State, up: bool, policy: int)
    ensures StillWaiting(s, StartNewRequest(s, up, policy))
  {
    hide StartProcess;
    var s1 := ClearCanceled(s);
    assert s1.queue == s.queue && s1.watcher == s.watcher && s1.arrivals == s.arrivals;
    hide ClearCanceled;
    if s.queue != [] {
      StartProcessKeepsWaiting(s1.(autoDestruct := false), up, policy);
    }
  }

  lemma StartProcessKeepsWaiting(s: State, up: bool, policy: int)
    requires s.queue != []
    ensures StillWaiting(s, StartProcess(s, up, policy))
  {
  }

  lemma TerminalKeepsStranger(s: State)
    requires Stranger(s)
    ensures Stranger(ProcessResultReply(s)) && Stranger(ProcessError(s))
  {
    if s.queue != [] {
      ResultReplyIs(s);
      KeepsStranger(s, ProcessResultReply(s));
      ErrorReplyIs(s);
      KeepsStranger(s, ProcessError(s));
    } else {
      assert ProcessResultReply(s) == s && ProcessError(s) == s;
    }
    hide ProcessResultReply, ProcessError;
  }

  lemma ResponseKeepsStranger(s: State, r: Response, up: bool)
    requires Inv(s) && Stranger(s) && s.everProcessed
    ensures var t := HandlePluginResponse(s, r, up);
      if t.watcher.Answered? then Stranger(t) else WatcherOwned(t)
  {
    TerminalKeepsStranger(s.(processing := false));
    hide QueueInv, StartInv, ReplyInv, UiAllowed, ProcessResultReply, ProcessError;
  }

  /** In every run, the answer of a dialog is for the running request, which asked, exactly when
      it was not overtaken.  Only an overtaken answer can find no request, or go to another one
      than asked, or stand in the way of destroying an object marked for destruction; and as
      long as it is at hand it does. */
  lemma {:induction false} OvertakenExactly(s: State, ready: bool, es: seq<Event>)
    requires Reachable(s, ready, es)
    ensures WatcherOwned(s) <==> !Overtaken(ready, es)
    ensures s.watcher.Answered? ==>
      ((s.queue != [] && s.queue[0].msg == s.watcher.dialog.owner) <==> !Overtaken(ready, es))
    ensures s.autoDestruct ==> (CanDestroy(s) <==> !Overtaken(ready, es))
    decreases |es|
  {
    ReachableInv(s, ready, es);
    if es != [] {
      var n := |es| - 1;
      var u := Exec(Init(ready), es[..n]).value;
      OvertakenExactly(u, ready, es[..n]);
      ReachableInv(u, ready, es[..n]);
      hide Inv, Step, Enabled;
      if WatcherOwned(u) {
        PromptIsExact(u, es[n]);
      } else {
        DisownedStays(u, es[n]);
      }
    }
    OwnedMeans(s);
  }

  lemma OwnedMeans(s: State)
    requires Inv(s)
    ensures s.watcher.Answered? ==> ((s.queue != [] && s.queue[0].msg == s.watcher.dialog.owner) <==> WatcherOwned(s))
    ensures s.autoDestruct ==> (CanDestroy(s) <==> WatcherOwned(s))
    ensures s.watcher.Pending? ==> WatcherOwned(s)
  {
    if s.watcher.Answered? && !WatcherOwned(s) {
      AnswerBeforeHead(s);
    }
    hide QueueInv, StartInv, ReplyInv, UiAllowed;
  }

  /** In prompt runs queryUiSlot always finds the request that asked, and an object marked for
      automatic destruction is never one whose destroy() refuses. */
  lemma {:induction false} PromptRunsAreSafe(s: State, ready: bool, es: seq<Event>)
    requires Reachable(s, ready, es) && PromptRun(Init(ready), es)
    ensures s.watcher.Answered? ==>
      s.queue != [] && s.queue[0].msg == s.watcher.dialog.owner && Enabled(s, UiDelivered(false, true))
    ensures s.autoDestruct ==> CanDestroy(s)
  {
    ReachableInv(s, ready, es);
    PromptRunOwnsWatcher(s, ready, es);
    OwnedMeans(s);
  }

  /** Without promptness: the assertion in queryUiSlot fails and destroy() refuses an object
      that destroyUnused then drops from its list. */
  lemma StaleAnswer() returns (es: seq<Event>, s: State)
    ensures Reachable(s, true, es)
    ensures s.watcher.Answered? && s.queue == []
    ensures s.autoDestruct && !CanDestroy(s)
  {
    var s0, a := Init(true), [Request(0, "a")];
    var s1 := s0.(queue := a, arrivals := a, wakeups := 1);
    var s2 := s1.(active := true, autoDestruct := false, processing := true, everProcessed := true,
                  started := [0], wakeups := 0, told := [Work(0, 0)]);
    var dialog := Dialog(0, false, true, false);
    var s3 := s2.(watcher := Pending(dialog));
    var s4 := s2.(watcher := Answered(dialog));
    var s5 := s4.(queue := [], active := false, processing := false, obtained := true, wakeups := 1,
                  results := multiset{0});
    s := s5.(wakeups := 0, autoDestruct := true);
    var ui, result := PluginSays(UiResponse(true, false), true), PluginSays(ResultResponse, true);
    es := [];
    Reaches(s0, true, es, ClientCalls("a"), s1);
    es := es + [ClientCalls("a")];
    Reaches(s1, true, es, WakeUp(true, 0), s2);
    es := es + [WakeUp(true, 0)];
    Reaches(s2, true, es, ui, s3);
    es := es + [ui];
    Reaches(s3, true, es, UiAnswers, s4);
    es := es + [UiAnswers];
    assert Step(s4, result) == s5;
    Reaches(s4, true, es, result, s5);
    es := es + [result];
    Reaches(s5, true, es, WakeUp(true, 0), s);
    es := es + [WakeUp(true, 0)];
  }

  /** Call "a" finished under its answered dialog, and call "b" running. */
  function AnswerForAnother(): State {
    TwoCalls().(queue := [Request(1, "b")], started := [0, 1], results := multiset{0},
                watcher := Answered(Dialog(0, false, true, false)), wakeups := 1, told := [Work(0, 0), Work(1, 0)])
  }

  /** Or, if another request waits, the answer goes to that one's plugin. */
  lemma AnswerGoesToAnother() returns (es: seq<Event>)
    ensures var s := AnswerForAnother();
      && Reachable(s, true, es) && Enabled(s, UiDelivered(false, true)) && !s.canceled
      && s.queue[0].msg != s.watcher.dialog.owner && Departed(s, s.watcher.dialog.owner)
  {
    var ui, result := PluginSays(UiResponse(true, false), true), PluginSays(ResultResponse, true);
    var dialog := Dialog(0, false, true, false);
    var s3 := TwoCalls();
    var s4 := s3.(watcher := Pending(dialog));
    var s5 := s3.(watcher := Answered(dialog));
    var s6 := s5.(queue := [Request(1, "b")], active := false, processing := false, obtained := true, wakeups := 2,
                  results := multiset{0});
    es := TwoCallsOneRunning();
    Reaches(s3, true, es, ui, s4);
    es := es + [ui];
    Reaches(s4, true, es, UiAnswers, s5);
    es := es + [UiAnswers];
    ResultUnderAnswer(s5, s6);
    Reaches(s5, true, es, result, s6);
    es := es + [result];
    StartsAnother(s6);
    Reaches(s6, true, es, WakeUp(true, 0), AnswerForAnother());
    es := es + [WakeUp(true, 0)];
  }

  lemma ResultUnderAnswer(s: State, t: State)
    requires s == TwoCalls().(watcher := Answered(Dialog(0, false, true, false)))
    requires t == s.(queue := [Request(1, "b")], active := false, processing := false, obtained := true, wakeups := 2,
                     results := multiset{0})
    ensures HandlePluginResponse(s, ResultResponse, true) == t
  {
    assert s.queue[1..] == [Request(1, "b")];
  }

  lemma StartsAnother(s: State)
    requires s == AnswerForAnother().(active := false, processing := false, obtained := true, wakeups := 2, started := [0],
                                      told := [Work(0, 0)])
    ensures Step(s, WakeUp(true, 0)) == AnswerForAnother()
  {
    assert [0] + [1] == [0, 1] && [Work(0, 0)] + [Work(1, 0)] == [Work(0, 0), Work(1, 0)];
  }

  /** Destroying an idle core with nothing posted loses no request exactly when the credentials
      system is ready or every call that ever arrived was cancelled; what is lost was never
      answered. */
  lemma {:induction false} DestroyLosesNothingExactly(s: State, ready: bool, es: seq<Event>)
    requires Reachable(s, ready, es) && s.wakeups == 0 && CanDestroy(s)
    ensures s.queue == [] <==> s.ready || forall m :: 0 <= m < |s.arrivals| ==> s.cancels[m] > 0
    ensures forall k :: 0 <= k < |s.queue| ==> Replies(s, s.queue[k].msg) == 0
  {
    ReachableInv(s, ready, es);
    forall m | 0 <= m < |s.arrivals|
      ensures s.queue == [] && !s.ready ==> s.cancels[m] > 0
    {
      assert ReplyInvAt(s, m);
    }
    forall k | 0 <= k < |s.queue|
      ensures Replies(s, s.queue[k].msg) == 0 && s.cancels[s.queue[k].msg] == 0
    {
      assert ReplyInvAt(s, s.queue[k].msg) && Queued(s, s.queue[k].msg);
    }
    if s.queue != [] {
      assert s.cancels[s.queue[0].msg] == 0;
    }
    hide ReplyInv, StartInv;
  }

  /** And a request can be lost: a core counts as idle although a request waits in it. */
  lemma DestroyLosesRequestWhenNotReady() returns (es: seq<Event>, s: State)
    ensures Reachable(s, false, es)
    ensures s.wakeups == 0 && s.autoDestruct && CanDestroy(s) && s.queue != [] && Replies(s, 0) == 0
  {
    s := Step(Init(false), ClientCalls("a"));
    Reaches(Init(false), false, [], ClientCalls("a"), s);
    es := [] + [ClientCalls("a")];
  }

  /** The proxy starts with no result obtained, so it would take an answer of a plugin that was
      given nothing to process.  Such an answer does no harm exactly when no request waits; else
      that request departs although it was never started. */
  lemma UnsolicitedAnswer(s: State, r: Response, up: bool)
    requires Inv(s) && !s.everProcessed && !s.obtained && (r.ResultResponse? || r.ErrorResponse?)
    ensures var t := HandlePluginResponse(s, r, up);
      && (Inv(t) <==> s.queue == [])
      && (s.queue != [] ==> Departed(t, s.queue[0].msg) && s.queue[0].msg !in t.started)
  {
    var t := HandlePluginResponse(s, r, up);
    assert Terminal(s, t);
    if s.queue == [] {
      SameRepliesKeepReplyInv(s, t);
      SameOrderKeepsOrder(s, t);
    } else {
      NeverStarted(s);
      DepartsUnstarted(s, t);
    }
    hide QueueInv, ReplyInv, StartInv, Terminal;
  }

  lemma NeverStarted(s: State)
    requires StartInv(s) && s.queue != [] && !s.active
    ensures s.queue[0].msg !in s.started
  {
  }

  lemma DepartsUnstarted(s: State, t: State)
    requires Inv(s) && s.queue != [] && !s.active && s.queue[0].msg !in s.started && Terminal(s, t)
    ensures Departed(t, s.queue[0].msg) && s.queue[0].msg !in t.started && !Inv(t)
  {
    var m := s.queue[0].msg;
    TerminalIs(s, t);
    assert t.queue == s.queue[..0] + s.queue[1..];
    assert Queued(s, m) && ReplyInvAt(s, m);
    Removal(s, t, 0, m);
    hide Terminal, QueueInv, StartInv, FlagInv, Queued;
    assert Untouched(s, m);
    assert !ReplyInvAt(t, m);
  }

  /** Deadlock freedom: once the credentials system is ready, wake-ups and plugin answers
      alone bring every queue down to empty. */
  lemma {:induction false} QueueDrains(s: State) returns (es: seq<Event>)
    requires Inv(s) && s.ready
    ensures forall i :: 0 <= i < |es| ==> es[i].WakeUp? || es[i].PluginSays?
    ensures Exec(s, es).Some? && Exec(s, es).value.queue == []
    decreases |s.queue|, !s.active
  {
    if s.queue == [] {
      es := [];
    } else {
      var e := if s.active then PluginSays(ErrorResponse, true) else WakeUp(true, 0);
      StepKeepsInv(s, e);
      var rest := QueueDrains(Step(s, e));
      ExecCons(s, e, rest);
      es := [e] + rest;
    }
  }
}
