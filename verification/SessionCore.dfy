/**
 The session core and its plugin proxy as objects whose slots update fields in place.
 Signals are direct calls, posted events a counter.  Every slot is proved to do
 to the fields what its counterpart in SessionEngine does to the value.
 */
module SessionCore {
  import Spec = SessionEngine

  class PluginProxy {
    var isProcessing: bool
    var isResultObtained: bool
    var uiPolicy: int
    // What was written to the process.
    ghost var told: seq<Spec.Message>

    constructor ()
      ensures !isProcessing && !isResultObtained && uiPolicy == 0 && told == []
    {
      isProcessing, isResultObtained, uiPolicy, told := false, false, 0, [];
    }

    /** `up` is what restartIfRequired returns; `request` is whose parameters these are. */
    method Process(ghost request: nat, policy: int, up: bool) returns (ok: bool)
      modifies this
      ensures ok == up
      ensures isResultObtained == (old(isResultObtained) && !up)
      ensures uiPolicy == if up then policy else old(uiPolicy)
      ensures isProcessing == (old(isProcessing) || up)
      ensures told == if up then old(told) + [Spec.Work(request, policy)] else old(told)
    {
      if !up {
        return false;
      }
      isResultObtained := false;
      uiPolicy := policy;
      told := told + [Spec.Work(request, policy)];
      isProcessing := true;
      return true;
    }

    method ProcessUi(ghost message: Spec.Message, up: bool) returns (ok: bool)
      modifies this`isProcessing, this`told
      ensures ok == up && isProcessing == (old(isProcessing) || up)
      ensures told == if up then old(told) + [message] else old(told)
    {
      if !up {
        return false;
      }
      told := told + [message];
      isProcessing := true;
      return true;
    }

    /** Differs from processUi only in the operation code that it writes. */
    method ProcessRefresh(ghost message: Spec.Message, up: bool) returns (ok: bool)
      modifies this`isProcessing, this`told
      ensures ok == up && isProcessing == (old(isProcessing) || up)
      ensures told == if up then old(told) + [message] else old(told)
    {
      if !up {
        return false;
      }
      told := told + [message];
      isProcessing := true;
      return true;
    }

    method Cancel(ghost request: nat)
      modifies this`told
      ensures told == old(told) + [Spec.Abort(request)]
    {
      told := told + [Spec.Abort(request)];
    }

    /** `core` is the receiver of the proxy's signals. */
    method HandlePluginResponse(core: SessionCore, r: Spec.Response, up: bool)
      requires core.plugin == this
      modifies this, core
      ensures core.View() == Spec.HandlePluginResponse(old(core.View()), r, up)
      ensures core.nextMessage == old(core.nextMessage)
    {
      match r {
        case ResultResponse => HandleResult(core);
        case ErrorResponse => HandleError(core);
        case UiResponse(credentials, captcha) => HandleUi(core, credentials, captcha, up);
        case RefreshedResponse =>
          if !isResultObtained {
            core.ProcessUiRequest(true, false, false);
          }
        case StoreResponse =>
        case SignalResponse =>
      }
    }

    method HandleResult(core: SessionCore)
      requires core.plugin == this
      modifies this, core
      ensures core.View() == Spec.HandlePluginResponse(old(core.View()), Spec.ResultResponse, true)
      ensures core.nextMessage == old(core.nextMessage)
    {
      hide Spec.ProcessResultReply;
      isProcessing := false;
      if !isResultObtained {
        core.ProcessResultReply();
      }
      isResultObtained := true;
    }

    method HandleError(core: SessionCore)
      requires core.plugin == this
      modifies this, core
      ensures core.View() == Spec.HandlePluginResponse(old(core.View()), Spec.ErrorResponse, true)
      ensures core.nextMessage == old(core.nextMessage)
    {
      hide Spec.ProcessError;
      isProcessing := false;
      if !isResultObtained {
        core.ProcessError();
      }
      isResultObtained := true;
    }

    method HandleUi(core: SessionCore, queriesCredentials: bool, queriesCaptcha: bool, up: bool)
      requires core.plugin == this
      modifies this, core
      ensures core.View() == Spec.HandlePluginResponse(old(core.View()),
                                                       Spec.UiResponse(queriesCredentials, queriesCaptcha), up)
      ensures core.nextMessage == old(core.nextMessage)
    {
      if !isResultObtained {
        var allowed := true;
        if uiPolicy == Spec.NO_USER_INTERACTION_POLICY {
          allowed := false;
        }
        if uiPolicy == Spec.VALIDATION_POLICY {
          if queriesCredentials && !queriesCaptcha {
            allowed := false;
          }
        }
        if !allowed {
          var _ := ProcessUi(Spec.Forbid(queriesCredentials, queriesCaptcha), up);
        } else {
          core.ProcessUiRequest(false, queriesCredentials, queriesCaptcha);
        }
      }
    }
  }

  class SessionCore {
    const plugin: PluginProxy
    var listOfRequests: seq<Spec.Request>
    var requestIsActive: bool
    var canceled: bool
    var watcher: Spec.Watcher
    var autoDestruct: bool
    var credentialsReady: bool
    // Posted startNewRequest events, owned by the event loop.
    ghost var wakeups: nat
    // Histories.
    ghost var arrivals: seq<Spec.Request>
    ghost var started: seq<nat>
    ghost var results: multiset<nat>
    ghost var errors: multiset<nat>
    ghost var cancels: multiset<nat>
    ghost var forgotten: set<nat>
    ghost var everProcessed: bool
    // Sequence number of the next D-Bus call.
    var nextMessage: nat

    ghost function View(): Spec.State
      reads this, plugin
    {
      Spec.State(listOfRequests, requestIsActive, canceled, watcher, autoDestruct,
                 plugin.isResultObtained, plugin.isProcessing, plugin.uiPolicy,
                 credentialsReady, wakeups,
                 arrivals, started, results, errors, cancels, forgotten, everProcessed, plugin.told)
    }

    constructor (ready: bool)
      ensures fresh(plugin) && View() == Spec.Init(ready) && nextMessage == 0
    {
      plugin := new PluginProxy();
      listOfRequests, requestIsActive, canceled := [], false, false;
      watcher, autoDestruct, credentialsReady := Spec.NoWatcher, true, ready;
      wakeups, arrivals, started := 0, [], [];
      results, errors, cancels, forgotten := multiset{}, multiset{}, multiset{}, {};
      everProcessed, nextMessage := false, 0;
    }

    method Process(cancelKey: string)
      requires nextMessage == |arrivals|
      modifies this
      ensures View() == Spec.Process(old(View()), cancelKey)
      ensures nextMessage == |arrivals|
    {
      Enqueue(Spec.Request(nextMessage, cancelKey));
      if credentialsReady {
        wakeups := wakeups + 1;
      }
    }

    /** The call arrives and waits. */
    method Enqueue(request: Spec.Request)
      requires request.msg == nextMessage == |arrivals|
      modifies this`nextMessage, this`arrivals, this`listOfRequests
      ensures View() == old(View()).(queue := old(listOfRequests) + [request], arrivals := old(arrivals) + [request])
      ensures nextMessage == old(nextMessage) + 1
    {
      nextMessage := nextMessage + 1;
      arrivals := arrivals + [request];
      listOfRequests := listOfRequests + [request];
    }

    /** The position of the first call with the key. */
    method FindRequest(cancelKey: string) returns (requestIndex: nat)
      ensures requestIndex == Spec.IndexOf(listOfRequests, cancelKey)
    {
      requestIndex := 0;
      while requestIndex < |listOfRequests|
        invariant requestIndex <= |listOfRequests|
        invariant forall k :: 0 <= k < requestIndex ==> listOfRequests[k].cancelKey != cancelKey
      {
        if listOfRequests[requestIndex].cancelKey == cancelKey {
          break;
        }
        requestIndex := requestIndex + 1;
      }
    }

    method Cancel(cancelKey: string)
      modifies this, plugin`told
      ensures View() == Spec.Cancel(old(View()), cancelKey)
      ensures nextMessage == old(nextMessage)
    {
      hide Spec.IndexOf, Spec.CancelActive, Spec.CancelQueued;
      var requestIndex := FindRequest(cancelKey);
      if requestIndex < |listOfRequests| {
        var isActive := requestIndex == 0 && requestIsActive;
        if isActive {
          CancelRunning();
        } else {
          Withdraw(requestIndex);
        }
      }
    }

    /** The running request gets its cancellation reply and stays in the queue. */
    method CancelRunning()
      requires listOfRequests != []
      modifies this`canceled, this`watcher, this`cancels, plugin`told
      ensures View() == Spec.CancelActive(old(View()))
    {
      canceled := true;
      plugin.Cancel(listOfRequests[0].msg);
      if watcher.Pending? {
        watcher := Spec.NoWatcher;
      }
      cancels := cancels + multiset{listOfRequests[0].msg};
    }

    /** A waiting request is answered and removed. */
    method Withdraw(requestIndex: nat)
      requires requestIndex < |listOfRequests|
      modifies this`listOfRequests, this`cancels
      ensures View() == Spec.CancelQueued(old(View()), requestIndex)
    {
      cancels := cancels + multiset{listOfRequests[requestIndex].msg};
      listOfRequests := listOfRequests[..requestIndex] + listOfRequests[requestIndex + 1..];
    }

    method CredentialsSystemReady()
      modifies this
      ensures View() == Spec.Post(old(View()).(ready := true))
      ensures nextMessage == old(nextMessage)
    {
      credentialsReady := true;
      wakeups := wakeups + 1;
    }

    method RequestDone()
      requires listOfRequests != []
      modifies this
      ensures View() == Spec.RequestDone(old(View()))
      ensures nextMessage == old(nextMessage)
    {
      listOfRequests := listOfRequests[1..];
      requestIsActive := false;
      wakeups := wakeups + 1;
    }

    method StartProcess(up: bool, policy: int)
      requires listOfRequests != []
      modifies this, plugin
      ensures View() == Spec.StartProcess(old(View()), up, policy)
      ensures nextMessage == old(nextMessage)
    {
      hide Spec.RequestDone;
      Begin();
      var ok := plugin.Process(listOfRequests[0].msg, policy, up);
      if !ok {
        ReplyError();
        RequestDone();
      } else {
        everProcessed := true;
      }
    }

    method Begin()
      requires listOfRequests != []
      modifies this`requestIsActive, this`started
      ensures View() == old(View()).(active := true, started := old(started) + [listOfRequests[0].msg])
    {
      requestIsActive := true;
      started := started + [listOfRequests[0].msg];
    }

    method ReplyError()
      requires listOfRequests != []
      modifies this`errors
      ensures View() == old(View()).(errors := old(errors) + multiset{listOfRequests[0].msg})
    {
      errors := errors + multiset{listOfRequests[0].msg};
    }

    /** The history remembers which cancellation the next start event forgets. */
    ghost method Forget()
      modifies this`forgotten
      ensures View() == old(View()).(
                forgotten := if requestIsActive && canceled && listOfRequests != []
                             then old(forgotten) + {listOfRequests[0].msg} else old(forgotten))
    {
      if requestIsActive && canceled && listOfRequests != [] {
        forgotten := forgotten + {listOfRequests[0].msg};
      }
    }

    /** The first effect of a delivered event. */
    method ClearCanceled()
      requires wakeups > 0
      modifies this
      ensures View() == Spec.ClearCanceled(old(View()).(wakeups := old(wakeups) - 1))
      ensures nextMessage == old(nextMessage)
    {
      Forget();
      wakeups := wakeups - 1;
      canceled := false;
    }

    /** The delivery of one posted event. */
    method StartNewRequest(up: bool, policy: int)
      requires wakeups > 0
      modifies this, plugin
      ensures View() == Spec.StartNewRequest(old(View()).(wakeups := old(wakeups) - 1), up, policy)
      ensures nextMessage == old(nextMessage)
    {
      hide Spec.StartProcess;
      assert Spec.ClearCanceled(View().(wakeups := wakeups - 1)).queue == listOfRequests;
      ClearCanceled();
      if listOfRequests == [] {
        autoDestruct := true;
        return;
      }
      if requestIsActive {
        return;
      }
      if watcher.Pending? {
        return;
      }
      autoDestruct := false;
      StartProcess(up, policy);
    }

    method ProcessResultReply()
      modifies this
      ensures View() == Spec.ProcessResultReply(old(View()))
      ensures nextMessage == old(nextMessage)
    {
      if listOfRequests == [] {
        return;
      }
      var rd := listOfRequests[0];
      if !canceled {
        results := results + multiset{rd.msg};
        if watcher.Pending? {
          watcher := Spec.NoWatcher;
        }
      }
      RequestDone();
    }

    method ProcessError()
      modifies this
      ensures View() == Spec.ProcessError(old(View()))
      ensures nextMessage == old(nextMessage)
    {
      if listOfRequests == [] {
        return;
      }
      if !canceled {
        ReplyError();
        if watcher.Pending? {
          watcher := Spec.NoWatcher;
        }
      }
      RequestDone();
    }

    /** processUiRequest and processRefreshRequest. */
    method ProcessUiRequest(refresh: bool, queriesCredentials: bool, queriesCaptcha: bool)
      modifies this
      ensures View() == Spec.OpenDialog(old(View()), refresh, queriesCredentials, queriesCaptcha)
      ensures nextMessage == old(nextMessage)
    {
      if !canceled && listOfRequests != [] {
        if !watcher.NoWatcher? {
          watcher := Spec.NoWatcher;
        }
        watcher := Spec.Pending(Spec.Dialog(listOfRequests[0].msg, refresh, queriesCredentials, queriesCaptcha));
      }
    }

    /** signon-ui answers; the watcher is finished but its slot not yet called. */
    method UiAnswers()
      requires watcher.Pending?
      modifies this
      ensures View() == old(View()).(watcher := Spec.Answered(old(watcher).dialog))
      ensures nextMessage == old(nextMessage)
    {
      watcher := Spec.Answered(watcher.dialog);
    }

    /** `refresh` is whether the answer asks for a new dialog. */
    method QueryUiSlot(refresh: bool, up: bool)
      requires listOfRequests != [] && watcher.Answered?
      modifies this, plugin
      ensures View() == Spec.QueryUiSlot(old(View()), refresh, up)
      ensures nextMessage == old(nextMessage)
    {
      if !canceled {
        if refresh {
          var _ := plugin.ProcessRefresh(Spec.Answer(watcher.dialog, true), up);
        } else {
          var _ := plugin.ProcessUi(Spec.Answer(watcher.dialog, false), up);
        }
      }
      watcher := Spec.NoWatcher;
    }
  }

  // -------------------------------------------------------------- The event loop

  method DeliverCall(core: SessionCore, cancelKey: string)
    requires core.nextMessage == |core.arrivals|
    modifies core
    ensures core.View() == Spec.Step(old(core.View()), Spec.ClientCalls(cancelKey))
    ensures core.nextMessage == |core.arrivals|
  {
    hide Spec.Process;
    core.Process(cancelKey);
  }

  method DeliverCancel(core: SessionCore, cancelKey: string)
    requires core.nextMessage == |core.arrivals|
    modifies core, core.plugin
    ensures core.View() == Spec.Step(old(core.View()), Spec.ClientCancels(cancelKey))
    ensures core.nextMessage == |core.arrivals|
  {
    hide Spec.Cancel;
    Spec.CancelKeepsArrivals(core.View(), cancelKey);
    core.Cancel(cancelKey);
  }

  method DeliverReady(core: SessionCore)
    requires core.nextMessage == |core.arrivals| && !core.credentialsReady
    modifies core
    ensures core.View() == Spec.Step(old(core.View()), Spec.CredentialsSystemReady)
    ensures core.nextMessage == |core.arrivals|
  {
    core.CredentialsSystemReady();
  }

  method DeliverWakeUp(core: SessionCore, up: bool, policy: int)
    requires core.nextMessage == |core.arrivals| && core.wakeups > 0
    modifies core, core.plugin
    ensures core.View() == Spec.Step(old(core.View()), Spec.WakeUp(up, policy))
    ensures core.nextMessage == |core.arrivals|
  {
    hide Spec.StartNewRequest;
    Spec.WakeUpKeepsArrivals(core.View().(wakeups := core.wakeups - 1), up, policy);
    core.StartNewRequest(up, policy);
  }

  method DeliverResponse(core: SessionCore, r: Spec.Response, up: bool)
    requires core.nextMessage == |core.arrivals| && core.everProcessed
    modifies core, core.plugin
    ensures core.View() == Spec.Step(old(core.View()), Spec.PluginSays(r, up))
    ensures core.nextMessage == |core.arrivals|
  {
    hide Spec.HandlePluginResponse;
    Spec.ResponseKeepsArrivals(core.View(), r, up);
    core.plugin.HandlePluginResponse(core, r, up);
  }

  method DeliverUiAnswer(core: SessionCore)
    requires core.nextMessage == |core.arrivals| && core.watcher.Pending?
    modifies core
    ensures core.View() == Spec.Step(old(core.View()), Spec.UiAnswers)
    ensures core.nextMessage == |core.arrivals|
  {
    core.UiAnswers();
  }

  method DeliverUiResult(core: SessionCore, refresh: bool, up: bool)
    requires core.nextMessage == |core.arrivals| && core.watcher.Answered? && core.listOfRequests != []
    modifies core, core.plugin
    ensures core.View() == Spec.Step(old(core.View()), Spec.UiDelivered(refresh, up))
    ensures core.nextMessage == |core.arrivals|
  {
    core.QueryUiSlot(refresh, up);
  }

  /** Delivering an enabled event to the objects is one step of the transition system, so
      every theorem about its runs is about these fields. */
  method Deliver(core: SessionCore, e: Spec.Event)
    requires core.nextMessage == |core.arrivals| && Spec.Enabled(core.View(), e)
    modifies core, core.plugin
    ensures core.View() == Spec.Step(old(core.View()), e)
    ensures core.nextMessage == |core.arrivals|
    ensures old(Spec.Inv(core.View())) ==> Spec.Inv(core.View())
  {
    hide Spec.Inv, Spec.Step;
    if Spec.Inv(core.View()) {
      Spec.StepKeepsInv(core.View(), e);
    }
    match e
    case ClientCalls(k) => DeliverCall(core, k);
    case ClientCancels(k) => DeliverCancel(core, k);
    case CredentialsSystemReady => DeliverReady(core);
    case WakeUp(up, policy) => DeliverWakeUp(core, up, policy);
    case PluginSays(r, up) => DeliverResponse(core, r, up);
    case UiAnswers => DeliverUiAnswer(core);
    case UiDelivered(refresh, up) => DeliverUiResult(core, refresh, up);
  }
}
