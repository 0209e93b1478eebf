/**
 The client proxy as an object.  Calls are handles; the loops that dispatch or fail the
 waiting calls run over a copy of the queue, as the source's do.
 */
module AsyncDBusProxy {
  import Spec = CallQueue

  class Proxy {
    var status: Spec.Status
    var hasConnection: bool
    var hasPath: bool
    var hasInterface: bool
    var operationsQueue: seq<nat>
    // Per call: in flight with interfaceWasDestroyed, failure posted, finished, has a watcher.
    var inFlight: map<nat, bool>
    var failing: set<nat>
    var finished: set<nat>
    var started: set<nat>
    var next: nat
    ghost var sent: seq<nat>
    ghost var firsts: seq<nat>
    ghost var notified: multiset<nat>

    ghost function View(): Spec.State
      reads this
    {
      Spec.State(status, hasConnection, hasPath, hasInterface, operationsQueue, inFlight, failing, finished,
                 started, next, sent, firsts, notified)
    }

    constructor ()
      ensures View() == Spec.INITIAL
    {
      status, hasConnection, hasPath, hasInterface := Spec.Incomplete, false, false, false;
      operationsQueue, inFlight, failing, finished, started, next := [], map[], {}, {}, {}, 0;
      sent, firsts, notified := [], [], multiset{};
    }

    method DoCall(c: nat)
      modifies this
      ensures View() == Spec.DoCall(old(View()), c)
    {
      inFlight := inFlight[c := false];
      if c !in started {
        firsts := firsts + [c];
      }
      started := started + {c};
      sent := sent + [c];
    }

    /** onCallFinished: leaves the queue, is deleted later. */
    method FinishCall(c: nat)
      modifies this
      ensures View() == Spec.Finish(old(View()), c)
    {
      notified := notified + multiset{c};
      operationsQueue := Spec.RemoveOne(operationsQueue, c);
      inFlight := inFlight - {c};
      finished := finished + {c};
    }

    method ExecuteAll()
      modifies this
      ensures View() == Spec.DoCalls(old(View()), old(operationsQueue)).(queue := [])
    {
      ghost var before := View();
      var calls := operationsQueue;
      for i := 0 to |calls|
        invariant View() == Spec.DoCalls(before, calls[..i])
      {
        assert calls[..i + 1][..i] == calls[..i];
        DoCall(calls[i]);
      }
      assert calls[..|calls|] == calls;
      operationsQueue := [];
    }

    method FailAll()
      modifies this
      ensures View() == Spec.FinishAll(old(View()), old(operationsQueue)).(queue := [])
    {
      ghost var before := View();
      var calls := operationsQueue;
      for i := 0 to |calls|
        invariant View() == Spec.FinishAll(before, calls[..i])
      {
        assert calls[..i + 1][..i] == calls[..i];
        FinishCall(calls[i]);
      }
      assert calls[..|calls|] == calls;
      operationsQueue := [];
    }

    method SetStatus(newStatus: Spec.Status)
      modifies this
      ensures View() == Spec.SetStatus(old(View()), newStatus)
    {
      hide Spec.DoCalls, Spec.FinishAll;
      status := newStatus;
      if newStatus == Spec.Ready {
        ExecuteAll();
      } else if newStatus == Spec.Invalid {
        FailAll();
      }
    }

    /** The destroyed signal reaches every call in flight. */
    method DestroyInterface()
      modifies this
      ensures View() == Spec.DropInterface(old(View()))
    {
      if hasInterface {
        hasInterface := false;
        inFlight := map c | c in inFlight :: true;
      }
    }

    method Update(connected: bool)
      modifies this
      ensures View() == Spec.Update(old(View()), connected)
    {
      hide Spec.SetStatus, Spec.DropInterface;
      DestroyInterface();
      if !hasConnection || !hasPath {
        SetStatus(Spec.Incomplete);
        return;
      }
      if !connected {
        SetStatus(Spec.Invalid);
        return;
      }
      hasInterface := true;
      SetStatus(Spec.Ready);
    }

    method QueueCall() returns (c: nat)
      modifies this
      ensures c == old(next) && View() == Spec.QueueCall(old(View()))
    {
      c := next;
      next := next + 1;
      if status == Spec.Ready {
        DoCall(c);
      } else if status == Spec.Incomplete {
        operationsQueue := operationsQueue + [c];
      } else {
        failing := failing + {c};
      }
    }

    method CancelCall(c: nat) returns (ok: bool)
      modifies this
      ensures (View(), ok) == Spec.Cancel(old(View()), c)
    {
      if c in started {
        return false;
      }
      FinishCall(c);
      return true;
    }

    method OnFinished(c: nat, outcome: Spec.Outcome)
      requires c in inFlight
      modifies this
      ensures View() == Spec.OnFinished(old(View()), c, outcome)
    {
      if inFlight[c] && outcome.Error? {
        if outcome.gone {
          inFlight := inFlight - {c};
          operationsQueue := operationsQueue + [c];
          return;
        }
      }
      FinishCall(c);
    }

    method PostedFail(c: nat)
      requires c in failing
      modifies this
      ensures View() == Spec.Fail(old(View()), c)
    {
      failing := failing - {c};
      FinishCall(c);
    }

    method SetConnection(connected: bool)
      modifies this
      ensures View() == Spec.Step(old(View()), Spec.SetConnection(connected))
    {
      hide Spec.Update;
      hasConnection := true;
      Update(connected);
    }

    method SetDisconnected()
      modifies this
      ensures View() == Spec.Step(old(View()), Spec.SetDisconnected)
    {
      hide Spec.Update;
      hasConnection := false;
      hasPath := false;
      Update(false);
    }

    method SetObjectPath(isEmpty: bool, connected: bool)
      requires !hasPath || isEmpty
      modifies this
      ensures View() == Spec.Step(old(View()), Spec.SetObjectPath(isEmpty, connected))
    {
      hide Spec.Update;
      hasPath := !isEmpty;
      Update(connected);
    }

    method SetError()
      modifies this
      ensures View() == Spec.Step(old(View()), Spec.SetError)
    {
      hide Spec.SetStatus;
      SetStatus(Spec.Invalid);
    }
  }

  /** Delivering an event that can happen to the proxy is one step of the queue and keeps its
      invariant, so the theorems about runs are about these fields. */
  method Deliver(proxy: Proxy, e: Spec.Event)
    requires Spec.Enabled(proxy.View(), e)
    modifies proxy
    ensures proxy.View() == Spec.Step(old(proxy.View()), e)
    ensures old(Spec.Inv(proxy.View())) ==> Spec.Inv(proxy.View())
  {
    hide Spec.Inv, Spec.Update, Spec.SetStatus, Spec.QueueCall, Spec.Cancel, Spec.OnFinished, Spec.Fail;
    if Spec.Inv(proxy.View()) {
      Spec.StepKeepsInv(proxy.View(), e);
    }
    match e
    case Queue => var _ := proxy.QueueCall();
    case CancelCall(c) => var _ := proxy.CancelCall(c);
    case CallEnds(c, outcome) => proxy.OnFinished(c, outcome);
    case PostedFailure(c) => proxy.PostedFail(c);
    case SetConnection(connected) => proxy.SetConnection(connected);
    case SetDisconnected => proxy.SetDisconnected();
    case SetObjectPath(empty, connected) => proxy.SetObjectPath(empty, connected);
    case SetError => proxy.SetError();
  }
}
