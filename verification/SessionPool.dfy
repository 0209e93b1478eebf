/**
 The daemon's session cores together: each live core of the registry runs its own engine,
 and the collection of idle cores looks at the flags of those engines.
 */
module SessionPool {
  import opened Wrappers
  import E = SessionEngine
  import R = SessionRegistry

  // ---------------------------------------------------------------- Data model

  /** The collections, the engine of each live core, and whether the credentials system is ready. */
  datatype Pool = Pool(registry: R.State, engines: map<nat, E.State>, ready: bool)

  function Init(ready: bool): Pool {
    Pool(R.INITIAL, map[], ready)
  }

  datatype Event =
    | CoreEvent(core: nat, event: E.Event)
    | SystemReady
    | Open(id: nat, authMethod: string, pluginLoads: bool)
    | Assign(core: nat, id: nat)
    | Discard(core: nat)
    | Collect(idle: set<nat>)

  /** What destroyUnused would destroy: cores idle for too long and marked for destruction. */
  function Expired(p: Pool, idle: set<nat>): set<nat> {
    set c | c in p.engines && c in idle && p.engines[c].autoDestruct
  }

  /** The cores whose destroy() refuses. */
  function Busy(p: Pool): set<nat> {
    set c | c in p.engines && !E.CanDestroy(p.engines[c])
  }

  /** What happens to the collections. */
  function ToRegistry(p: Pool, e: Event): R.Event
    requires !e.CoreEvent? && !e.SystemReady?
  {
    match e
    case Open(id, authMethod, pluginLoads) => R.Open(id, authMethod, pluginLoads)
    case Assign(core, id) => R.Assign(core, id)
    case Discard(core) => R.Discard(core, core in Busy(p))
    case Collect(idle) => R.Collect(Expired(p, idle), Busy(p))
  }

  predicate Enabled(p: Pool, e: Event) {
    match e
    case CoreEvent(core, event) =>
      core in p.engines && !event.CredentialsSystemReady? && E.Enabled(p.engines[core], event)
    case SystemReady => !p.ready && forall c <- p.engines :: !p.engines[c].ready
    case _ => true
  }

  /** The engines of the cores that are live afterwards; a new core starts idle. */
  function Engines(p: Pool, registry: R.State): map<nat, E.State> {
    map c | c in registry.cores :: if c in p.engines then p.engines[c] else E.Init(p.ready)
  }

  function Step(p: Pool, e: Event): Pool
    requires Enabled(p, e)
  {
    match e
    case CoreEvent(core, event) => p.(engines := p.engines[core := E.Step(p.engines[core], event)])
    case SystemReady =>
      p.(ready := true, engines := map c | c in p.engines :: E.Step(p.engines[c], E.CredentialsSystemReady))
    case _ =>
      var registry := R.Step(p.registry, ToRegistry(p, e));
      p.(registry := registry, engines := Engines(p, registry))
  }

  function Exec(p: Pool, es: seq<Event>): Option<Pool> {
    if es == [] then Some(p)
    else
      match Exec(p, es[..|es| - 1])
      case None => None
      case Some(q) => if Enabled(q, es[|es| - 1]) then Some(Step(q, es[|es| - 1])) else None
  }

  // ------------------------------------------------------------------- Invariant

  /** The engine of a core is one that its own events lead to. */
  ghost predicate HasRun(s: E.State) {
    exists ready, es :: E.Reachable(s, ready, es)
  }

  ghost predicate HasPromptRun(s: E.State) {
    exists ready, es :: E.Reachable(s, ready, es) && E.PromptRun(E.Init(ready), es)
  }

  /** Each live core has an engine that its own events lead to. */
  ghost predicate Grounded(p: Pool) {
    && p.engines.Keys == p.registry.cores.Keys
    && forall c <- p.engines :: p.engines[c].ready == p.ready && HasRun(p.engines[c])
  }

  /** And the disposable list is the live cores. */
  ghost predicate Whole(p: Pool) {
    Grounded(p) && R.Listing(p.registry)
  }

  ghost predicate AllPrompt(p: Pool) {
    forall c <- p.engines :: HasPromptRun(p.engines[c])
  }

  /** A plugin does not finish a request under an answered dialog. */
  predicate Prompt(p: Pool, e: Event)
    requires Enabled(p, e)
  {
    e.CoreEvent? ==> E.Prompt(p.engines[e.core], e.event)
  }

  lemma InitHasPromptRun(ready: bool)
    ensures HasPromptRun(E.Init(ready)) && HasRun(E.Init(ready))
  {
    assert E.Reachable(E.Init(ready), ready, []) && E.PromptRun(E.Init(ready), []);
  }

  lemma StepHasRun(s: E.State, e: E.Event)
    requires HasRun(s) && E.Enabled(s, e)
    ensures HasRun(E.Step(s, e))
  {
    hide E.Enabled, E.Step, E.Reachable;
    var ready, es :| E.Reachable(s, ready, es);
    E.Reaches(s, ready, es, e, E.Step(s, e));
  }

  lemma StepHasPromptRun(s: E.State, e: E.Event)
    requires HasPromptRun(s) && E.Enabled(s, e) && E.Prompt(s, e)
    ensures HasPromptRun(E.Step(s, e))
  {
    var ready, es :| E.Reachable(s, ready, es) && E.PromptRun(E.Init(ready), es);
    E.Reaches(s, ready, es, e, E.Step(s, e));
    assert E.PromptRun(E.Init(ready), es + [e]) by {
      hide E.Enabled, E.Step, E.Prompt;
      assert (es + [e])[..|es|] == es;
    }
    hide E.Enabled, E.Step, E.Reachable, E.PromptRun;
  }

  lemma ReadyStays(s: E.State, e: E.Event)
    requires E.Enabled(s, e) && !e.CredentialsSystemReady?
    ensures E.Step(s, e).ready == s.ready
  {
    hide E.Process, E.Cancel, E.StartNewRequest, E.HandlePluginResponse;
    match e
    case ClientCalls(k) => CallKeepsReady(s, k);
    case ClientCancels(k) => CancelKeepsReady(s, k);
    case WakeUp(up, policy) => WakeUpKeepsReady(s.(wakeups := s.wakeups - 1), up, policy);
    case PluginSays(r, up) => ResponseKeepsReady(s, r, up);
    case UiAnswers =>
    case UiDelivered(_, _) =>
  }

  lemma CallKeepsReady(s: E.State, cancelKey: string)
    ensures E.Process(s, cancelKey).ready == s.ready
  {
  }

  lemma CancelKeepsReady(s: E.State, cancelKey: string)
    ensures E.Cancel(s, cancelKey).ready == s.ready
  {
    hide E.IndexOf;
  }

  lemma WakeUpKeepsReady(s: E.State, up: bool, policy: int)
    ensures E.StartNewRequest(s, up, policy).ready == s.ready
  {
  }

  lemma ResponseKeepsReady(s: E.State, r: E.Response, up: bool)
    ensures E.HandlePluginResponse(s, r, up).ready == s.ready
  {
    TerminalKeepsReady(s.(processing := false));
    hide E.ProcessResultReply, E.ProcessError, E.UiAllowed;
  }

  lemma TerminalKeepsReady(s: E.State)
    ensures E.ProcessResultReply(s).ready == s.ready && E.ProcessError(s).ready == s.ready
  {
  }

  // -------------------------------------------------------------- Core events

  lemma CoreEventKeepsGround(p: Pool, core: nat, event: E.Event)
    requires Grounded(p) && Enabled(p, CoreEvent(core, event))
    ensures Grounded(Step(p, CoreEvent(core, event)))
  {
    hide R.Listing, HasRun, E.Step, E.Enabled;
    StepHasRun(p.engines[core], event);
    ReadyStays(p.engines[core], event);
    var q := Step(p, CoreEvent(core, event));
    assert q.engines.Keys == p.engines.Keys;
  }

  lemma SystemReadyKeepsGround(p: Pool)
    requires Grounded(p) && Enabled(p, SystemReady)
    ensures Grounded(Step(p, SystemReady))
  {
    hide R.Listing, HasRun;
    var q := Step(p, SystemReady);
    assert q.engines.Keys == p.engines.Keys;
    forall c <- p.engines
      ensures HasRun(q.engines[c])
    {
      StepHasRun(p.engines[c], E.CredentialsSystemReady);
    }
  }

  lemma StepKeepsGround(p: Pool, e: Event)
    requires Grounded(p) && Enabled(p, e)
    ensures Grounded(Step(p, e))
  {
    match e
    case CoreEvent(core, event) => CoreEventKeepsGround(p, core, event);
    case SystemReady => SystemReadyKeepsGround(p);
    case _ =>
      InitHasPromptRun(p.ready);
      hide R.Step, ToRegistry, HasRun;
      assert Step(p, e).engines.Keys == Step(p, e).registry.cores.Keys;
  }

  lemma RegistryKeepsWhole(p: Pool, e: Event)
    requires Whole(p) && !e.CoreEvent? && !e.SystemReady?
    ensures Whole(Step(p, e)) <==> R.BusyIsKept(p.registry, ToRegistry(p, e))
  {
    R.StepKeepsListingExactly(p.registry, ToRegistry(p, e));
    StepKeepsGround(p, e);
    hide Grounded, R.Listing, R.Step, R.BusyIsKept, ToRegistry;
  }

  /** Cores do not disturb each other: an engine moves only by its own events, and all of them when
      the credentials system becomes ready; while others are created, assigned and destroyed, it
      stays as it is, and a new one starts idle. */
  lemma {:induction false} EnginesMoveExactly(p: Pool, e: Event, core: nat)
    requires Grounded(p) && Enabled(p, e) && core in Step(p, e).engines
    ensures var engine := Step(p, e).engines[core];
      if core !in p.engines then engine == E.Init(p.ready)
      else if e.CoreEvent? && e.core == core then engine == E.Step(p.engines[core], e.event)
      else if e.SystemReady? then engine == p.engines[core].(ready := true, wakeups := p.engines[core].wakeups + 1)
      else engine == p.engines[core]
  {
    hide R.Step, E.Init, HasRun;
  }

  // --------------------------------------------------- Collecting idle cores

  /** A core marked for destruction refuses exactly when it holds an overtaken answer. */
  lemma MarkedRefusesExactly(s: E.State)
    requires HasRun(s) && s.autoDestruct
    ensures E.CanDestroy(s) <==> E.WatcherOwned(s)
  {
    hide E.Inv, E.WatcherOwned, E.CanDestroy;
    var ready, es :| E.Reachable(s, ready, es);
    E.ReachableInv(s, ready, es);
    E.OwnedMeans(s);
  }

  lemma MarkedPromptMayBeDestroyed(s: E.State)
    requires HasPromptRun(s) && s.autoDestruct
    ensures E.CanDestroy(s)
  {
    hide E.CanDestroy, E.Exec;
    var ready, es :| E.Reachable(s, ready, es) && E.PromptRun(E.Init(ready), es);
    E.PromptRunsAreSafe(s, ready, es);
  }

  /** A collection keeps the disposable list equal to the live cores exactly when no core that it
      would destroy holds an overtaken answer; no other event ever breaks it. */
  lemma {:induction false} StepKeepsWholeExactly(p: Pool, e: Event)
    requires Whole(p) && Enabled(p, e)
    ensures Whole(Step(p, e)) <==>
      (e.Collect? ==> forall c <- Expired(p, e.idle) :: E.WatcherOwned(p.engines[c]))
  {
    hide Grounded, R.Listing, E.WatcherOwned, Expired;
    match e
    case CoreEvent(_, _) => StepKeepsGround(p, e);
    case SystemReady => StepKeepsGround(p, e);
    case Collect(idle) =>
      RegistryKeepsWhole(p, e);
      CollectIsKept(p, idle);
    case _ => RegistryKeepsWhole(p, e);
  }

  lemma CollectIsKept(p: Pool, idle: set<nat>)
    requires Whole(p)
    ensures R.BusyIsKept(p.registry, ToRegistry(p, Collect(idle)))
       <==> forall c <- Expired(p, idle) :: E.WatcherOwned(p.engines[c])
  {
    hide R.Listing, HasRun, E.CanDestroy, E.WatcherOwned;
    forall c <- Expired(p, idle)
      ensures c in Busy(p) <==> !E.WatcherOwned(p.engines[c])
    {
      MarkedRefusesExactly(p.engines[c]);
    }
  }

  lemma StepKeepsPrompt(p: Pool, e: Event)
    requires AllPrompt(p) && Enabled(p, e) && Prompt(p, e)
    ensures AllPrompt(Step(p, e))
  {
    hide HasPromptRun, R.Step;
    InitHasPromptRun(p.ready);
    match e
    case CoreEvent(core, event) => StepHasPromptRun(p.engines[core], event);
    case SystemReady =>
      forall c <- p.engines
        ensures HasPromptRun(E.Step(p.engines[c], E.CredentialsSystemReady))
      {
        StepHasPromptRun(p.engines[c], E.CredentialsSystemReady);
      }
    case _ =>
  }

  /** In a pool whose plugins are prompt, every expired core can be destroyed. */
  lemma NothingExpiredIsBusy(p: Pool, idle: set<nat>)
    requires AllPrompt(p)
    ensures Expired(p, idle) !! Busy(p)
    ensures R.BusyIsKept(p.registry, ToRegistry(p, Collect(idle)))
  {
    hide HasPromptRun, E.CanDestroy;
    forall c <- Expired(p, idle)
      ensures c !in Busy(p)
    {
      MarkedPromptMayBeDestroyed(p.engines[c]);
    }
  }

  // ------------------------------------------------------------------------- Runs

  ghost predicate PromptRun(p: Pool, es: seq<Event>) {
    es == []
    || (PromptRun(p, es[..|es| - 1])
        && match Exec(p, es[..|es| - 1])
           case None => true
           case Some(q) => Enabled(q, es[|es| - 1]) ==> Prompt(q, es[|es| - 1]))
  }

  /** In every run of the daemon in which plugins are prompt: the disposable list is exactly the
      live cores, each of which runs an engine that its own events lead to; and whatever is idle,
      destroyUnused meets no refusal and destroys exactly the cores marked for destruction. */
  lemma {:induction false} CollectionsAreNeverRefused(ready: bool, es: seq<Event>, p: Pool, idle: set<nat>)
    requires Exec(Init(ready), es) == Some(p) && PromptRun(Init(ready), es)
    ensures Whole(p) && AllPrompt(p)
    ensures Expired(p, idle) !! Busy(p)
    ensures var q := Step(p, Collect(idle)); q.engines.Keys == p.engines.Keys - Expired(p, idle)
    decreases |es|
  {
    if es != [] {
      var n := |es| - 1;
      var u := Exec(Init(ready), es[..n]).value;
      CollectionsAreNeverRefused(ready, es[..n], u, {});
      StepKeepsPrompt(u, es[n]);
      PromptKeepsWhole(u, es[n]);
    }
    hide Whole, Enabled, E.CanDestroy, Exec, PromptRun, HasPromptRun;
    NothingExpiredIsBusy(p, idle);
    CollectedExactly(p, idle);
  }

  lemma PromptKeepsWhole(p: Pool, e: Event)
    requires Whole(p) && AllPrompt(p) && Enabled(p, e)
    ensures Whole(Step(p, e))
  {
    hide Grounded, R.Listing, AllPrompt;
    match e
    case CoreEvent(_, _) => StepKeepsGround(p, e);
    case SystemReady => StepKeepsGround(p, e);
    case Collect(idle) =>
      NothingExpiredIsBusy(p, idle);
      RegistryKeepsWhole(p, e);
    case _ => RegistryKeepsWhole(p, e);
  }

  lemma CollectedExactly(p: Pool, idle: set<nat>)
    requires Whole(p) && Expired(p, idle) !! Busy(p)
    ensures Step(p, Collect(idle)).engines.Keys == p.engines.Keys - Expired(p, idle)
  {
    hide HasRun, R.DestroyUnused, E.CanDestroy;
    R.DestroyUnusedExactly(p.registry, Expired(p, idle), Busy(p));
    var q := Step(p, Collect(idle));
    assert forall c :: c in q.engines <==> c in p.engines && c !in Expired(p, idle);
  }

  lemma {:induction false} EveryRunIsGrounded(ready: bool, es: seq<Event>, p: Pool)
    requires Exec(Init(ready), es) == Some(p)
    ensures Grounded(p)
    decreases |es|
  {
    if es != [] {
      var u := Exec(Init(ready), es[..|es| - 1]).value;
      EveryRunIsGrounded(ready, es[..|es| - 1], u);
      StepKeepsGround(u, es[|es| - 1]);
    }
  }

  /** So what was proved of one engine holds of every live core in every run of the daemon: each
      of its calls that left the queue was answered, exactly once if and only if it was cancelled
      cleanly; and work that could start has an event that will start it. */
  lemma {:induction false} EveryCoreAnswers(ready: bool, es: seq<Event>, p: Pool, core: nat, m: nat)
    requires Exec(Init(ready), es) == Some(p) && core in p.engines
    ensures var s := p.engines[core];
      && (E.Departed(s, m) ==> E.Replies(s, m) >= 1 && (E.Replies(s, m) == 1 <==> E.CanceledCleanly(s, m)))
      && (p.ready && !s.active && s.queue != [] ==> s.wakeups > 0)
  {
    EveryRunIsGrounded(ready, es, p);
    hide Exec, Step, E.Departed, E.Replies, E.CanceledCleanly, E.Reachable;
    var s := p.engines[core];
    var ready', fs :| E.Reachable(s, ready', fs);
    if E.Departed(s, m) {
      E.EveryDepartureIsAnswered(s, ready', fs, m);
    }
    if p.ready && !s.active && s.queue != [] {
      E.NoLostWakeUp(s, ready', fs);
    }
  }
}
