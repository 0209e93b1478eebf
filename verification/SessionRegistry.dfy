/**
 The global collections that own session cores: the map of cores of stored
 identities, the list of cores without identity, and the list of disposable objects.
 Cores are handles; 0 is the null pointer.
 */
module SessionRegistry {
  import opened Wrappers

  // --------------------------------------------------------------- Session names

  function Digit(d: nat): char
    requires d < 10
  {
    "0123456789"[d]
  }

  function Decimal(n: nat): string {
    if n < 10 then [Digit(n)] else Decimal(n / 10) + [Digit(n % 10)]
  }

  function SessionName(id: nat, authMethod: string): string {
    Decimal(id) + "+" + authMethod
  }

  lemma {:induction false} DecimalHasNoPlus(n: nat)
    ensures |Decimal(n)| > 0 && '+' !in Decimal(n)
  {
    if n >= 10 {
      DecimalHasNoPlus(n / 10);
    }
  }

  lemma LastDigit(n: nat)
    ensures var a := Decimal(n);
      && a[|a| - 1] == Digit(n % 10)
      && if n < 10 then |a| == 1 else a[..|a| - 1] == Decimal(n / 10)
  {
  }

  lemma DigitInjective(c: nat, d: nat)
    requires c < 10 && d < 10 && Digit(c) == Digit(d)
    ensures c == d
  {
  }

  lemma {:induction false} DecimalInjective(m: nat, n: nat)
    requires Decimal(m) == Decimal(n)
    ensures m == n
  {
    DecimalHasNoPlus(m / 10);
    DecimalHasNoPlus(n / 10);
    LastDigit(m);
    LastDigit(n);
    DigitInjective(m % 10, n % 10);
    hide Decimal, Digit;
    if m >= 10 && n >= 10 {
      DecimalInjective(m / 10, n / 10);
    }
  }

  lemma FirstPlus(id: nat, authMethod: string)
    ensures var s := SessionName(id, authMethod);
            && s[|Decimal(id)|] == '+'
            && forall i :: 0 <= i < |Decimal(id)| ==> s[i] != '+'
  {
    DecimalHasNoPlus(id);
    assert forall i :: 0 <= i < |Decimal(id)| ==> SessionName(id, authMethod)[i] == Decimal(id)[i];
  }

  /** Two sessions with the same name have the same identity and method. */
  lemma SessionNameInjective(id: nat, authMethod: string, id': nat, authMethod': string)
    requires SessionName(id, authMethod) == SessionName(id', authMethod')
    ensures id == id' && authMethod == authMethod'
  {
    var d, d' := Decimal(id), Decimal(id');
    var s := SessionName(id, authMethod);
    DecimalHasNoPlus(id);
    DecimalHasNoPlus(id');
    FirstPlus(id, authMethod);
    FirstPlus(id', authMethod');
    assert s[..|d|] == d && s[..|d'|] == d';
    assert s[|d| + 1..] == authMethod && s[|d'| + 1..] == authMethod';
    DecimalInjective(id, id');
  }

  // ------------------------------------------------------- Operations, on values

  datatype Core = Core(id: nat, authMethod: string)

  datatype State = State(
    stored: map<string, nat>,
    nonStored: seq<nat>,
    disposable: seq<nat>,
    cores: map<nat, Core>,
    next: nat)

  const INITIAL := State(map[], [], [], map[], 1)

  /** QList::removeOne: the first occurrence goes. */
  function RemoveOne(xs: seq<nat>, x: nat): seq<nat> {
    if xs == [] then []
    else if xs[0] == x then xs[1..]
    else [xs[0]] + RemoveOne(xs[1..], x)
  }

  /** QMap::take: the value, or a null pointer when the key is absent. */
  function TakeValue(m: map<string, nat>, k: string): nat {
    if k in m then m[k] else 0
  }

  function SessionCore(s: State, id: nat, authMethod: string, pluginLoads: bool): (r: (State, Option<nat>)) {
    var key := SessionName(id, authMethod);
    if id != 0 && key in s.stored then (s, Some(s.stored[key]))
    else if !pluginLoads then (s.(next := s.next + 1), None)
    else
      var t := s.(next := s.next + 1,
                  cores := s.cores[s.next := Core(id, authMethod)],
                  disposable := s.disposable + [s.next]);
      ((if id != 0 then t.(stored := t.stored[key := s.next])
        else t.(nonStored := t.nonStored + [s.next])), Some(s.next))
  }

  function SetId(s: State, c: nat, id: nat): State
    requires c in s.cores
  {
    var core := s.cores[c];
    if core.id == id then s
    else if id == 0 then
      var key := SessionName(core.id, core.authMethod);
      s.(nonStored := s.nonStored + [TakeValue(s.stored, key)],
         stored := s.stored - {key},
         cores := s.cores[c := core.(id := 0)])
    else
      var key := SessionName(id, core.authMethod);
      if key in s.stored then s
      else s.(nonStored := RemoveOne(s.nonStored, c),
              stored := s.stored[key := c],
              cores := s.cores[c := core.(id := id)])
  }

  /** `busy`: a request is active or a watcher exists. */
  function Destroy(s: State, c: nat, busy: bool): State
    requires c in s.cores
  {
    if busy then s
    else
      var core := s.cores[c];
      var t := s.(cores := s.cores - {c}, disposable := RemoveOne(s.disposable, c));
      if core.id != 0 then t.(stored := t.stored - {SessionName(core.id, core.authMethod)})
      else t.(nonStored := RemoveOne(t.nonStored, c))
  }

  /** One pass over a snapshot of the disposable objects. */
  function DestroyUnused(s: State, todo: seq<nat>, expired: set<nat>, busy: set<nat>): State
    decreases |todo|
  {
    if todo == [] then s
    else
      var c := todo[0];
      var t := if c in expired && c in s.cores
               then var u := Destroy(s, c, c in busy); u.(disposable := RemoveOne(u.disposable, c))
               else s;
      DestroyUnused(t, todo[1..], expired, busy)
  }

  // -------------------------------------------------------------------- Invariant

  predicate NoDuplicates(xs: seq<nat>) {
    forall i, j :: 0 <= i < j < |xs| ==> xs[i] != xs[j]
  }

  /** Every live core is in exactly one collection, under its own name if stored; nothing
      else is in either. */
  ghost predicate Inv(s: State) {
    && (forall c :: c in s.cores ==> 0 < c < s.next)
    && (forall c :: c in s.cores && s.cores[c].id != 0 ==>
          SessionName(s.cores[c].id, s.cores[c].authMethod) in s.stored
          && s.stored[SessionName(s.cores[c].id, s.cores[c].authMethod)] == c)
    && (forall k :: k in s.stored ==>
          s.stored[k] in s.cores && s.cores[s.stored[k]].id != 0
          && k == SessionName(s.cores[s.stored[k]].id, s.cores[s.stored[k]].authMethod))
    && NoDuplicates(s.nonStored)
    && (forall c :: c in s.nonStored <==> c in s.cores && s.cores[c].id == 0)
  }

  lemma {:induction false} RemoveOneRemoves(xs: seq<nat>, x: nat)
    requires NoDuplicates(xs)
    ensures NoDuplicates(RemoveOne(xs, x))
    ensures forall y :: y in RemoveOne(xs, x) <==> y in xs && y != x
  {
    if xs != [] {
      assert forall y :: y in xs <==> y == xs[0] || y in xs[1..];
      if xs[0] != x {
        RemoveOneRemoves(xs[1..], x);
        assert xs[0] !in xs[1..];
      } else {
        assert x !in xs[1..];
      }
    }
  }

  /** The core handed out is the one for the requested pair, and for a stored identity no
      second core is ever created for a pair that has one. */
  lemma SessionCoreIsTheOne(s: State, id: nat, authMethod: string, pluginLoads: bool)
    requires Inv(s) && s.next > 0
    ensures var (t, r) := SessionCore(s, id, authMethod, pluginLoads);
            && Inv(t)
            && (r.Some? ==> r.value in t.cores && t.cores[r.value] == Core(id, authMethod))
            && (id != 0 && (exists c :: c in s.cores && s.cores[c] == Core(id, authMethod)) ==>
                  t == s && r.Some? && s.cores[r.value] == Core(id, authMethod))
            && (r.None? ==> !pluginLoads)
  {
    var key := SessionName(id, authMethod);
    if id != 0 && key in s.stored {
      var c := s.cores[s.stored[key]];
      SessionNameInjective(id, authMethod, c.id, c.authMethod);
    } else if pluginLoads {
      var t := SessionCore(s, id, authMethod, pluginLoads).0;
      assert s.next !in s.cores;
      assert forall c :: c in t.nonStored <==> c in s.nonStored || (id == 0 && c == s.next);
    }
  }

  /** At most one live core per stored identity and method. */
  lemma OneCorePerSession(s: State, c: nat, d: nat)
    requires Inv(s) && c in s.cores && d in s.cores && s.cores[c] == s.cores[d] && s.cores[c].id != 0
    ensures c == d
  {
  }

  /** setId to or from 0, to the same identity, or to a taken one keeps the registry whole. */
  predicate SafeSetId(s: State, c: nat, id: nat)
    requires c in s.cores
  {
    s.cores[c].id == 0 || id == 0 || s.cores[c].id == id || SessionName(id, s.cores[c].authMethod) in s.stored
  }

  lemma SetIdFromZeroKeepsInv(s: State, c: nat, id: nat)
    requires Inv(s) && c in s.cores && s.cores[c].id == 0 && id != 0
    ensures Inv(SetId(s, c, id))
  {
    var key := SessionName(id, s.cores[c].authMethod);
    if key !in s.stored {
      RemoveOneRemoves(s.nonStored, c);
    }
  }

  lemma SetIdToZeroKeepsInv(s: State, c: nat)
    requires Inv(s) && c in s.cores && s.cores[c].id != 0
    ensures Inv(SetId(s, c, 0))
  {
    var core := s.cores[c];
    var t := SetId(s, c, 0);
    assert t.nonStored == s.nonStored + [c];
    assert c !in s.nonStored;
    forall d | d in t.cores && t.cores[d].id != 0
      ensures SessionName(t.cores[d].id, t.cores[d].authMethod) != SessionName(core.id, core.authMethod)
    {
      if SessionName(t.cores[d].id, t.cores[d].authMethod) == SessionName(core.id, core.authMethod) {
        SessionNameInjective(t.cores[d].id, t.cores[d].authMethod, core.id, core.authMethod);
        OneCorePerSession(s, c, d);
      }
    }
  }

  /** setId keeps the registry whole exactly when it is safe: a move from one stored
      identity to another leaves the old key behind. */
  lemma SetIdKeepsInvExactly(s: State, c: nat, id: nat)
    requires Inv(s) && c in s.cores
    ensures Inv(SetId(s, c, id)) <==> SafeSetId(s, c, id)
  {
    var core := s.cores[c];
    if core.id != id && core.id == 0 {
      SetIdFromZeroKeepsInv(s, c, id);
    } else if core.id != id && id == 0 {
      SetIdToZeroKeepsInv(s, c);
    } else if !SafeSetId(s, c, id) {
      var t := SetId(s, c, id);
      var oldKey := SessionName(core.id, core.authMethod);
      assert oldKey in t.stored && t.stored[oldKey] == c && t.cores[c].id == id;
      if oldKey == SessionName(id, core.authMethod) {
        SessionNameInjective(core.id, core.authMethod, id, core.authMethod);
      }
    }
  }

  /** Some live core is for this identity and method. */
  ghost predicate HasCore(cores: map<nat, Core>, core: Core) {
    exists c :: c in cores && cores[c] == core
  }

  lemma NameOfCore(s: State, core: Core)
    requires Inv(s) && core.id != 0
    ensures SessionName(core.id, core.authMethod) in s.stored <==> HasCore(s.cores, core)
    ensures HasCore(s.cores, core) ==> s.cores[s.stored[SessionName(core.id, core.authMethod)]] == core
  {
    var key := SessionName(core.id, core.authMethod);
    if key in s.stored {
      var d := s.cores[s.stored[key]];
      SessionNameInjective(core.id, core.authMethod, d.id, d.authMethod);
    }
    hide SessionName;
  }

  /** What setId leaves behind: nothing changes when the identity has a core for the method; else
      this core is for the identity, with its method, and every other core and its place are
      as before. */
  lemma SetIdMovesExactly(s: State, c: nat, id: nat)
    requires Inv(s) && c in s.cores
    ensures var t, moved := SetId(s, c, id), s.cores[c].(id := id);
      if id != 0 && HasCore(s.cores, moved) then t == s
      else
        && t.cores == s.cores[c := moved] && t.next == s.next && t.disposable == s.disposable
        && (forall k :: k in s.stored && s.stored[k] != c ==> k in t.stored && t.stored[k] == s.stored[k])
        && (forall d :: d != c ==> (d in t.nonStored <==> d in s.nonStored))
  {
    var core := s.cores[c];
    if id != 0 {
      NameOfCore(s, core.(id := id));
    }
    if core.id != 0 {
      NameOfCore(s, core);
      OwnKey(s, c);
    }
    RemoveOneRemoves(s.nonStored, c);
    hide SessionName, RemoveOne;
  }

  lemma OwnKey(s: State, c: nat)
    requires Inv(s) && c in s.cores && s.cores[c].id != 0
    ensures var key := SessionName(s.cores[c].id, s.cores[c].authMethod);
      key in s.stored && s.stored[key] == c && forall k :: k in s.stored && s.stored[k] == c ==> k == key
  {
    hide SessionName;
  }

  /** And where the core is found afterwards, if the move is safe: under its new identity, or, with
      none, on the list, its old name being free. */
  lemma SetIdIsFound(s: State, c: nat, id: nat, pluginLoads: bool)
    requires Inv(s) && c in s.cores && SafeSetId(s, c, id)
    requires id != 0 ==> !HasCore(s.cores, s.cores[c].(id := id))
    ensures var t, core := SetId(s, c, id), s.cores[c];
      && (id != 0 ==> SessionCore(t, id, core.authMethod, pluginLoads) == (t, Some(c)))
      && (id == 0 ==> c in t.nonStored && SessionName(core.id, core.authMethod) !in t.stored)
  {
    var t, core := SetId(s, c, id), s.cores[c];
    SetIdMovesExactly(s, c, id);
    SetIdKeepsInvExactly(s, c, id);
    if id != 0 {
      NameOfCore(t, core.(id := id));
      OneCorePerSession(t, c, t.stored[SessionName(id, core.authMethod)]);
    } else if core.id == 0 {
      NoZeroName(s, core.authMethod);
    }
    hide SessionName, RemoveOne;
  }

  lemma NoZeroName(s: State, authMethod: string)
    requires Inv(s)
    ensures SessionName(0, authMethod) !in s.stored
  {
    var key := SessionName(0, authMethod);
    if key in s.stored {
      var d := s.cores[s.stored[key]];
      SessionNameInjective(0, authMethod, d.id, d.authMethod);
    }
    hide SessionName;
  }

  lemma DestroyKeepsInv(s: State, c: nat, busy: bool)
    requires Inv(s) && c in s.cores
    ensures Inv(Destroy(s, c, busy))
  {
    if !busy {
      var core := s.cores[c];
      RemoveOneRemoves(s.nonStored, c);
      forall d | d in s.cores && d != c && s.cores[d].id != 0
        ensures SessionName(s.cores[d].id, s.cores[d].authMethod) != SessionName(core.id, core.authMethod)
      {
        if SessionName(s.cores[d].id, s.cores[d].authMethod) == SessionName(core.id, core.authMethod) {
          SessionNameInjective(s.cores[d].id, s.cores[d].authMethod, core.id, core.authMethod);
        }
      }
    }
  }

  /** The consequence of an unsafe move: once the core is destroyed, its first key still
      leads to it. */
  lemma UnsafeSetIdDangles(s: State, c: nat, id: nat)
    requires Inv(s) && c in s.cores && !SafeSetId(s, c, id)
    ensures var t := Destroy(SetId(s, c, id), c, false);
            var (u, r) := SessionCore(t, s.cores[c].id, s.cores[c].authMethod, true);
            r == Some(c) && c !in u.cores
  {
    var core := s.cores[c];
    if SessionName(core.id, core.authMethod) == SessionName(id, core.authMethod) {
      SessionNameInjective(core.id, core.authMethod, id, core.authMethod);
    }
  }

  // ------------------------------------------------------------- Disposable objects

  /** Every live core is on the disposable list, so that it will be collected one day. */
  ghost predicate Collectable(s: State) {
    NoDuplicates(s.disposable) && forall c :: c in s.cores ==> c in s.disposable
  }

  lemma {:induction false} DestroyUnusedRemoves(s: State, todo: seq<nat>, expired: set<nat>, busy: set<nat>)
    requires NoDuplicates(s.disposable) && NoDuplicates(todo)
    ensures var t := DestroyUnused(s, todo, expired, busy);
            && NoDuplicates(t.disposable)
            && (forall c :: c in t.cores <==> c in s.cores && !(c in todo && c in expired && c !in busy))
            && (forall c :: c in t.disposable <==> c in s.disposable && !(c in todo && c in expired && c in s.cores))
    decreases |todo|
  {
    if todo != [] {
      var c := todo[0];
      assert forall d :: d in todo <==> d == c || d in todo[1..];
      assert c !in todo[1..];
      if c in expired && c in s.cores {
        var u := Destroy(s, c, c in busy);
        RemoveOneRemoves(s.disposable, c);
        RemoveOneRemoves(u.disposable, c);
        DestroyUnusedRemoves(u.(disposable := RemoveOne(u.disposable, c)), todo[1..], expired, busy);
      } else {
        DestroyUnusedRemoves(s, todo[1..], expired, busy);
      }
    }
  }

  /** destroyUnused destroys exactly the expired idle cores, and every survivor stays
      collectable exactly when no expired core was busy. */
  lemma DestroyUnusedExactly(s: State, expired: set<nat>, busy: set<nat>)
    requires Collectable(s)
    ensures var t := DestroyUnused(s, s.disposable, expired, busy);
            && (forall c :: c in t.cores <==> c in s.cores && !(c in expired && c !in busy))
            && (Collectable(t) <==> forall c :: c in s.cores && c in expired ==> c !in busy)
  {
    DestroyUnusedRemoves(s, s.disposable, expired, busy);
  }

  // ------------------------------------------------------------------------- Runs

  /** A session is asked for, a core is given another identity or is destroyed, or idle cores are
      collected. */
  datatype Event =
    | Open(id: nat, authMethod: string, pluginLoads: bool)
    | Assign(core: nat, id: nat)
    | Discard(core: nat, active: bool)
    | Collect(expired: set<nat>, busy: set<nat>)

  function Step(s: State, e: Event): State {
    match e
    case Open(id, authMethod, pluginLoads) => SessionCore(s, id, authMethod, pluginLoads).0
    case Assign(core, id) => if core in s.cores then SetId(s, core, id) else s
    case Discard(core, active) => if core in s.cores then Destroy(s, core, active) else s
    case Collect(expired, busy) => DestroyUnused(s, s.disposable, expired, busy)
  }

  function Run(s: State, events: seq<Event>): State {
    if events == [] then s else Step(Run(s, events[..|events| - 1]), events[|events| - 1])
  }

  predicate Safe(s: State, e: Event) {
    e.Assign? && e.core in s.cores ==> SafeSetId(s, e.core, e.id)
  }

  predicate SafeRun(s: State, events: seq<Event>) {
    events == []
    || (SafeRun(s, events[..|events| - 1]) && Safe(Run(s, events[..|events| - 1]), events[|events| - 1]))
  }

  lemma {:induction false} DestroyUnusedKeepsInv(s: State, todo: seq<nat>, expired: set<nat>, busy: set<nat>)
    requires Inv(s)
    ensures Inv(DestroyUnused(s, todo, expired, busy))
    ensures DestroyUnused(s, todo, expired, busy).next == s.next
    decreases |todo|
  {
    if todo != [] {
      var c := todo[0];
      if c in expired && c in s.cores {
        DestroyKeepsInv(s, c, c in busy);
        var u := Destroy(s, c, c in busy);
        DestroyUnusedKeepsInv(u.(disposable := RemoveOne(u.disposable, c)), todo[1..], expired, busy);
      } else {
        DestroyUnusedKeepsInv(s, todo[1..], expired, busy);
      }
    }
  }

  /** Each event keeps the registry whole, but for an unsafe setId. */
  lemma StepKeepsInvExactly(s: State, e: Event)
    requires Inv(s) && s.next > 0
    ensures Inv(Step(s, e)) <==> Safe(s, e)
    ensures Step(s, e).next > 0
  {
    hide Inv, SetId, Destroy, DestroyUnused;
    match e
    case Open(id, authMethod, pluginLoads) => SessionCoreIsTheOne(s, id, authMethod, pluginLoads);
    case Assign(core, id) =>
      if core in s.cores {
        SetIdKeepsInvExactly(s, core, id);
        SetIdKeepsNext(s, core, id);
      }
    case Discard(core, active) =>
      if core in s.cores {
        DestroyKeepsInv(s, core, active);
        DestroyKeepsNext(s, core, active);
      }
    case Collect(expired, busy) => DestroyUnusedKeepsInv(s, s.disposable, expired, busy);
  }

  lemma SetIdKeepsNext(s: State, c: nat, id: nat)
    requires c in s.cores
    ensures SetId(s, c, id).next == s.next
    ensures SetId(s, c, id).disposable == s.disposable && SetId(s, c, id).cores.Keys == s.cores.Keys
  {
  }

  lemma DestroyKeepsNext(s: State, c: nat, busy: bool)
    requires c in s.cores
    ensures Destroy(s, c, busy).next == s.next
  {
  }

  /** In every run whose identity changes are safe, each live core is in exactly one collection,
      under its own name, and no stored identity has two cores for a method. */
  lemma {:induction false} RegistryStaysWhole(events: seq<Event>)
    requires SafeRun(INITIAL, events)
    ensures var s := Run(INITIAL, events);
      && Inv(s) && s.next > 0
      && forall c, d :: c in s.cores && d in s.cores && s.cores[c] == s.cores[d] && s.cores[c].id != 0 ==> c == d
    decreases |events|
  {
    if events != [] {
      RegistryStaysWhole(events[..|events| - 1]);
      StepKeepsInvExactly(Run(INITIAL, events[..|events| - 1]), events[|events| - 1]);
    }
    var s := Run(INITIAL, events);
    forall c, d | c in s.cores && d in s.cores && s.cores[c] == s.cores[d] && s.cores[c].id != 0 ensures c == d {
      OneCorePerSession(s, c, d);
    }
  }

  /** No core is both busy and left idle for too long. */
  predicate BusyIsKept(s: State, e: Event) {
    e.Collect? ==> forall c <- e.expired :: c in s.cores ==> c !in e.busy
  }

  ghost predicate Listing(s: State) {
    && NoDuplicates(s.disposable)
    && (forall c :: c in s.disposable <==> c in s.cores)
    && (forall c <- s.cores :: c < s.next)
  }

  lemma OpenKeepsListing(s: State, id: nat, authMethod: string, pluginLoads: bool)
    requires Listing(s)
    ensures Listing(SessionCore(s, id, authMethod, pluginLoads).0)
  {
    hide SessionName;
    var t := SessionCore(s, id, authMethod, pluginLoads).0;
    if t.cores != s.cores {
      assert s.next !in s.disposable;
      assert forall c :: c in t.disposable <==> c in s.disposable || c == s.next;
    }
  }

  lemma DestroyKeepsListing(s: State, c: nat, busy: bool)
    requires Listing(s) && c in s.cores
    ensures Listing(Destroy(s, c, busy))
  {
    hide SessionName;
    RemoveOneRemoves(s.disposable, c);
  }

  lemma CollectKeepsListing(s: State, expired: set<nat>, busy: set<nat>)
    requires Listing(s)
    ensures Listing(DestroyUnused(s, s.disposable, expired, busy)) <==> BusyIsKept(s, Collect(expired, busy))
  {
    hide DestroyUnused;
    DestroyUnusedRemoves(s, s.disposable, expired, busy);
    NextUnchanged(s, s.disposable, expired, busy);
  }

  /** Each event keeps the disposable list equal to the live cores exactly when it collects no
      busy core. */
  lemma StepKeepsListingExactly(s: State, e: Event)
    requires Listing(s)
    ensures Listing(Step(s, e)) <==> BusyIsKept(s, e)
  {
    match e
    case Open(id, authMethod, pluginLoads) =>
      hide SessionCore, Listing;
      OpenKeepsListing(s, id, authMethod, pluginLoads);
    case Assign(core, id) =>
      hide SetId;
      if core in s.cores {
        SetIdKeepsNext(s, core, id);
      }
    case Discard(core, active) =>
      hide Destroy, Listing;
      if core in s.cores {
        DestroyKeepsListing(s, core, active);
      }
    case Collect(expired, busy) =>
      hide DestroyUnused, Listing, BusyIsKept;
      CollectKeepsListing(s, expired, busy);
  }

  lemma {:induction false} NextUnchanged(s: State, todo: seq<nat>, expired: set<nat>, busy: set<nat>)
    ensures DestroyUnused(s, todo, expired, busy).next == s.next
    decreases |todo|
  {
    if todo != [] {
      var c := todo[0];
      if c in expired && c in s.cores {
        var u := Destroy(s, c, c in busy);
        NextUnchanged(u.(disposable := RemoveOne(u.disposable, c)), todo[1..], expired, busy);
      } else {
        NextUnchanged(s, todo[1..], expired, busy);
      }
    }
  }

  // ----------------------------------------------- The registry as a set of live cores

  /** The live cores after an event, in their own terms: no names, lists or keys. */
  ghost function CoresAfter(cores: map<nat, Core>, next: nat, e: Event): map<nat, Core> {
    match e
    case Open(id, authMethod, pluginLoads) =>
      if !pluginLoads || (id != 0 && HasCore(cores, Core(id, authMethod))) then cores
      else cores[next := Core(id, authMethod)]
    case Assign(c, id) =>
      if c !in cores || (id != 0 && HasCore(cores, cores[c].(id := id))) then cores
      else cores[c := cores[c].(id := id)]
    case Discard(c, active) => if active then cores else cores - {c}
    case Collect(expired, busy) => map c | c in cores && !(c in expired && c !in busy) :: cores[c]
  }

  lemma {:induction false} DestroyUnusedKeepsCores(s: State, todo: seq<nat>, expired: set<nat>, busy: set<nat>)
    ensures var t := DestroyUnused(s, todo, expired, busy);
      forall c :: c in t.cores ==> c in s.cores && t.cores[c] == s.cores[c]
    decreases |todo|
  {
    if todo != [] {
      var c := todo[0];
      if c in expired && c in s.cores {
        var u := Destroy(s, c, c in busy);
        DestroyUnusedKeepsCores(u.(disposable := RemoveOne(u.disposable, c)), todo[1..], expired, busy);
      } else {
        DestroyUnusedKeepsCores(s, todo[1..], expired, busy);
      }
    }
  }

  lemma OpenCores(s: State, id: nat, authMethod: string, pluginLoads: bool)
    requires Inv(s)
    ensures SessionCore(s, id, authMethod, pluginLoads).0.cores == CoresAfter(s.cores, s.next, Open(id, authMethod, pluginLoads))
  {
    if id != 0 {
      NameOfCore(s, Core(id, authMethod));
    }
    hide SessionName, Inv;
  }

  lemma CollectCores(s: State, expired: set<nat>, busy: set<nat>)
    requires Collectable(s)
    ensures DestroyUnused(s, s.disposable, expired, busy).cores == CoresAfter(s.cores, s.next, Collect(expired, busy))
  {
    DestroyUnusedExactly(s, expired, busy);
    DestroyUnusedKeepsCores(s, s.disposable, expired, busy);
    hide DestroyUnused, Collectable;
  }

  /** Every event does to the live cores what `CoresAfter` says: a session is given the core that
      there is, or a new one; setId moves one core, to a free identity; and cores go only when they
      are destroyed or collected idle. */
  lemma StepCores(s: State, e: Event)
    requires Inv(s) && Collectable(s)
    ensures Step(s, e).cores == CoresAfter(s.cores, s.next, e)
  {
    hide Inv, Collectable, SessionCore, SetId, DestroyUnused, SessionName, HasCore;
    match e
    case Open(id, authMethod, pluginLoads) => OpenCores(s, id, authMethod, pluginLoads);
    case Assign(c, id) =>
      if c in s.cores {
        SetIdMovesExactly(s, c, id);
      }
    case Discard(c, active) =>
      if c !in s.cores {
        assert s.cores - {c} == s.cores;
      }
    case Collect(expired, busy) => CollectCores(s, expired, busy);
  }

  // --------------------------------------------------------------- The collections

  class Registry {
    var stored: map<string, nat>
    var nonStored: seq<nat>
    var disposable: seq<nat>
    var cores: map<nat, Core>
    var next: nat

    ghost function View(): State
      reads this
    {
      State(stored, nonStored, disposable, cores, next)
    }

    constructor ()
      ensures View() == INITIAL
    {
      stored, nonStored, disposable, cores, next := map[], [], [], map[], 1;
    }

    method GetSessionCore(id: nat, authMethod': string, pluginLoads: bool) returns (core: Option<nat>)
      modifies this
      ensures (View(), core) == SessionCore(old(View()), id, authMethod', pluginLoads)
    {
      var key := SessionName(id, authMethod');
      if id != 0 {
        if key in stored {
          return Some(stored[key]);
        }
      }
      var ssc := next;
      next := next + 1;
      if !pluginLoads {
        return None;
      }
      cores := cores[ssc := Core(id, authMethod')];
      disposable := disposable + [ssc];
      if id != 0 {
        stored := stored[key := ssc];
      } else {
        nonStored := nonStored + [ssc];
      }
      return Some(ssc);
    }

    method SetCoreId(c: nat, id: nat)
      requires c in cores
      modifies this
      ensures View() == SetId(old(View()), c, id)
    {
      var core := cores[c];
      if core.id == id {
        return;
      }
      if id == 0 {
        var key := SessionName(core.id, core.authMethod);
        nonStored := nonStored + [TakeValue(stored, key)];
        stored := stored - {key};
      } else {
        var key := SessionName(id, core.authMethod);
        if key in stored {
          return;
        }
        nonStored := RemoveOne(nonStored, c);
        stored := stored[key := c];
      }
      cores := cores[c := core.(id := id)];
    }

    method DestroyCore(c: nat, busy: bool)
      requires c in cores
      modifies this
      ensures View() == Destroy(old(View()), c, busy)
    {
      if busy {
        return;
      }
      var core := cores[c];
      if core.id != 0 {
        stored := stored - {SessionName(core.id, core.authMethod)};
      } else {
        nonStored := RemoveOne(nonStored, c);
      }
      cores := cores - {c};
      disposable := RemoveOne(disposable, c);
    }

    method DestroyUnusedCores(expired: set<nat>, busy: set<nat>)
      modifies this
      ensures View() == DestroyUnused(old(View()), old(disposable), expired, busy)
    {
      var snapshot := disposable;
      var i := 0;
      while i < |snapshot|
        invariant 0 <= i <= |snapshot|
        invariant DestroyUnused(old(View()), snapshot, expired, busy)
               == DestroyUnused(View(), snapshot[i..], expired, busy)
      {
        var candidate := snapshot[i];
        assert snapshot[i..][1..] == snapshot[i + 1..];
        if candidate in expired && candidate in cores {
          DestroyCore(candidate, candidate in busy);
          disposable := RemoveOne(disposable, candidate);
        }
        i := i + 1;
      }
    }
  }

  /** Delivering an event to the collections is one step of the registry, and keeps it whole
      exactly unless it is an unsafe setId. */
  method Deliver(r: Registry, e: Event)
    modifies r
    ensures r.View() == Step(old(r.View()), e)
    ensures old(Inv(r.View()) && r.next > 0) ==> (Inv(r.View()) <==> old(Safe(r.View(), e)))
  {
    hide Inv, Safe, SessionCore, SetId, Destroy, DestroyUnused;
    if Inv(r.View()) && r.next > 0 {
      StepKeepsInvExactly(r.View(), e);
    }
    match e
    case Open(id, authMethod, pluginLoads) => var _ := r.GetSessionCore(id, authMethod, pluginLoads);
    case Assign(core, id) => if core in r.cores { r.SetCoreId(core, id); }
    case Discard(core, active) => if core in r.cores { r.DestroyCore(core, active); }
    case Collect(expired, busy) => r.DestroyUnusedCores(expired, busy);
  }
}
