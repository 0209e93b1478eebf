/**
 Deferred secret writes: while the secrets database is closed, logins and data go to a
 cache, and opening the database replays the cache in hash order.
 */
module SecretsCache {
  import opened Wrappers
  import opened SecretsStore

  // ---------------------------------------------------------------- Data model

  datatype AuthCache = AuthCache(login: Login, storePassword: bool, blobs: map<nat, seq<Entry>>)
  type Cache = map<nat, AuthCache>

  /** QHash::operator[] default-constructs an entry, leaving the flag uninitialised. */
  function EntryAt(c: Cache, id: nat, junk: bool): AuthCache {
    if id in c then c[id] else AuthCache(Login("", ""), junk, map[])
  }

  function CacheLogin(c: Cache, id: nat, login: Login, storePassword: bool, junk: bool): Cache {
    if id == 0 then c
    else c[id := EntryAt(c, id, junk).(login := login, storePassword := storePassword)]
  }

  function CacheData(c: Cache, id: nat, m: nat, data: seq<Entry>, junk: bool): Cache {
    if id == 0 then c
    else
      var e := EntryAt(c, id, junk);
      c[id := e.(blobs := e.blobs[m := data])]
  }

  /** What the flush would write as login: nothing when both parts are empty. */
  function FlushedLogin(e: AuthCache): Option<Login> {
    var password := if e.storePassword then e.login.password else "";
    if e.login.userName == "" && password == "" then None else Some(Login(e.login.userName, password))
  }

  /** A visit of the flush: an identity, and its methods in the order of the inner hash. */
  datatype Visit = Visit(id: nat, methods: seq<nat>)

  function FlushData(s: Secrets, id: nat, blobs: map<nat, seq<Entry>>, methods: seq<nat>): Secrets
    requires forall m :: m in methods ==> m in blobs
  {
    if methods == [] then s
    else
      var m := methods[|methods| - 1];
      StoreData(FlushData(s, id, blobs, methods[..|methods| - 1]), id, m, blobs[m]).0
  }

  function FlushOne(s: Secrets, e: AuthCache, v: Visit): Secrets
    requires forall m :: m in v.methods ==> m in e.blobs
  {
    var login := FlushedLogin(e);
    var s1 := if login.Some? then UpdateLogin(s, v.id, login.value) else s;
    FlushData(s1, v.id, e.blobs, v.methods)
  }

  /** The order covers the cache: every identity once, and every method of it once. */
  ghost predicate Covers(order: seq<Visit>, c: Cache) {
    && Visits(order, c)
    && (forall id :: id in c ==> exists i :: 0 <= i < |order| && order[i].id == id)
    && (forall i, m :: 0 <= i < |order| && m in c[order[i].id].blobs ==> m in order[i].methods)
  }

  predicate Visits(order: seq<Visit>, c: Cache) {
    && (forall i :: 0 <= i < |order| ==> order[i].id in c)
    && (forall i, j :: 0 <= i < j < |order| ==> order[i].id != order[j].id)
    && (forall i, m :: 0 <= i < |order| && m in order[i].methods ==> m in c[order[i].id].blobs)
    && (forall i, j, k :: 0 <= i < |order| && 0 <= j < k < |order[i].methods| ==>
          order[i].methods[j] != order[i].methods[k])
  }

  function Flush(s: Secrets, c: Cache, order: seq<Visit>): Secrets
    requires Visits(order, c)
  {
    if order == [] then s
    else
      var v := order[|order| - 1];
      FlushOne(Flush(s, c, order[..|order| - 1]), c[v.id], v)
  }

  // ------------------------------------------------------- CredentialsDB, on values

  datatype State = State(open: bool, secrets: Secrets, cache: Cache)

  datatype Op =
    | Save(id: nat, login: Login, storePassword: bool)
    | Blob(id: nat, authMethod: nat, data: seq<Entry>)

  /** updateCredentials and storeData, after the metadata part.  `junk` is the value an
      uninitialised flag happens to have. */
  function Do(st: State, op: Op, junk: bool): State {
    match op
    case Save(id, login, storePassword) =>
      if id == 0 then st
      else if storePassword && st.open then st.(secrets := UpdateLogin(st.secrets, id, login))
      else st.(cache := CacheLogin(st.cache, id, login, storePassword, junk))
    case Blob(id, m, data) =>
      if id == 0 then st
      else if st.open then st.(secrets := StoreData(st.secrets, id, m, data).0)
      else st.(cache := CacheData(st.cache, id, m, data, junk))
  }

  function DoAll(st: State, ops: seq<Op>, junk: bool): State {
    if ops == [] then st else Do(DoAll(st, ops[..|ops| - 1], junk), ops[|ops| - 1], junk)
  }

  /** openSecretsDB; `ok` is whether the storage initializes. */
  function OpenSecretsDB(st: State, order: seq<Visit>, ok: bool): State
    requires Visits(order, st.cache)
  {
    if ok then State(true, Flush(st.secrets, st.cache, order), map[]) else st
  }

  // ---------------------------------------------------- What a flush leaves behind

  /** Two secrets databases with the same logins and the same data are the same. */
  lemma SecretsEqual(a: Secrets, b: Secrets)
    requires a.logins == b.logins
    requires forall id, m :: LoadData(a, id, m) == LoadData(b, id, m)
    ensures a == b
  {
    forall t: StoreKey
      ensures t in a.store <==> t in b.store
      ensures t in a.store ==> a.store[t] == b.store[t]
    {
      assert LoadData(a, t.id, t.authMethod) == LoadData(b, t.id, t.authMethod);
      assert t == StoreKey(t.id, t.authMethod, t.key);
      LoadedAt(a, t.id, t.authMethod, t.key);
      LoadedAt(b, t.id, t.authMethod, t.key);
    }
    assert a.store == b.store;
  }

  lemma {:induction false} FlushDataAt(s: Secrets, id: nat, blobs: map<nat, seq<Entry>>, methods: seq<nat>, id': nat, m: nat)
    requires forall m :: m in methods ==> m in blobs
    requires forall j, k :: 0 <= j < k < |methods| ==> methods[j] != methods[k]
    ensures FlushData(s, id, blobs, methods).logins == s.logins
    ensures LoadData(FlushData(s, id, blobs, methods), id', m) ==
            if id' == id && m in methods && Fits(blobs[m]) then NonNull(blobs[m]) else LoadData(s, id', m)
  {
    hide StoreData, LoadData, Fits, NonNull;
    if methods != [] {
      var n := |methods| - 1;
      FlushDataAt(s, id, blobs, methods[..n], id', m);
      StoreThenLoad(FlushData(s, id, blobs, methods[..n]), id, methods[n], blobs[methods[n]], id', m);
      assert m in methods <==> m in methods[..n] || m == methods[n];
    }
  }

  predicate Visited(order: seq<Visit>, id: nat) {
    exists i :: 0 <= i < |order| && order[i].id == id
  }

  /** One visit: the login of that identity, and its data. */
  lemma {:induction false} FlushOneAt(s: Secrets, e: AuthCache, v: Visit, id: nat, m: nat)
    requires forall m :: m in v.methods ==> m in e.blobs
    requires forall j, k :: 0 <= j < k < |v.methods| ==> v.methods[j] != v.methods[k]
    ensures var login := FlushedLogin(e);
            FlushOne(s, e, v).logins == if login.Some? then s.logins[v.id := login.value] else s.logins
    ensures LoadData(FlushOne(s, e, v), id, m) ==
            if id == v.id && m in v.methods && Fits(e.blobs[m]) then NonNull(e.blobs[m]) else LoadData(s, id, m)
  {
    var login := FlushedLogin(e);
    var s1 := if login.Some? then UpdateLogin(s, v.id, login.value) else s;
    FlushDataAt(s1, v.id, e.blobs, v.methods, id, m);
    if login.Some? {
      LoginsAndData(s, v.id, login.value, id, m);
    }
  }

  lemma VisitsSplit(order: seq<Visit>, c: Cache)
    requires Visits(order, c) && order != []
    ensures var n := |order| - 1;
            && Visits(order[..n], c)
            && order[n].id in c
            && !Visited(order[..n], order[n].id)
            && (forall m :: m in order[n].methods ==> m in c[order[n].id].blobs)
            && (forall j, k :: 0 <= j < k < |order[n].methods| ==> order[n].methods[j] != order[n].methods[k])
  {
  }

  lemma VisitedSplit(order: seq<Visit>, id: nat)
    requires order != []
    ensures Visited(order, id) <==> Visited(order[..|order| - 1], id) || id == order[|order| - 1].id
  {
    var n := |order| - 1;
    if Visited(order[..n], id) {
      var i :| 0 <= i < n && order[..n][i].id == id;
      assert order[i].id == id;
    }
    if id == order[n].id {
      assert order[n].id == id;
    }
    if i :| 0 <= i < |order| && order[i].id == id {
      assert i < n ==> order[..n][i].id == id;
    }
  }

  predicate SameLogin(a: map<nat, Login>, b: map<nat, Login>, id: nat) {
    (id in a <==> id in b) && (id in a ==> a[id] == b[id])
  }

  /** Logins after the flush, whatever the order. */
  lemma {:induction false} FlushLoginAt(s: Secrets, c: Cache, order: seq<Visit>, id: nat)
    requires Visits(order, c)
    ensures var f := Flush(s, c, order);
            if Visited(order, id) && id in c && FlushedLogin(c[id]).Some?
            then id in f.logins && f.logins[id] == FlushedLogin(c[id]).value
            else SameLogin(f.logins, s.logins, id)
  {
    if order != [] {
      hide Visits, Visited, FlushOne, FlushedLogin, LoadData;
      var n := |order| - 1;
      VisitsSplit(order, c);
      VisitedSplit(order, id);
      FlushLoginAt(s, c, order[..n], id);
      FlushOneAt(Flush(s, c, order[..n]), c[order[n].id], order[n], 0, 0);
    } else {
      assert !Visited(order, id);
    }
  }

  ghost predicate VisitsAllData(order: seq<Visit>, c: Cache) {
    forall i, m :: 0 <= i < |order| && order[i].id in c && m in c[order[i].id].blobs ==> m in order[i].methods
  }

  lemma VisitsAllDataSplit(order: seq<Visit>, c: Cache)
    requires VisitsAllData(order, c) && order != []
    ensures VisitsAllData(order[..|order| - 1], c)
    ensures var v := order[|order| - 1];
            v.id in c ==> forall m :: m in c[v.id].blobs ==> m in v.methods
  {
  }

  /** Data after the flush, whatever the order. */
  lemma {:induction false} FlushedDataAt(s: Secrets, c: Cache, order: seq<Visit>, id: nat, m: nat)
    requires Visits(order, c) && VisitsAllData(order, c)
    ensures LoadData(Flush(s, c, order), id, m) ==
            if Visited(order, id) && id in c && m in c[id].blobs && Fits(c[id].blobs[m]) then NonNull(c[id].blobs[m])
            else LoadData(s, id, m)
  {
    if order != [] {
      hide Visits, Visited, VisitsAllData, FlushOne, FlushedLogin, LoadData, Fits, NonNull;
      var n := |order| - 1;
      VisitsSplit(order, c);
      VisitsAllDataSplit(order, c);
      VisitedSplit(order, id);
      FlushedDataAt(s, c, order[..n], id, m);
      FlushOneAt(Flush(s, c, order[..n]), c[order[n].id], order[n], id, m);
    } else {
      assert !Visited(order, id);
    }
  }

  /** What opening leaves behind does not depend on the order of the hash. */
  lemma OrderIsIrrelevant(s: Secrets, c: Cache, order: seq<Visit>, order': seq<Visit>)
    requires Covers(order, c) && Covers(order', c)
    ensures Flush(s, c, order) == Flush(s, c, order')
  {
    var a, b := Flush(s, c, order), Flush(s, c, order');
    forall id: nat
      ensures SameLogin(a.logins, b.logins, id)
    {
      CoveredIsVisited(order, c, id);
      CoveredIsVisited(order', c, id);
      hide Covers, Visits, Visited, Flush, FlushedLogin;
      FlushLoginAt(s, c, order, id);
      FlushLoginAt(s, c, order', id);
    }
    forall id: nat, m: nat
      ensures LoadData(a, id, m) == LoadData(b, id, m)
    {
      CoveredIsVisited(order, c, id);
      CoveredIsVisited(order', c, id);
      hide Covers, Visits, Visited, Flush, LoadData, NonNull, Fits;
      FlushedDataAt(s, c, order, id, m);
      FlushedDataAt(s, c, order', id, m);
    }
    SameLoginsEqual(a.logins, b.logins);
    SecretsEqual(a, b);
  }

  lemma SameLoginsEqual(a: map<nat, Login>, b: map<nat, Login>)
    requires forall id: nat :: SameLogin(a, b, id)
    ensures a == b
  {
    forall id: nat
      ensures id in a <==> id in b
      ensures id in a ==> a[id] == b[id]
    {
      assert SameLogin(a, b, id);
    }
  }

  lemma CoveredIsVisited(order: seq<Visit>, c: Cache, id: nat)
    requires Covers(order, c)
    ensures Visits(order, c) && VisitsAllData(order, c)
    ensures Visited(order, id) <==> id in c
  {
  }

  // -------------------------------------------- Deferred writes against direct writes

  const BLANK := Login("", "")

  /** The last save of an identity, whether or not its password may be stored. */
  function LastSave(ops: seq<Op>, id: nat): (r: Option<Op>)
    ensures r.Some? ==> r.value.Save? && r.value in ops
  {
    if ops == [] then None
    else
      var op := ops[|ops| - 1];
      if op.Save? && op.id == id && id != 0 then Some(op) else LastSave(ops[..|ops| - 1], id)
  }

  /** The last login whose password may be stored. */
  function LastStored(ops: seq<Op>, id: nat): Option<Login> {
    if ops == [] then None
    else
      var op := ops[|ops| - 1];
      if op.Save? && op.storePassword && op.id == id && id != 0 then Some(op.login)
      else LastStored(ops[..|ops| - 1], id)
  }

  function LastBlob(ops: seq<Op>, id: nat, m: nat): Option<seq<Entry>> {
    if ops == [] then None
    else
      var op := ops[|ops| - 1];
      if op.Blob? && op.id == id && op.authMethod == m && id != 0 then Some(op.data)
      else LastBlob(ops[..|ops| - 1], id, m)
  }

  /** The last data under the limit. */
  function LastFitting(ops: seq<Op>, id: nat, m: nat): Option<seq<Entry>> {
    if ops == [] then None
    else
      var op := ops[|ops| - 1];
      if op.Blob? && op.id == id && op.authMethod == m && id != 0 && Fits(op.data) then Some(op.data)
      else LastFitting(ops[..|ops| - 1], id, m)
  }

  function LoginRow(logins: map<nat, Login>, id: nat): Option<Login> {
    if id in logins then Some(logins[id]) else None
  }

  /** The cache as the operations left it, for one identity and method. */
  predicate CacheIs(c: Cache, ops: seq<Op>, id: nat, m: nat) {
    && (id in c ==>
          && (match LastSave(ops, id)
              case None => c[id].login == BLANK
              case Some(save) => c[id].login == save.login && c[id].storePassword == save.storePassword)
          && (m in c[id].blobs <==> LastBlob(ops, id, m).Some?)
          && (m in c[id].blobs ==> c[id].blobs[m] == LastBlob(ops, id, m).value))
    && (id !in c ==> LastSave(ops, id).None? && LastBlob(ops, id, m).None?)
  }

  lemma {:induction false} ClosedRun(s: Secrets, ops: seq<Op>, junk: bool, id: nat, m: nat)
    ensures var st := DoAll(State(false, s, map[]), ops, junk);
            !st.open && st.secrets == s && CacheIs(st.cache, ops, id, m)
  {
    if ops != [] {
      var n := |ops| - 1;
      ClosedRun(s, ops[..n], junk, id, m);
      ClosedStep(DoAll(State(false, s, map[]), ops[..n], junk), ops, junk, id, m);
      hide CacheIs, Do;
    }
  }

  lemma ClosedStep(st: State, ops: seq<Op>, junk: bool, id: nat, m: nat)
    requires ops != [] && !st.open && CacheIs(st.cache, ops[..|ops| - 1], id, m)
    ensures var t := Do(st, ops[|ops| - 1], junk);
      !t.open && t.secrets == st.secrets && CacheIs(t.cache, ops, id, m)
  {
  }

  /** The store after the operations, for one identity and method. */
  ghost predicate StoreIs(t: Secrets, s: Secrets, ops: seq<Op>, id: nat, m: nat) {
    && LoginRow(t.logins, id) == (if LastStored(ops, id).Some? then LastStored(ops, id) else LoginRow(s.logins, id))
    && LoadData(t, id, m)
       == if LastFitting(ops, id, m).Some? then NonNull(LastFitting(ops, id, m).value) else LoadData(s, id, m)
  }

  lemma DirectStep(st: State, s: Secrets, ops: seq<Op>, junk: bool, id: nat, m: nat)
    requires ops != [] && st.open
    requires StoreIs(st.secrets, s, ops[..|ops| - 1], id, m)
    ensures var t := Do(st, ops[|ops| - 1], junk); t.open && StoreIs(t.secrets, s, ops, id, m)
  {
    hide LoadData, NonNull, StoreData, Fits;
    match ops[|ops| - 1] {
      case Save(i, login, _) => LoginsAndData(st.secrets, i, login, id, m);
      case Blob(i, k, data) => StoreThenLoad(st.secrets, i, k, data, id, m);
    }
  }

  lemma {:induction false} DirectRun(s: Secrets, ops: seq<Op>, junk: bool, id: nat, m: nat)
    ensures var st := DoAll(State(true, s, map[]), ops, junk);
      st.open && StoreIs(st.secrets, s, ops, id, m)
  {
    if ops != [] {
      var n := |ops| - 1;
      DirectRun(s, ops[..n], junk, id, m);
      hide StoreIs, Do;
      DirectStep(DoAll(State(true, s, map[]), ops[..n], junk), s, ops, junk, id, m);
    }
  }

  predicate AllStored(ops: seq<Op>) {
    forall i :: 0 <= i < |ops| && ops[i].Save? ==> ops[i].storePassword
  }

  lemma {:induction false} StoredIsNotCached(s: Secrets, ops: seq<Op>, junk: bool)
    requires AllStored(ops)
    ensures DoAll(State(true, s, map[]), ops, junk).open && DoAll(State(true, s, map[]), ops, junk).cache == map[]
  {
    if ops != [] {
      StoredIsNotCached(s, ops[..|ops| - 1], junk);
    }
  }

  /** Nothing of a login is flushed that has no user name and no password to store. */
  predicate IsBlank(save: Op)
    requires save.Save?
  {
    save.login.userName == "" && (!save.storePassword || save.login.password == "")
  }

  /** The login of an identity ends alike, deferred or not: it was saved last with something to
      flush and a password to store; or with nothing to flush, when the last stored login, if
      any, was there before; or with a secret user name alone, when that is what a database
      keeps. */
  predicate LoginSettled(s: Secrets, ops: seq<Op>, id: nat) {
    match LastSave(ops, id)
    case None => true
    case Some(save) =>
      if IsBlank(save) then LastStored(ops, id).Some? ==> LoginRow(s.logins, id) == LastStored(ops, id)
      else if save.storePassword then true
      else Some(Login(save.login.userName, ""))
           == if LastStored(ops, id).Some? then LastStored(ops, id) else LoginRow(s.logins, id)
  }

  /** The data of a method ends alike: the last of it fits, or none did, or what fitted last was
      there before. */
  predicate DataSettled(s: Secrets, ops: seq<Op>, id: nat, m: nat) {
    LastBlob(ops, id, m).Some? && !Fits(LastBlob(ops, id, m).value) && LastFitting(ops, id, m).Some?
    ==> NonNull(LastFitting(ops, id, m).value) == LoadData(s, id, m)
  }

  lemma {:induction false} FittingIsLast(ops: seq<Op>, id: nat, m: nat)
    ensures LastFitting(ops, id, m).Some? ==> LastBlob(ops, id, m).Some?
    ensures LastBlob(ops, id, m).Some? && Fits(LastBlob(ops, id, m).value) ==>
              LastFitting(ops, id, m) == LastBlob(ops, id, m)
  {
    if ops != [] {
      FittingIsLast(ops[..|ops| - 1], id, m);
    }
  }

  lemma {:induction false} StoredIsLast(ops: seq<Op>, id: nat)
    ensures LastStored(ops, id).Some? ==> LastSave(ops, id).Some?
    ensures LastSave(ops, id).Some? && LastSave(ops, id).value.storePassword ==>
              LastStored(ops, id) == Some(LastSave(ops, id).value.login)
  {
    if ops != [] {
      StoredIsLast(ops[..|ops| - 1], id);
    }
  }

  lemma {:induction false} DeferredData(s: Secrets, ops: seq<Op>, junk: bool, order: seq<Visit>, id: nat, m: nat)
    requires Covers(order, DoAll(State(false, s, map[]), ops, junk).cache)
    ensures LoadData(Flush(s, DoAll(State(false, s, map[]), ops, junk).cache, order), id, m)
         == LoadData(DoAll(State(true, s, map[]), ops, junk).secrets, id, m)
       <==> DataSettled(s, ops, id, m)
  {
    var c := DoAll(State(false, s, map[]), ops, junk).cache;
    CoveredIsVisited(order, c, id);
    hide Covers, Visits, Visited, VisitsAllData, Flush, DoAll, LoadData, NonNull, Fits, LastSave, LastStored;
    hide LastBlob, LastFitting;
    ClosedRun(s, ops, junk, id, m);
    DirectRun(s, ops, junk, id, m);
    FittingIsLast(ops, id, m);
    FlushedDataAt(s, c, order, id, m);
  }

  lemma DeferredLogin(s: Secrets, ops: seq<Op>, junk: bool, order: seq<Visit>, id: nat)
    requires Covers(order, DoAll(State(false, s, map[]), ops, junk).cache)
    ensures SameLogin(Flush(s, DoAll(State(false, s, map[]), ops, junk).cache, order).logins,
                      DoAll(State(true, s, map[]), ops, junk).secrets.logins, id)
       <==> LoginSettled(s, ops, id)
  {
    var c := DoAll(State(false, s, map[]), ops, junk).cache;
    CoveredIsVisited(order, c, id);
    hide Covers, Visits, Visited, VisitsAllData, Flush, DoAll, LoadData, NonNull, LastSave, LastStored;
    hide LastBlob, LastFitting;
    ClosedRun(s, ops, junk, id, 0);
    DirectRun(s, ops, junk, id, 0);
    StoredIsLast(ops, id);
    FlushLoginAt(s, c, order, id);
  }

  ghost predicate Settled(s: Secrets, ops: seq<Op>) {
    (forall id :: LoginSettled(s, ops, id)) && (forall id, m :: DataSettled(s, ops, id, m))
  }

  lemma DeferredSecrets(s: Secrets, ops: seq<Op>, junk: bool, order: seq<Visit>, c: Cache, direct: Secrets)
    requires Covers(order, c)
    requires c == DoAll(State(false, s, map[]), ops, junk).cache
    requires direct == DoAll(State(true, s, map[]), ops, junk).secrets
    ensures Flush(s, c, order) == direct <==> Settled(s, ops)
  {
    hide DoAll, Flush, LoadData, Visits, LoginSettled, DataSettled;
    forall id: nat
      ensures SameLogin(Flush(s, c, order).logins, direct.logins, id) <==> LoginSettled(s, ops, id)
    {
      DeferredLogin(s, ops, junk, order, id);
    }
    forall id: nat, m: nat
      ensures LoadData(Flush(s, c, order), id, m) == LoadData(direct, id, m) <==> DataSettled(s, ops, id, m)
    {
      DeferredData(s, ops, junk, order, id, m);
    }
    if Settled(s, ops) {
      SameLoginsEqual(Flush(s, c, order).logins, direct.logins);
      SecretsEqual(Flush(s, c, order), direct);
    } else if !(forall id :: LoginSettled(s, ops, id)) {
      var id :| !LoginSettled(s, ops, id);
      assert !SameLogin(Flush(s, c, order).logins, direct.logins, id);
    }
  }

  /** Deferred writes against direct writes, for every run of saves and stores: doing them with
      the database closed and then opening it, in whatever hash order and whatever an
      uninitialised flag held, gives the same secrets as doing them with the database open
      exactly when every login and the data of every method are settled.  The cache is empty
      after opening; with the database open nothing is cached unless a password may not be
      stored. */
  lemma DeferredRefinesDirect(s: Secrets, ops: seq<Op>, junk: bool, order: seq<Visit>)
    requires Covers(order, DoAll(State(false, s, map[]), ops, junk).cache)
    ensures var closed := DoAll(State(false, s, map[]), ops, junk);
            var direct := DoAll(State(true, s, map[]), ops, junk);
            var after := OpenSecretsDB(closed, order, true);
            && after.open && direct.open && after.cache == map[]
            && (after.secrets == direct.secrets <==> Settled(s, ops))
            && (AllStored(ops) ==> direct.cache == map[])
  {
    ClosedRun(s, ops, junk, 0, 0);
    DirectRun(s, ops, junk, 0, 0);
    if AllStored(ops) {
      StoredIsNotCached(s, ops, junk);
    }
    hide DoAll, Flush, Covers, Settled, AllStored;
    DeferredSecrets(s, ops, junk, order, DoAll(State(false, s, map[]), ops, junk).cache,
                    DoAll(State(true, s, map[]), ops, junk).secrets);
  }

  /** The operations a database accepts: passwords may be stored and data fits. */
  predicate Accepted(ops: seq<Op>) {
    forall i :: 0 <= i < |ops| ==> if ops[i].Save? then ops[i].storePassword else Fits(ops[i].data)
  }

  lemma {:induction false} LastBlobIsABlob(ops: seq<Op>, id: nat, m: nat)
    requires Accepted(ops)
    ensures LastBlob(ops, id, m).Some? ==> Fits(LastBlob(ops, id, m).value)
  {
    if ops != [] {
      LastBlobIsABlob(ops[..|ops| - 1], id, m);
    }
  }

  /** With a password or a secret user name in every save, and data that fits, nothing is lost
      by deferring. */
  lemma DeferredRefinesDirectWhenNotBlank(s: Secrets, ops: seq<Op>, junk: bool, order: seq<Visit>)
    requires Accepted(ops)
    requires forall i :: 0 <= i < |ops| && ops[i].Save? ==> ops[i].login != BLANK
    requires Covers(order, DoAll(State(false, s, map[]), ops, junk).cache)
    ensures OpenSecretsDB(DoAll(State(false, s, map[]), ops, junk), order, true)
         == DoAll(State(true, s, map[]), ops, junk)
  {
    DeferredRefinesDirect(s, ops, junk, order);
    forall id: nat
      ensures LoginSettled(s, ops, id)
    {
      assert LastSave(ops, id).Some? ==> LastSave(ops, id).value.login != BLANK;
    }
    forall id: nat, m: nat
      ensures DataSettled(s, ops, id, m)
    {
      LastBlobIsABlob(ops, id, m);
    }
  }

  // ------------------------------------------------------------- Finishing sessions

  /** The part of an identity's metadata that decides what a finished session stores. */
  datatype Meta = Meta(userName: string, validated: bool, storePassword: bool, userNameSecret: bool)

  /** `next` is the id of the next new identity. */
  datatype World = World(meta: map<nat, Meta>, next: nat, db: State)

  /** Identities have had numbers below the next one, and none is 0. */
  ghost predicate Numbered(w: World) {
    w.next > 0 && forall id :: id in w.meta ==> 0 < id < w.next
  }

  /** CredentialsDB::credentials: the secret part. */
  function LoadLogin(st: State, id: nat, storePassword: bool): Login {
    if storePassword && st.open then (if id in st.secrets.logins then st.secrets.logins[id] else BLANK)
    else CachedLogin(st, id)
  }

  function CachedLogin(st: State, id: nat): Login {
    if id in st.cache then st.cache[id].login else BLANK
  }

  /** The user name of an identity after a session that had `userName` for it. */
  function NewName(meta: Meta, secret: string, userName: string): string {
    if !meta.validated && userName != "" then userName
    else if meta.userNameSecret then secret
    else meta.userName
  }

  function Validated(meta: Meta, userName: string): Meta {
    Meta(if meta.userNameSecret then "" else userName, true, meta.storePassword, meta.userNameSecret)
  }

  /** The database part of processResultReply: what the UI or the client supplied
      (`userName`, `password`, possibly empty) is merged into the stored identity.  Of an identity
      that is gone, nothing is read and the id is 0, so that the update inserts a new one. */
  function FinishSession(w: World, id: nat, userName: string, password: string, junk: bool): World {
    if id == 0 then w
    else if id !in w.meta then
      World(w.meta[w.next := Meta(userName, true, false, false)], w.next + 1,
            if password != "" then Do(w.db, Save(w.next, Login("", password), false), junk) else w.db)
    else
      var meta := w.meta[id];
      var loaded := LoadLogin(w.db, id, meta.storePassword);
      var newName := NewName(meta, loaded.userName, userName);
      var newPassword := if password != "" then password else loaded.password;
      World(w.meta[id := Validated(meta, newName)], w.next,
            Do(w.db, Save(id, Login(if meta.userNameSecret then newName else "", newPassword), meta.storePassword), junk))
  }

  datatype Session = Session(id: nat, userName: string, password: string)

  function FinishAll(w: World, sessions: seq<Session>, junk: bool): World {
    if sessions == [] then w
    else
      var s := sessions[|sessions| - 1];
      FinishSession(FinishAll(w, sessions[..|sessions| - 1], junk), s.id, s.userName, s.password, junk)
  }

  // ------------------------------------------------- Sessions of identities that are gone

  /** How many sessions have an identity that is not there in the beginning. */
  function GoneCount(w: World, sessions: seq<Session>): nat {
    if sessions == [] then 0
    else
      var id := sessions[|sessions| - 1].id;
      GoneCount(w, sessions[..|sessions| - 1]) + if id != 0 && id !in w.meta then 1 else 0
  }

  ghost predicate Grown(w: World, w': World, n: nat) {
    && w'.next == w.next + n
    && forall k: nat :: k in w'.meta <==> k in w.meta || w.next <= k < w.next + n
  }

  lemma FinishGrows(w: World, s: Session, junk: bool)
    requires Numbered(w)
    ensures var w' := FinishSession(w, s.id, s.userName, s.password, junk);
      Numbered(w') && Grown(w, w', if s.id != 0 && s.id !in w.meta then 1 else 0)
  {
    hide LoadLogin, Do, NewName, Validated;
  }

  /** Sessions create identities, over any run: one for each session whose own identity is gone,
      under the next number, and for no other; so that a removed identity never comes back, and
      each further session for it leaves one more. */
  lemma {:induction false} SessionsCreateExactly(w: World, sessions: seq<Session>, junk: bool)
    requires Numbered(w) && forall i :: 0 <= i < |sessions| ==> sessions[i].id < w.next
    ensures Numbered(FinishAll(w, sessions, junk))
    ensures Grown(w, FinishAll(w, sessions, junk), GoneCount(w, sessions))
  {
    if sessions != [] {
      hide FinishSession;
      var n := |sessions| - 1;
      SessionsCreateExactly(w, sessions[..n], junk);
      FinishGrows(FinishAll(w, sessions[..n], junk), sessions[n], junk);
    }
  }

  /** The identity that a session creates when its own is gone: under the name that was given, counted
      as validated, and not to store its password; which is only cached, and so never flushed. */
  lemma CreatedExactly(w: World, s: Session, junk: bool)
    requires Numbered(w) && s.id != 0 && s.id !in w.meta
    ensures var w' := FinishSession(w, s.id, s.userName, s.password, junk);
      && w'.meta == w.meta[w.next := Meta(s.userName, true, false, false)]
      && w'.db.secrets == w.db.secrets && w'.db.open == w.db.open
      && (s.password == "" ==> w'.db == w.db)
      && (s.password != "" ==> CachedLogin(w'.db, w.next) == Login("", s.password)
                               && FlushedLogin(w'.db.cache[w.next]) == None)
  {
  }

  // -------------------------------------------- What sessions leave in the secrets database

  /** The user name of the first session of an identity. */
  function FirstName(sessions: seq<Session>, id: nat): Option<string> {
    if sessions == [] then None
    else
      var n := |sessions| - 1;
      var before := FirstName(sessions[..n], id);
      if before.None? && sessions[n].id == id then Some(sessions[n].userName) else before
  }

  /** The last password of its sessions, empty when there is none. */
  function LastPassword(sessions: seq<Session>, id: nat): string {
    if sessions == [] then ""
    else
      var n := |sessions| - 1;
      if sessions[n].id == id && sessions[n].password != "" then sessions[n].password
      else LastPassword(sessions[..n], id)
  }

  /** The name that counts after sessions of which the first one had `first`. */
  function NameAfter(meta: Meta, before: string, first: string): string {
    if meta.validated || first == "" then before else first
  }

  /** The login in the cache after such sessions. */
  function SessionLogin(w: World, sessions: seq<Session>, id: nat): Login
    requires id in w.meta && FirstName(sessions, id).Some?
  {
    var before, last := CachedLogin(w.db, id), LastPassword(sessions, id);
    Login(if w.meta[id].userNameSecret then NameAfter(w.meta[id], before.userName, FirstName(sessions, id).value) else "",
          if last != "" then last else before.password)
  }

  /** The metadata after such sessions: validated, with its flags, and its name unless that is secret. */
  function SessionMeta(w: World, sessions: seq<Session>, id: nat): Meta
    requires id in w.meta && FirstName(sessions, id).Some?
  {
    var meta := w.meta[id];
    Meta(if meta.userNameSecret then "" else NameAfter(meta, meta.userName, FirstName(sessions, id).value),
         true, meta.storePassword, meta.userNameSecret)
  }

  /** The cache after any sessions while the secrets database is closed. */
  ghost predicate SessionsLeave(w: World, sessions: seq<Session>, w': World, id: nat)
    requires id in w.meta
  {
    && !w'.db.open && w'.db.secrets == w.db.secrets && id in w'.meta
    && match FirstName(sessions, id)
       case None =>
         && w'.meta[id] == w.meta[id] && LastPassword(sessions, id) == ""
         && (id in w'.db.cache <==> id in w.db.cache)
         && (id in w.db.cache ==> w'.db.cache[id] == w.db.cache[id])
       case Some(first) =>
         && w'.meta[id] == SessionMeta(w, sessions, id)
         && id in w'.db.cache && w'.db.cache[id].login == SessionLogin(w, sessions, id)
         && w'.db.cache[id].storePassword == w.meta[id].storePassword
  }

  lemma OwnFinishIs(w: World, s: Session, junk: bool)
    requires !w.db.open && 0 < s.id && s.id in w.meta
    ensures var w', meta := FinishSession(w, s.id, s.userName, s.password, junk), w.meta[s.id];
      var loaded := CachedLogin(w.db, s.id);
      var newName := NewName(meta, loaded.userName, s.userName);
      && !w'.db.open && w'.db.secrets == w.db.secrets
      && s.id in w'.meta && w'.meta[s.id] == Validated(meta, newName)
      && s.id in w'.db.cache && w'.db.cache[s.id].storePassword == meta.storePassword
      && w'.db.cache[s.id].login == Login(if meta.userNameSecret then newName else "",
                                          if s.password != "" then s.password else loaded.password)
  {
    hide NewName;
  }

  lemma OtherFinishKeeps(w: World, s: Session, id: nat, junk: bool)
    requires !w.db.open && id in w.meta && id != s.id && Numbered(w)
    ensures var w' := FinishSession(w, s.id, s.userName, s.password, junk);
      && !w'.db.open && w'.db.secrets == w.db.secrets
      && id in w'.meta && w'.meta[id] == w.meta[id]
      && (id in w'.db.cache <==> id in w.db.cache)
      && (id in w.db.cache ==> w'.db.cache[id] == w.db.cache[id])
  {
    hide NewName, Validated;
  }

  lemma {:induction false} FinishLeaves(w: World, sessions: seq<Session>, w1: World, id: nat, junk: bool)
    requires sessions != [] && !w.db.open && 0 < id && id in w.meta && Numbered(w1)
    requires SessionsLeave(w, sessions[..|sessions| - 1], w1, id)
    ensures var s := sessions[|sessions| - 1];
      SessionsLeave(w, sessions, FinishSession(w1, s.id, s.userName, s.password, junk), id)
  {
    var s := sessions[|sessions| - 1];
    if s.id == id {
      OwnFinishIs(w1, s, junk);
    } else {
      OtherFinishKeeps(w1, s, id, junk);
    }
    hide FinishSession, Numbered, NewName;
  }

  lemma {:induction false} SessionsInCache(w: World, sessions: seq<Session>, junk: bool, id: nat)
    requires !w.db.open && Numbered(w) && id in w.meta
    ensures Numbered(FinishAll(w, sessions, junk))
    ensures SessionsLeave(w, sessions, FinishAll(w, sessions, junk), id)
  {
    if sessions != [] {
      hide FinishSession, SessionsLeave;
      var n := |sessions| - 1;
      var w1 := FinishAll(w, sessions[..n], junk);
      SessionsInCache(w, sessions[..n], junk, id);
      FinishGrows(w1, sessions[n], junk);
      FinishLeaves(w, sessions, w1, id, junk);
    }
  }

  /** What any run of sessions, finished while the secrets database is closed, stores for an
      identity once it opens: the user name of the first one counts, if the identity was not yet
      validated, and the last password; over what was in the cache, never over what is stored. */
  lemma SessionsStoreExactly(w: World, sessions: seq<Session>, junk: bool, id: nat, order: seq<Visit>)
    requires !w.db.open && Numbered(w) && id in w.meta && FirstName(sessions, id).Some?
    requires Covers(order, FinishAll(w, sessions, junk).db.cache)
    ensures var after := OpenSecretsDB(FinishAll(w, sessions, junk).db, order, true).secrets;
      var login := FlushedLogin(AuthCache(SessionLogin(w, sessions, id), w.meta[id].storePassword, map[]));
      if login.Some? then id in after.logins && after.logins[id] == login.value
      else SameLogin(after.logins, w.db.secrets.logins, id)
    ensures var w' := FinishAll(w, sessions, junk); id in w'.meta && w'.meta[id] == SessionMeta(w, sessions, id)
  {
    var st := FinishAll(w, sessions, junk).db;
    SessionsInCache(w, sessions, junk, id);
    CoveredIsVisited(order, st.cache, id);
    hide Covers, Visits, Visited, FinishAll, SessionLogin, SessionMeta;
    FlushLoginAt(w.db.secrets, st.cache, order, id);
  }

  /** Sessions that give no password, however many: the first user name replaces the stored login
      and erases its password exactly when the name is secret and the identity not yet validated;
      else the login stays. */
  lemma SessionsErasePasswordExactly(w: World, sessions: seq<Session>, junk: bool, id: nat, order: seq<Visit>)
    requires !w.db.open && Numbered(w) && id in w.meta && CachedLogin(w.db, id) == BLANK
    requires LastPassword(sessions, id) == ""
    requires Covers(order, FinishAll(w, sessions, junk).db.cache)
    ensures var after := OpenSecretsDB(FinishAll(w, sessions, junk).db, order, true).secrets;
      var meta, first := w.meta[id], FirstName(sessions, id);
      if meta.userNameSecret && !meta.validated && first.Some? && first.value != ""
      then id in after.logins && after.logins[id] == Login(first.value, "")
      else SameLogin(after.logins, w.db.secrets.logins, id)
  {
    if FirstName(sessions, id).Some? {
      SessionsStoreExactly(w, sessions, junk, id, order);
    } else {
      var st := FinishAll(w, sessions, junk).db;
      SessionsInCache(w, sessions, junk, id);
      CoveredIsVisited(order, st.cache, id);
      FlushLoginAt(w.db.secrets, st.cache, order, id);
    }
    hide Covers, Visits, Visited, FinishAll, Flush, FirstName, LastPassword;
  }
}
