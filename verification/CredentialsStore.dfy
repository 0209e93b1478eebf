/**
 The credentials database as its callers see it: an identity with its secrets, kept partly in
 the metadata tables and partly in the secrets database or the cache that stands in for it,
 and blobs stored under the name of a method.
 */
module CredentialsStore {
  import opened Wrappers
  import opened MetaDataTables
  import opened SecretsStore
  import opened C = SecretsCache
  import M = IdentityStore

  // ---------------------------------------------------------------- Data model

  datatype Creds = Creds(meta: DB, db: State)

  /** An identity as a client supplies it; a password or user name may be absent. */
  datatype Supplied = Supplied(info: M.Info, password: Option<string>, named: bool)

  predicate HasSecrets(i: Supplied) {
    i.password.Some? || (i.info.userNameSecret && i.named)
  }

  function LoginOf(i: Supplied): Login {
    Login(if i.info.userNameSecret then i.info.userName else "", if i.password.Some? then i.password.value else "")
  }

  // ------------------------------------------------------------ Operations, on values

  function UpdateCredentials(c: Creds, i: Supplied, junk: bool): (r: (Creds, nat)) {
    var (meta, id) := M.UpdateIdentity(c.meta, i.info);
    if id == 0 then (c.(meta := meta), 0)
    else (Creds(meta, if HasSecrets(i) then Do(c.db, Save(id, LoginOf(i), i.info.storePassword), junk) else c.db), id)
  }

  /** An identity with its password, and its user name whether or not that is secret. */
  function Credentials(c: Creds, id: nat): Option<(M.Identity, string)> {
    match M.ReadIdentity(c.meta, id)
    case None => None
    case Some(identity) =>
      var login := LoadLogin(c.db, id, identity.storePassword);
      Some((if identity.userNameSecret then identity.(userName := login.userName) else identity, login.password))
  }

  /** Refused while the secrets database is closed; the cache is not looked at. */
  function RemoveStored(c: Creds, id: nat): (r: (Creds, bool)) {
    if !c.db.open then (c, false)
    else (Creds(M.RemoveIdentity(c.meta, id), c.db.(secrets := RemoveCredentials(c.db.secrets, id))), true)
  }

  /** A method that is not known yet is interned. */
  function StoreNamed(c: Creds, id: nat, authMethod: string, data: seq<Entry>, junk: bool): (r: (Creds, bool)) {
    if id == 0 then (c, false)
    else
      var methods := Intern(c.meta.methods, authMethod);
      (Creds(c.meta.(methods := methods), Do(c.db, Blob(id, methods.ids[authMethod], data), junk)),
       !c.db.open || Fits(data))
  }

  /** A map as the cache holds it, null entries included. */
  function AllEntries(data: seq<Entry>): map<string, Value> {
    if data == [] then map[]
    else AllEntries(data[..|data| - 1])[data[|data| - 1].key := data[|data| - 1].value]
  }

  function CachedData(cache: Cache, id: nat, m: nat): map<string, Value> {
    if id in cache && m in cache[id].blobs then AllEntries(cache[id].blobs[m]) else map[]
  }

  /** The data of a method by its number, from the database or the cache. */
  function LoadNumbered(st: State, id: nat, m: nat): map<string, Value> {
    if st.open then LoadData(st.secrets, id, m) else CachedData(st.cache, id, m)
  }

  function LoadNamed(c: Creds, id: nat, authMethod: string): map<string, Value> {
    if id == 0 || authMethod !in c.meta.methods.ids then map[]
    else LoadNumbered(c.db, id, c.meta.methods.ids[authMethod])
  }

  // ----------------------------------------------------------------- Round trips

  /** Whether the secrets database is open or not, and whether or not the password may be stored:
      an identity that is written with a password or a secret user name reads back with them. */
  lemma {:induction false} CredentialsRoundTrip(c: Creds, i: Supplied, junk: bool)
    requires Integrity(c.meta) && M.WellFormed(i.info) && M.Exists(c.meta, i.info)
    requires i.password.Some? || (i.info.userNameSecret && i.named)
    ensures var (c', id) := UpdateCredentials(c, i, junk);
      && id > 0
      && Credentials(c', id) == Some((M.Expected(i.info, id).(userName := i.info.userName),
                                      if i.password.Some? then i.password.value else ""))
  {
    M.RoundTrip(c.meta, i.info);
    hide M.UpdateIdentity, M.ReadIdentity, M.ExpectedMethods;
  }

  /** The login of an identity in the secrets database and in the cache, if any. */
  datatype Places = Places(stored: Option<Login>, cached: Option<(Login, bool)>)

  function LoginPlaces(st: State, id: nat): Places {
    Places(if id in st.secrets.logins then Some(st.secrets.logins[id]) else None,
           if id in st.cache then Some((st.cache[id].login, st.cache[id].storePassword)) else None)
  }

  /** What an update with a password or a secret user name writes, and where: the password or none, and
      the user name only if it is secret; to the secrets database if that is open and the password
      may be stored, else to the cache; and no data. */
  lemma {:induction false} SavedLoginExactly(c: Creds, i: Supplied, junk: bool)
    requires M.Exists(c.meta, i.info) && M.IdOf(c.meta, i.info) != 0
    ensures var (c', id) := UpdateCredentials(c, i, junk);
      var login := Login(if i.info.userNameSecret then i.info.userName else "",
                         if i.password.Some? then i.password.value else "");
      var before := LoginPlaces(c.db, id);
      && id == M.IdOf(c.meta, i.info)
      && LoginPlaces(c'.db, id)
         == (if i.password.None? && !(i.info.userNameSecret && i.named) then before
             else if i.info.storePassword && c.db.open then before.(stored := Some(login))
             else before.(cached := Some((login, i.info.storePassword))))
      && c'.db.secrets.store == c.db.secrets.store && c'.db.open == c.db.open
  {
    M.UpdateCommits(c.meta, i.info);
    hide M.UpdateIdentity, M.Committed, M.IdOf;
  }

  /** An update of an identity that does not exist, when realms or access rows make it fail, leaves
      secrets and cache alone, and of the tables at most owner rows of nobody behind. */
  lemma FailedUpdateExactly(c: Creds, i: Supplied, junk: bool)
    requires !M.Exists(c.meta, i.info) && (i.info.realms != [] || M.AclInserts(i.info) != [])
    ensures UpdateCredentials(c, i, junk)
         == (c.(meta := if i.info.realms != [] then c.meta
                        else c.meta.(owner := c.meta.owner + M.Orphans(c.meta, i.info))), 0)
  {
    M.UpdateOfAbsent(c.meta, i.info);
    hide M.UpdateIdentity, M.Orphans, M.AclInserts;
  }

  lemma SaveKeepsOthers(st: State, id: nat, login: Login, storePassword: bool, junk: bool, other: nat, stored: bool)
    requires other != id
    ensures LoadLogin(Do(st, Save(id, login, storePassword), junk), other, stored) == LoadLogin(st, other, stored)
  {
  }

  /** No other identity changes, nor its secrets, even when the update fails; without secrets in
      the update no secret changes at all. */
  lemma {:induction false} UpdateKeepsOthers(c: Creds, i: Supplied, junk: bool, other: nat)
    requires Integrity(c.meta) && other != M.IdOf(c.meta, i.info)
    ensures Credentials(UpdateCredentials(c, i, junk).0, other) == Credentials(c, other)
    ensures i.password.None? && !(i.info.userNameSecret && i.named) ==> UpdateCredentials(c, i, junk).0.db == c.db
  {
    M.UpdateFrames(c.meta, i.info, other);
    UpdateReturns(c.meta, i.info);
    hide M.UpdateIdentity, M.ReadIdentity, Do, LoadLogin, LoginOf, Integrity, HasSecrets;
    match M.ReadIdentity(c.meta, other)
    case None =>
    case Some(identity) =>
      SaveKeepsOthers(c.db, M.IdOf(c.meta, i.info), LoginOf(i), i.info.storePassword, junk, other, identity.storePassword);
  }

  lemma UpdateReturns(db: DB, info: M.Info)
    ensures M.UpdateIdentity(db, info).1 in {0, M.IdOf(db, info)}
  {
    if M.Exists(db, info) {
      M.UpdateCommits(db, info);
    } else {
      M.UpdateOfAbsent(db, info);
      M.NoInserts(info);
    }
  }

  lemma {:induction false} NumberedDataLoads(st: State, id: nat, m: nat, data: seq<Entry>, junk: bool, id': nat, m': nat)
    requires id != 0
    ensures var t := Do(st, Blob(id, m, data), junk);
      && t.open == st.open
      && (st.open && !Fits(data) ==> t == st)
      && (!st.open || Fits(data) ==> LoadNumbered(t, id, m) == if st.open then NonNull(data) else AllEntries(data))
      && ((id', m') != (id, m) ==> LoadNumbered(t, id', m') == LoadNumbered(st, id', m'))
  {
    StoreThenLoad(st.secrets, id, m, data, id', m');
    hide LoadData, StoreData, Fits, NonNull, AllEntries;
  }

  /** No data is kept under a number that no method has had yet. */
  ghost predicate Numbered(c: Creds) {
    NumberedBelow(c.db, c.meta.methods.next)
  }

  ghost predicate NumberedBelow(st: State, next: nat) {
    && (forall t <- st.secrets.store :: t.authMethod < next)
    && (forall id, m :: id in st.cache && m in st.cache[id].blobs ==> m < next)
  }

  lemma NewNumberHasNoData(c: Creds, id: nat)
    requires Numbered(c)
    ensures LoadNumbered(c.db, id, c.meta.methods.next) == map[]
  {
    if c.db.open {
      forall k ensures k !in LoadData(c.db.secrets, id, c.meta.methods.next) {
        LoadedAt(c.db.secrets, id, c.meta.methods.next, k);
      }
    }
  }

  /** Data stored under the name of a method is loaded under that name: all of it from the cache,
      the non-null entries from the database unless it was too large; no other data changes. */
  lemma {:induction false} StoredDataLoads(c: Creds, id: nat, authMethod: string, data: seq<Entry>, junk: bool,
                                           id': nat, other: string)
    requires Integrity(c.meta) && Numbered(c) && id != 0 && (id', other) != (id, authMethod)
    ensures var (c', ok) := StoreNamed(c, id, authMethod, data, junk);
      && (ok <==> !c.db.open || Fits(data))
      && (ok ==> LoadNamed(c', id, authMethod) == if c.db.open then NonNull(data) else AllEntries(data))
      && (!ok ==> c'.db == c.db)
      && LoadNamed(c', id', other) == LoadNamed(c, id', other)
  {
    var methods := Intern(c.meta.methods, authMethod);
    var m := methods.ids[authMethod];
    var m' := if other in methods.ids then methods.ids[other] else m + 1;
    assert other != authMethod ==> m' != m && (other in methods.ids <==> other in c.meta.methods.ids);
    if authMethod !in c.meta.methods.ids {
      NewNumberHasNoData(c, id');
    }
    hide Numbered;
    hide Integrity, Do, LoadNumbered, Fits, NonNull, AllEntries;
    NumberedDataLoads(c.db, id, m, data, junk, id', m');
  }

  lemma {:induction false} AllEntriesKey(data: seq<Entry>, k: string)
    ensures k in AllEntries(data) <==> exists i :: 0 <= i < |data| && data[i].key == k
  {
    if data != [] {
      var n := |data| - 1;
      AllEntriesKey(data[..n], k);
      if i :| 0 <= i < |data| && data[i].key == k {
        assert i < n ==> data[..n][i] == data[i];
      }
      if k in AllEntries(data[..n]) {
        var i :| 0 <= i < n && data[..n][i].key == k;
        assert data[i].key == k;
      }
    }
  }

  lemma {:induction false} AllEntriesValue(data: seq<Entry>, i: nat)
    requires DistinctKeys(data) && i < |data|
    ensures data[i].key in AllEntries(data) && AllEntries(data)[data[i].key] == data[i].value
  {
    var n := |data| - 1;
    if i < n {
      AllEntriesValue(data[..n], i);
      assert data[i].key != data[n].key;
    }
  }

  /** Exactly the keys given, each with its value. */
  lemma {:induction false} AllEntriesExactly(data: seq<Entry>)
    ensures forall k :: k in AllEntries(data) <==> exists i :: 0 <= i < |data| && data[i].key == k
    ensures DistinctKeys(data) ==> forall i :: 0 <= i < |data| ==> AllEntries(data)[data[i].key] == data[i].value
  {
    hide AllEntries, DistinctKeys;
    forall k ensures k in AllEntries(data) <==> exists i :: 0 <= i < |data| && data[i].key == k {
      AllEntriesKey(data, k);
    }
    if DistinctKeys(data) {
      forall i | 0 <= i < |data| ensures AllEntries(data)[data[i].key] == data[i].value {
        AllEntriesValue(data, i);
      }
    }
  }

  /** Entry by entry: what was stored is loaded, each key with its value and no other key; but a
      database, unlike the cache, keeps no null value.  For nobody, nothing is stored. */
  lemma {:induction false} StoredEntriesLoad(c: Creds, id: nat, authMethod: string, data: seq<Entry>, junk: bool)
    requires Integrity(c.meta) && Numbered(c) && DistinctKeys(data)
    ensures var (c', ok) := StoreNamed(c, id, authMethod, data, junk);
      var loaded := LoadNamed(c', id, authMethod);
      && (ok <==> id != 0 && (!c.db.open || Fits(data)))
      && (id == 0 ==> c' == c && loaded == map[])
      && (ok ==>
            && (forall k :: k in loaded <==>
                  exists j :: 0 <= j < |data| && data[j].key == k && !(c.db.open && data[j].value.isNull))
            && forall j :: 0 <= j < |data| && !(c.db.open && data[j].value.isNull) ==> loaded[data[j].key] == data[j].value)
  {
    if id != 0 {
      StoredDataLoads(c, id, authMethod, data, junk, 0, authMethod);
    }
    NonNullExactly(data);
    AllEntriesExactly(data);
    hide StoreNamed, LoadNamed, NonNull, AllEntries, Fits, Integrity, Numbered, DistinctKeys;
    RefusedForNobody(c, authMethod, data, junk);
  }

  lemma RefusedForNobody(c: Creds, authMethod: string, data: seq<Entry>, junk: bool)
    ensures StoreNamed(c, 0, authMethod, data, junk) == (c, false) && LoadNamed(c, 0, authMethod) == map[]
  {
  }

  lemma {:induction false} BlobIsNumbered(st: State, id: nat, m: nat, data: seq<Entry>, junk: bool, next: nat)
    requires NumberedBelow(st, next) && m < next
    ensures NumberedBelow(Do(st, Blob(id, m, data), junk), next)
  {
    hide NonNull, Fits;
  }

  lemma SaveIsNumbered(st: State, id: nat, login: Login, storePassword: bool, junk: bool, next: nat, next': nat)
    requires NumberedBelow(st, next) && next <= next'
    ensures NumberedBelow(st, next') && NumberedBelow(Do(st, Save(id, login, storePassword), junk), next')
  {
  }

  lemma {:induction false} StoringKeepsNumbers(c: Creds, id: nat, authMethod: string, data: seq<Entry>, junk: bool)
    requires Integrity(c.meta) && Numbered(c)
    ensures Numbered(StoreNamed(c, id, authMethod, data, junk).0)
  {
    var methods := Intern(c.meta.methods, authMethod);
    assert methods.ids[authMethod] < methods.next;
    SaveIsNumbered(c.db, 0, BLANK, true, junk, c.meta.methods.next, methods.next);
    BlobIsNumbered(c.db, id, methods.ids[authMethod], data, junk, methods.next);
    hide NumberedBelow, Do, Integrity, Fits;
  }

  lemma UpdatingKeepsNumbers(c: Creds, i: Supplied, junk: bool)
    requires Integrity(c.meta) && Numbered(c)
    ensures Numbered(UpdateCredentials(c, i, junk).0)
  {
    hide M.UpdateIdentity, Integrity, HasSecrets, LoginOf, NumberedBelow, Do;
    MethodNumbersGrow(c.meta, i.info);
    var (meta, id) := M.UpdateIdentity(c.meta, i.info);
    SaveIsNumbered(c.db, id, LoginOf(i), i.info.storePassword, junk, c.meta.methods.next, meta.methods.next);
  }

  lemma MethodNumbersGrow(db: DB, info: M.Info)
    requires Integrity(db)
    ensures M.UpdateIdentity(db, info).0.methods.next >= db.methods.next
  {
    if M.Exists(db, info) {
      M.UpdateCommits(db, info);
      InterningGrows(db, info.methods);
    } else {
      M.UpdateOfAbsent(db, info);
      M.NoInserts(info);
    }
  }

  lemma {:induction false} InterningGrows(db: DB, entries: seq<M.MethodEntry>)
    ensures M.InternMethods(db, entries).methods.next >= db.methods.next
  {
    if entries != [] {
      InterningGrows(db, entries[..|entries| - 1]);
    }
  }

  lemma RemovalKeepsNumbers(c: Creds, id: nat)
    requires Numbered(c)
    ensures Numbered(RemoveStored(c, id).0)
  {
  }

  lemma OpeningKeepsNumbers(c: Creds, order: seq<Visit>)
    requires Numbered(c) && Covers(order, c.db.cache)
    ensures Numbered(c.(db := OpenSecretsDB(c.db, order, true)))
  {
    var after := Flush(c.db.secrets, c.db.cache, order);
    forall t <- after.store
      ensures t.authMethod < c.meta.methods.next
    {
      CoveredIsVisited(order, c.db.cache, t.id);
      FlushedDataAt(c.db.secrets, c.db.cache, order, t.id, t.authMethod);
      assert t == StoreKey(t.id, t.authMethod, t.key);
      LoadedAt(after, t.id, t.authMethod, t.key);
      LoadedAt(c.db.secrets, t.id, t.authMethod, t.key);
      hide Covers, Visits, VisitsAllData, Visited, Flush, LoadData, NonNull, Fits;
    }
  }

  datatype Event =
    | Update(supplied: Supplied)
    | Remove(id: nat)
    | Store(id: nat, authMethod: string, data: seq<Entry>)
    | CloseSecrets
    | OpenSecrets(order: seq<Visit>)

  ghost predicate Enabled(c: Creds, e: Event) {
    match e
    case Update(i) => M.Harmless(c.meta, i.info)
    case OpenSecrets(order) => Covers(order, c.db.cache)
    case _ => true
  }

  function Step(c: Creds, e: Event, junk: bool): Creds
    requires e.OpenSecrets? ==> Visits(e.order, c.db.cache)
  {
    match e
    case Update(i) => UpdateCredentials(c, i, junk).0
    case Remove(id) => RemoveStored(c, id).0
    case Store(id, authMethod, data) => StoreNamed(c, id, authMethod, data, junk).0
    case CloseSecrets => c.(db := c.db.(open := false))
    case OpenSecrets(order) => c.(db := OpenSecretsDB(c.db, order, true))
  }

  lemma InternedMethodKeepsIntegrity(db: DB, authMethod: string)
    requires Integrity(db)
    ensures Integrity(db.(methods := Intern(db.methods, authMethod)))
    ensures M.NamesExtend(db, db.(methods := Intern(db.methods, authMethod)))
  {
    var db' := db.(methods := Intern(db.methods, authMethod));
    M.OldRowsStayOk(db, db');
    assert NameTablesInv(db');
    hide NameTablesInv, AclOk, TokenOk;
  }

  /** What the round trips need holds in every state that the operations lead to. */
  lemma {:induction false} StepKeepsCreds(c: Creds, e: Event, junk: bool)
    requires Integrity(c.meta) && Numbered(c) && Enabled(c, e)
    ensures (e.OpenSecrets? ==> Visits(e.order, c.db.cache))
    ensures Integrity(Step(c, e, junk).meta) && Numbered(Step(c, e, junk))
  {
    match e
    case Update(i) =>
      M.UpdateKeepsIntegrityExactly(c.meta, i.info);
      UpdatingKeepsNumbers(c, i, junk);
    case Remove(id) =>
      M.RemovalKeepsIntegrity(c.meta, id);
      RemovalKeepsNumbers(c, id);
    case Store(id, authMethod, data) =>
      InternedMethodKeepsIntegrity(c.meta, authMethod);
      StoringKeepsNumbers(c, id, authMethod, data, junk);
    case CloseSecrets =>
    case OpenSecrets(order) => OpeningKeepsNumbers(c, order);
    hide Integrity, M.UpdateIdentity, M.RemoveIdentity, M.Harmless;
  }

  // ------------------------------------------------ What is left behind when removing

  /** Removal takes the identity and its secrets out of both databases ... */
  lemma RemovalForgets(c: Creds, id: nat, m: nat)
    requires Integrity(c.meta) && c.db.open
    ensures var (c', ok) := RemoveStored(c, id);
      && ok && !Mentions(c'.meta, id) && Credentials(c', id) == None
      && id !in c'.db.secrets.logins && LoadData(c'.db.secrets, id, m) == map[]
      && c'.db.cache == c.db.cache
  {
    M.RemovalRemoves(c.meta, id, id + 1);
    LoginsAndData(c.db.secrets, id, BLANK, id + 1, m);
    hide Integrity, M.RemoveIdentity, RemoveCredentials, LoadData;
  }

  /** It succeeds exactly while the secrets database is open.  Refused, it leaves both databases and
      the cache as they were, and every identity reads as before, this one too; done, it leaves
      every other identity its credentials and its data. */
  lemma {:induction false} RemovalExactly(c: Creds, id: nat, other: nat, authMethod: string)
    requires Integrity(c.meta)
    ensures var (c', ok) := RemoveStored(c, id);
      && (ok <==> c.db.open)
      && (!ok ==> c'.meta == c.meta && c'.db == c.db)
      && (!ok || other != id ==>
            Credentials(c', other) == Credentials(c, other) && LoadNamed(c', other, authMethod) == LoadNamed(c, other, authMethod))
      && (ok ==> Credentials(c', id) == None && LoadNamed(c', id, authMethod) == map[])
  {
    if c.db.open {
      RemovedReadsEmpty(c, id, authMethod);
      if other != id {
        RemovalKeepsOthers(c, id, other, authMethod);
      }
    } else {
      SameCredentials(c, RemoveStored(c, id).0, other);
    }
    hide Integrity, M.RemoveIdentity, Credentials, LoadNamed, RemoveCredentials;
  }

  lemma RemovedReadsEmpty(c: Creds, id: nat, authMethod: string)
    requires Integrity(c.meta) && c.db.open
    ensures var c' := RemoveStored(c, id).0; Credentials(c', id) == None && LoadNamed(c', id, authMethod) == map[]
  {
    RemovalForgets(c, id, if authMethod in c.meta.methods.ids then c.meta.methods.ids[authMethod] else 0);
    RemovalKeepsMethods(c.meta, id);
    hide Integrity, M.RemoveIdentity, Credentials, RemoveCredentials, LoadData, Mentions;
  }

  lemma RemovalKeepsOthers(c: Creds, id: nat, other: nat, authMethod: string)
    requires Integrity(c.meta) && c.db.open && other != id
    ensures var c' := RemoveStored(c, id).0;
      Credentials(c', other) == Credentials(c, other) && LoadNamed(c', other, authMethod) == LoadNamed(c, other, authMethod)
  {
    var c' := RemoveStored(c, id).0;
    assert c' == Creds(M.RemoveIdentity(c.meta, id), c.db.(secrets := RemoveCredentials(c.db.secrets, id)));
    RemovalKeepsMethods(c.meta, id);
    M.RemovalRemoves(c.meta, id, other);
    hide RemoveStored, M.RemoveIdentity, RemoveCredentials, Credentials, LoadNamed, Integrity, Mentions;
    RemovalKeepsLogin(c.db, id, other, true);
    RemovalKeepsLogin(c.db, id, other, false);
    SameCredentials(c, c', other);
    RemovalKeepsData(c, c', id, other, authMethod);
  }

  lemma SameCredentials(c: Creds, c': Creds, id: nat)
    requires M.ReadIdentity(c'.meta, id) == M.ReadIdentity(c.meta, id)
    requires LoadLogin(c'.db, id, true) == LoadLogin(c.db, id, true)
    requires LoadLogin(c'.db, id, false) == LoadLogin(c.db, id, false)
    ensures Credentials(c', id) == Credentials(c, id)
  {
    hide M.ReadIdentity, LoadLogin;
  }

  lemma RemovalKeepsData(c: Creds, c': Creds, id: nat, other: nat, authMethod: string)
    requires other != id && c.db.open
    requires c'.meta.methods == c.meta.methods && c'.db == c.db.(secrets := RemoveCredentials(c.db.secrets, id))
    ensures LoadNamed(c', other, authMethod) == LoadNamed(c, other, authMethod)
  {
    if authMethod in c.meta.methods.ids {
      LoginsAndData(c.db.secrets, id, BLANK, other, c.meta.methods.ids[authMethod]);
    }
    hide RemoveCredentials, LoadData;
  }

  lemma RemovalKeepsLogin(st: State, id: nat, other: nat, stored: bool)
    requires other != id
    ensures LoadLogin(st.(secrets := RemoveCredentials(st.secrets, id)), other, stored) == LoadLogin(st, other, stored)
  {
  }

  lemma RemovalKeepsMethods(db: DB, id: nat)
    ensures M.RemoveIdentity(db, id).methods == db.methods
  {
  }

  /** ... but not out of the cache: once the database has been closed and opened again, it holds
      a login of the removed identity exactly when the cache had one to write, and data of it
      exactly as the cache had. */
  lemma RemovedSecretsComeBackExactly(c: Creds, id: nat, m: nat, order: seq<Visit>)
    requires Integrity(c.meta) && c.db.open && Covers(order, c.db.cache)
    ensures var closed := RemoveStored(c, id).0.db.(open := false);
      var after := OpenSecretsDB(closed, order, true);
      && LoginRow(after.secrets.logins, id) == (if id in c.db.cache then FlushedLogin(c.db.cache[id]) else None)
      && LoadData(after.secrets, id, m)
         == if id in c.db.cache && m in c.db.cache[id].blobs && Fits(c.db.cache[id].blobs[m])
            then NonNull(c.db.cache[id].blobs[m]) else map[]
  {
    RemovalForgets(c, id, m);
    var removed := RemoveCredentials(c.db.secrets, id);
    CoveredIsVisited(order, c.db.cache, id);
    FlushLoginAt(removed, c.db.cache, order, id);
    FlushedDataAt(removed, c.db.cache, order, id, m);
    hide Integrity, M.RemoveIdentity, RemoveCredentials, LoadData, Flush, Covers, Visits, VisitsAllData, Visited;
    hide FlushedLogin, NonNull, Fits, Mentions, Credentials;
  }

  /** A password that may no longer be stored is only cached, and the stored row stays as it is
      while the database is open; after the next opening the old row is still there exactly when
      there is no secret user name to write. */
  lemma UnstoredPasswordStaysExactly(c: Creds, i: Supplied, junk: bool, order: seq<Visit>)
    requires Integrity(c.meta) && M.Exists(c.meta, i.info) && HasSecrets(i)
    requires c.db.open && !i.info.storePassword
    requires Covers(order, UpdateCredentials(c, i, junk).0.db.cache)
    ensures var (c', id) := UpdateCredentials(c, i, junk);
      var after := OpenSecretsDB(c'.db.(open := false), order, true);
      && c'.db.secrets == c.db.secrets
      && LoginRow(after.secrets.logins, id)
         == if LoginOf(i).userName != "" then Some(Login(LoginOf(i).userName, "")) else LoginRow(c.db.secrets.logins, id)
  {
    CachedWhenUnstored(c, i, junk);
    var (c', id) := UpdateCredentials(c, i, junk);
    hide UpdateCredentials, LoginOf, Flush, Covers, Visits, Visited, VisitsAllData, Integrity, HasSecrets, M.Exists;
    CoveredIsVisited(order, c'.db.cache, id);
    FlushLoginAt(c'.db.secrets, c'.db.cache, order, id);
  }

  lemma CachedWhenUnstored(c: Creds, i: Supplied, junk: bool)
    requires Integrity(c.meta) && M.Exists(c.meta, i.info) && HasSecrets(i) && c.db.open && !i.info.storePassword
    ensures var (c', id) := UpdateCredentials(c, i, junk);
      && c'.db.secrets == c.db.secrets && id in c'.db.cache
      && c'.db.cache[id].login == LoginOf(i) && !c'.db.cache[id].storePassword
  {
    M.UpdateCommits(c.meta, i.info);
    hide M.UpdateIdentity, M.Committed, LoginOf, HasSecrets;
  }
}
