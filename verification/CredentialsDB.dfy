/**
 The secrets database, its cache and the credentials database over them as objects.
 */
module CredentialsDB {
  import opened Wrappers
  import opened MetaDataTables
  import MetaDataDB
  import M = IdentityStore
  import Store = CredentialsStore
  import opened SecretsStore
  import opened SecretsCache

  class SecretsDB {
    var logins: map<nat, Login>
    var store: map<StoreKey, Value>

    ghost function View(): Secrets
      reads this
    {
      Secrets(logins, store)
    }

    constructor ()
      ensures View() == Secrets(map[], map[])
    {
      logins, store := map[], map[];
    }

    method UpdateCredentials(id: nat, login: Login)
      modifies this
      ensures View() == UpdateLogin(old(View()), id, login)
    {
      logins := logins[id := login];
    }

    /** Delete, then insert under a running counter; any failure rolls everything back. */
    method StoreMethodData(id: nat, m: nat, data: seq<Entry>) returns (ok: bool)
      modifies this`store
      ensures (View(), ok) == StoreData(old(View()), id, m, data)
    {
      var saved := store;
      store := DeleteData(store, id, m);
      var allOk := true;
      var dataCounter := 0;
      var i := 0;
      while i < |data| && allOk
        invariant 0 <= i <= |data|
        invariant dataCounter == Total(data[..i])
        invariant allOk ==> dataCounter < MAX_TOKEN_STORAGE
        invariant allOk ==> store == DeleteData(saved, id, m) + AtKeys(id, m, NonNull(data[..i]))
        invariant !allOk ==> dataCounter >= MAX_TOKEN_STORAGE
      {
        var e := data[i];
        assert data[..i + 1][..i] == data[..i];
        dataCounter := dataCounter + |e.key| + |e.value.encoding|;
        if dataCounter >= MAX_TOKEN_STORAGE {
          allOk := false;
        } else if !e.value.isNull {
          InsertedAt(DeleteData(saved, id, m), id, m, NonNull(data[..i]), e.key, e.value);
          store := store[StoreKey(id, m, e.key) := e.value];
        }
        i := i + 1;
      }
      TotalGrows(data, i);
      assert i == |data| ==> data[..i] == data;
      if allOk {
        return true;
      }
      store := saved;
      return false;
    }

    static lemma InsertedAt(base: map<StoreKey, Value>, id: nat, m: nat, values: map<string, Value>, k: string, v: Value)
      ensures (base + AtKeys(id, m, values))[StoreKey(id, m, k) := v] == base + AtKeys(id, m, values[k := v])
    {
    }

    /** The counter only grows, so where the loop stops does not matter. */
    static lemma {:induction false} TotalGrows(data: seq<Entry>, i: nat)
      requires i <= |data|
      ensures Total(data[..i]) <= Total(data)
    {
      if i == |data| {
        assert data[..i] == data;
      } else {
        assert data[..|data| - 1][..i] == data[..i];
        TotalGrows(data[..|data| - 1], i);
      }
    }

    method LoadMethodData(id: nat, m: nat) returns (result: map<string, Value>)
      ensures result == LoadData(View(), id, m)
    {
      result := map[];
      var rows := set t | t in store && t.id == id && t.authMethod == m;
      while rows != {}
        invariant forall t :: t in rows ==> t in store && t.id == id && t.authMethod == m
        invariant forall k :: k in result ==> StoreKey(id, m, k) in store && result[k] == store[StoreKey(id, m, k)]
        invariant forall t :: t in store && t.id == id && t.authMethod == m ==> t in rows || t.key in result
        decreases rows
      {
        var t :| t in rows;
        assert t == StoreKey(id, m, t.key);
        result := result[t.key := store[t]];
        rows := rows - {t};
      }
      forall k
        ensures k in result <==> k in LoadData(View(), id, m)
      {
        LoadedAt(View(), id, m, k);
      }
    }

    method RemoveMethodData(id: nat, m: nat)
      modifies this`store
      ensures View() == RemoveData(old(View()), id, m)
    {
      if m == 0 {
        store := map t | t in store && t.id != id :: store[t];
      } else {
        store := map t | t in store && !(t.id == id && t.authMethod == m) :: store[t];
      }
    }

    /** The trigger of the first DELETE and the second DELETE remove the same rows. */
    method RemoveAll(id: nat)
      modifies this
      ensures View() == RemoveCredentials(old(View()), id)
    {
      if id in logins {
        store := map t | t in store && t.id != id :: store[t];
        logins := logins - {id};
      }
      store := map t | t in store && t.id != id :: store[t];
    }
  }

  class Database {
    const secretsStorage: SecretsDB
    var isOpen: bool
    var cache: Cache
    // The identities, and the number of the next one.
    var meta: map<nat, Meta>
    var nextId: nat

    ghost function View(): State
      reads this, secretsStorage
    {
      State(isOpen, secretsStorage.View(), cache)
    }

    constructor ()
      ensures fresh(secretsStorage) && View() == State(false, Secrets(map[], map[]), map[])
    {
      secretsStorage := new SecretsDB();
      isOpen, cache, meta, nextId := false, map[], map[], 1;
    }

    /** The secrets part of updateCredentials for the identity `id`. */
    method UpdateCredentials(id: nat, login: Login, storePassword: bool, junk: bool)
      modifies this, secretsStorage
      ensures View() == Do(old(View()), Save(id, login, storePassword), junk)
      ensures meta == old(meta) && nextId == old(nextId)
    {
      if id == 0 {
        return;
      }
      if storePassword && isOpen {
        secretsStorage.UpdateCredentials(id, login);
      } else {
        cache := CacheLogin(cache, id, login, storePassword, junk);
      }
    }

    method StoreAuthData(id: nat, m: nat, data: seq<Entry>, junk: bool) returns (ok: bool)
      modifies this, secretsStorage
      ensures View() == Do(old(View()), Blob(id, m, data), junk)
      ensures ok == (id != 0 && (!old(isOpen) || Fits(data)))
    {
      if id == 0 {
        return false;
      }
      if isOpen {
        ok := secretsStorage.StoreMethodData(id, m, data);
      } else {
        cache := CacheData(cache, id, m, data, junk);
        ok := true;
      }
    }

    /** One visit of the flush loop. */
    method FlushEntry(e: AuthCache, v: Visit)
      requires forall m :: m in v.methods ==> m in e.blobs
      modifies secretsStorage
      ensures secretsStorage.View() == FlushOne(old(secretsStorage.View()), e, v)
    {
      var password := if e.storePassword then e.login.password else "";
      if e.login.userName != "" || password != "" {
        secretsStorage.UpdateCredentials(v.id, Login(e.login.userName, password));
      }
      ghost var before := secretsStorage.View();
      for j := 0 to |v.methods|
        invariant secretsStorage.View() == FlushData(before, v.id, e.blobs, v.methods[..j])
      {
        NextMethod(before, v.id, e.blobs, v.methods, j);
        hide FlushData, StoreData;
        var _ := secretsStorage.StoreMethodData(v.id, v.methods[j], e.blobs[v.methods[j]]);
      }
      assert v.methods[..|v.methods|] == v.methods;
    }

    /** `order` is the iteration order of the hash; `ok` whether the storage initializes. */
    method OpenSecrets(order: seq<Visit>, ok: bool) returns (r: bool)
      requires Visits(order, cache)
      modifies this, secretsStorage
      ensures r == ok && View() == OpenSecretsDB(old(View()), order, ok)
    {
      if !ok {
        return false;
      }
      isOpen := true;
      FlushCache(order);
      cache := map[];
      return true;
    }

    method FlushCache(order: seq<Visit>)
      requires Visits(order, cache)
      modifies secretsStorage
      ensures secretsStorage.View() == Flush(old(secretsStorage.View()), cache, order)
    {
      ghost var before := secretsStorage.View();
      for i := 0 to |order|
        invariant Visits(order[..i], cache)
        invariant secretsStorage.View() == Flush(before, cache, order[..i])
      {
        NextVisit(before, cache, order, i);
        hide Flush, Visits, FlushOne;
        FlushEntry(cache[order[i].id], order[i]);
      }
      assert order[..|order|] == order;
    }

    method CloseSecrets()
      modifies this`isOpen
      ensures View() == old(View()).(open := false)
    {
      isOpen := false;
    }

    method LookupLogin(id: nat, storePassword: bool) returns (login: Login)
      ensures login == LoadLogin(View(), id, storePassword)
    {
      login := BLANK;
      if storePassword && isOpen {
        if id in secretsStorage.logins {
          login := secretsStorage.logins[id];
        }
      } else {
        if id in cache {
          login := cache[id].login;
        }
      }
    }

    /** The database part of SignonSessionCore::processResultReply. */
    method FinishOneSession(id: nat, tmpUserName: string, tmpPassword: string, junk: bool)
      modifies this, secretsStorage
      ensures World(meta, nextId, View())
           == FinishSession(old(World(meta, nextId, View())), id, tmpUserName, tmpPassword, junk)
    {
      if id == 0 {
        return;
      }
      if id in meta {
        var info := meta[id];
        var login := LookupLogin(id, info.storePassword);
        var userName := if info.userNameSecret then login.userName else info.userName;
        var password := login.password;
        if !info.validated && tmpUserName != "" {
          userName := tmpUserName;
        }
        if tmpPassword != "" {
          password := tmpPassword;
        }
        meta := meta[id := Meta(if info.userNameSecret then "" else userName, true, info.storePassword, info.userNameSecret)];
        UpdateCredentials(id, Login(if info.userNameSecret then userName else "", password), info.storePassword, junk);
      } else {
        InsertFinished(tmpUserName, tmpPassword, junk);
      }
    }

    /** No row was read, so the information is new and gets a row of its own. */
    method InsertFinished(tmpUserName: string, tmpPassword: string, junk: bool)
      modifies this, secretsStorage
      ensures meta == old(meta)[old(nextId) := Meta(tmpUserName, true, false, false)] && nextId == old(nextId) + 1
      ensures View() == if tmpPassword == "" then old(View())
                        else Do(old(View()), Save(old(nextId), Login("", tmpPassword), false), junk)
    {
      var id := nextId;
      nextId := nextId + 1;
      meta := meta[id := Meta(tmpUserName, true, false, false)];
      if tmpPassword != "" {
        UpdateCredentials(id, Login("", tmpPassword), false, junk);
      }
    }
  }

  class CredentialsDB {
    const metaDataDB: MetaDataDB.MetaDataDB
    const secrets: Database

    ghost function View(): Store.Creds
      reads this, metaDataDB, secrets, secrets.secretsStorage
    {
      Store.Creds(metaDataDB.tables, secrets.View())
    }

    constructor ()
      ensures fresh(metaDataDB) && fresh(secrets) && fresh(secrets.secretsStorage)
      ensures metaDataDB.saved == None && View() == Store.Creds(EMPTY, State(false, Secrets(map[], map[]), map[]))
    {
      metaDataDB := new MetaDataDB.MetaDataDB();
      secrets := new Database();
    }

    method UpdateCredentials(i: Store.Supplied, junk: bool) returns (id: nat)
      requires metaDataDB.saved == None
      modifies metaDataDB, secrets, secrets.secretsStorage
      ensures metaDataDB.saved == None && (View(), id) == Store.UpdateCredentials(old(View()), i, junk)
      ensures old(Integrity(metaDataDB.tables) && M.Exists(metaDataDB.tables, i.info))
              && M.WellFormed(i.info) && Store.HasSecrets(i) ==>
                && id > 0
                && Store.Credentials(View(), id)
                   == Some((M.Expected(i.info, id).(userName := i.info.userName), Store.LoginOf(i).password))
    {
      hide Integrity, M.Exists, M.WellFormed, M.UpdateIdentity, M.Harmless, Store.Credentials, M.Expected, M.ReadIdentity;
      if Integrity(metaDataDB.tables) && M.Exists(metaDataDB.tables, i.info) && M.WellFormed(i.info)
         && Store.HasSecrets(i) {
        Store.CredentialsRoundTrip(View(), i, junk);
      }
      id := metaDataDB.UpdateIdentity(i.info);
      if id == 0 {
        return;
      }
      if i.password.Some? || (i.info.userNameSecret && i.named) {
        var password := if i.password.Some? then i.password.value else "";
        var userName := "";
        if i.info.userNameSecret {
          userName := i.info.userName;
        }
        secrets.UpdateCredentials(id, Login(userName, password), i.info.storePassword, junk);
      }
    }

    method Credentials(id: nat) returns (r: Option<(M.Identity, string)>)
      ensures r == Store.Credentials(View(), id)
    {
      hide M.ReadIdentity;
      var info := metaDataDB.Identity(id);
      if info.None? {
        return None;
      }
      var identity := info.value;
      var login := secrets.LookupLogin(id, identity.storePassword);
      if identity.userNameSecret {
        identity := identity.(userName := login.userName);
      }
      return Some((identity, login.password));
    }

    method RemoveStored(id: nat) returns (ok: bool)
      requires metaDataDB.saved == None
      modifies metaDataDB, secrets.secretsStorage
      ensures metaDataDB.saved == None && (View(), ok) == Store.RemoveStored(old(View()), id)
    {
      hide M.RemoveIdentity, RemoveCredentials;
      if !secrets.isOpen {
        return false;
      }
      secrets.secretsStorage.RemoveAll(id);
      metaDataDB.RemoveIdentity(id);
      return true;
    }

    method StoreNamed(id: nat, authMethod: string, data: seq<Entry>, junk: bool) returns (ok: bool)
      modifies metaDataDB`tables, secrets, secrets.secretsStorage
      ensures (View(), ok) == Store.StoreNamed(old(View()), id, authMethod, data, junk)
    {
      hide Fits;
      if id == 0 {
        return false;
      }
      if authMethod !in metaDataDB.tables.methods.ids {
        var inserted := metaDataDB.InsertMethod(authMethod);
      }
      ok := secrets.StoreAuthData(id, metaDataDB.tables.methods.ids[authMethod], data, junk);
    }

    method LoadNamed(id: nat, authMethod: string) returns (data: map<string, Value>)
      ensures data == Store.LoadNamed(View(), id, authMethod)
    {
      if id == 0 {
        return map[];
      }
      if authMethod !in metaDataDB.tables.methods.ids {
        return map[];
      }
      var m := metaDataDB.tables.methods.ids[authMethod];
      if secrets.isOpen {
        data := secrets.secretsStorage.LoadMethodData(id, m);
      } else {
        data := Store.CachedData(secrets.cache, id, m);
      }
    }
  }

  lemma NextMethod(s: Secrets, id: nat, blobs: map<nat, seq<Entry>>, methods: seq<nat>, j: nat)
    requires j < |methods| && forall m :: m in methods ==> m in blobs
    ensures FlushData(s, id, blobs, methods[..j + 1])
         == StoreData(FlushData(s, id, blobs, methods[..j]), id, methods[j], blobs[methods[j]]).0
  {
    assert methods[..j + 1][..j] == methods[..j];
  }

  lemma NextVisit(s: Secrets, c: Cache, order: seq<Visit>, i: nat)
    requires Visits(order, c) && i < |order|
    ensures Visits(order[..i], c) && Visits(order[..i + 1], c) && order[i].id in c
    ensures forall m :: m in order[i].methods ==> m in c[order[i].id].blobs
    ensures Flush(s, c, order[..i + 1]) == FlushOne(Flush(s, c, order[..i]), c[order[i].id], order[i])
  {
    assert order[..i + 1][..i] == order[..i];
  }
}
