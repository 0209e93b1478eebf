/**
 The secrets database: logins by identity, and data by identity and method, kept under a limit.
 */
module SecretsStore {

  // ---------------------------------------------------------------- Data model

  newtype Byte = x: int | 0 <= x < 256

  /** A value as the database sees it: its serialization, and whether it is null. */
  datatype Value = Value(isNull: bool, encoding: seq<Byte>)

  /** One entry of a variant map, in iteration order. */
  datatype Entry = Entry(key: string, value: Value)

  ghost predicate DistinctKeys(data: seq<Entry>) {
    forall i, j :: 0 <= i < j < |data| ==> data[i].key != data[j].key
  }

  datatype Login = Login(userName: string, password: string)
  datatype StoreKey = StoreKey(id: nat, authMethod: nat, key: string)
  datatype Secrets = Secrets(logins: map<nat, Login>, store: map<StoreKey, Value>)

  const MAX_TOKEN_STORAGE := 4096

  // --------------------------------------------------- The database, on values

  function EntrySize(e: Entry): nat {
    |e.key| + |e.value.encoding|
  }

  function Total(data: seq<Entry>): nat {
    if data == [] then 0 else Total(data[..|data| - 1]) + EntrySize(data[|data| - 1])
  }

  predicate Fits(data: seq<Entry>) {
    Total(data) < MAX_TOKEN_STORAGE
  }

  /** What is kept of a map: its non-null entries. */
  function NonNull(data: seq<Entry>): map<string, Value> {
    if data == [] then map[]
    else
      var e := data[|data| - 1];
      var rest := NonNull(data[..|data| - 1]);
      if e.value.isNull then rest else rest[e.key := e.value]
  }

  lemma {:induction false} NonNullKey(data: seq<Entry>, k: string)
    ensures k in NonNull(data) <==> exists i :: 0 <= i < |data| && data[i].key == k && !data[i].value.isNull
  {
    if data != [] {
      var n := |data| - 1;
      NonNullKey(data[..n], k);
      if i :| 0 <= i < |data| && data[i].key == k && !data[i].value.isNull {
        assert i < n ==> data[..n][i] == data[i];
      }
      if k in NonNull(data[..n]) {
        var i :| 0 <= i < n && data[..n][i].key == k && !data[..n][i].value.isNull;
        assert data[i].key == k;
      }
    }
  }

  lemma {:induction false} NonNullValue(data: seq<Entry>, i: nat)
    requires DistinctKeys(data) && i < |data| && !data[i].value.isNull
    ensures data[i].key in NonNull(data) && NonNull(data)[data[i].key] == data[i].value
  {
    var n := |data| - 1;
    if i < n {
      NonNullValue(data[..n], i);
      assert data[i].key != data[n].key;
    }
  }

  /** Exactly the keys of non-null entries, each with its value. */
  lemma {:induction false} NonNullExactly(data: seq<Entry>)
    ensures forall k :: k in NonNull(data) <==> exists i :: 0 <= i < |data| && data[i].key == k && !data[i].value.isNull
    ensures DistinctKeys(data) ==>
      forall i :: 0 <= i < |data| && !data[i].value.isNull ==> NonNull(data)[data[i].key] == data[i].value
  {
    hide NonNull, DistinctKeys;
    forall k ensures k in NonNull(data) <==> exists i :: 0 <= i < |data| && data[i].key == k && !data[i].value.isNull {
      NonNullKey(data, k);
    }
    if DistinctKeys(data) {
      forall i | 0 <= i < |data| && !data[i].value.isNull ensures NonNull(data)[data[i].key] == data[i].value {
        NonNullValue(data, i);
      }
    }
  }

  function UpdateLogin(s: Secrets, id: nat, login: Login): Secrets {
    s.(logins := s.logins[id := login])
  }

  function DeleteData(store: map<StoreKey, Value>, id: nat, m: nat): map<StoreKey, Value> {
    map t | t in store && !(t.id == id && t.authMethod == m) :: store[t]
  }

  function AtKeys(id: nat, m: nat, values: map<string, Value>): map<StoreKey, Value> {
    map k | k in values :: StoreKey(id, m, k) := values[k]
  }

  /** Replaces the data of one method, or changes nothing. */
  function StoreData(s: Secrets, id: nat, m: nat, data: seq<Entry>): (r: (Secrets, bool)) {
    if Fits(data) then (s.(store := DeleteData(s.store, id, m) + AtKeys(id, m, NonNull(data))), true)
    else (s, false)
  }

  function LoadData(s: Secrets, id: nat, m: nat): map<string, Value> {
    map t | t in s.store && t.id == id && t.authMethod == m :: t.key := s.store[t]
  }

  function RemoveData(s: Secrets, id: nat, m: nat): Secrets {
    s.(store := map t | t in s.store && !(t.id == id && (m == 0 || t.authMethod == m)) :: s.store[t])
  }

  function RemoveCredentials(s: Secrets, id: nat): Secrets {
    Secrets(s.logins - {id}, map t | t in s.store && t.id != id :: s.store[t])
  }

  /** The table after a successful storeData, row by row. */
  lemma StoredAt(s: Secrets, id: nat, m: nat, data: seq<Entry>, t: StoreKey)
    requires Fits(data)
    ensures var s' := StoreData(s, id, m, data).0;
            if t.id == id && t.authMethod == m
            then (t in s'.store <==> t.key in NonNull(data)) && (t in s'.store ==> s'.store[t] == NonNull(data)[t.key])
            else (t in s'.store <==> t in s.store) && (t in s'.store ==> s'.store[t] == s.store[t])
  {
    hide NonNull;
    assert t == StoreKey(t.id, t.authMethod, t.key);
  }

  lemma LoadedAt(s: Secrets, id: nat, m: nat, k: string)
    ensures k in LoadData(s, id, m) <==> StoreKey(id, m, k) in s.store
    ensures k in LoadData(s, id, m) ==> LoadData(s, id, m)[k] == s.store[StoreKey(id, m, k)]
  {
  }

  lemma OwnDataLoads(s: Secrets, id: nat, m: nat, data: seq<Entry>)
    requires Fits(data)
    ensures LoadData(StoreData(s, id, m, data).0, id, m) == NonNull(data)
  {
    hide StoreData, LoadData, NonNull, Fits;
    var s' := StoreData(s, id, m, data).0;
    forall k
      ensures k in LoadData(s', id, m) <==> k in NonNull(data)
      ensures k in NonNull(data) ==> LoadData(s', id, m)[k] == NonNull(data)[k]
    {
      StoredAt(s, id, m, data, StoreKey(id, m, k));
      LoadedAt(s', id, m, k);
    }
  }

  lemma OtherDataStays(s: Secrets, id: nat, m: nat, data: seq<Entry>, id': nat, m': nat)
    requires Fits(data) && (id', m') != (id, m)
    ensures LoadData(StoreData(s, id, m, data).0, id', m') == LoadData(s, id', m')
  {
    hide StoreData, LoadData, NonNull, Fits;
    var s' := StoreData(s, id, m, data).0;
    forall k
      ensures k in LoadData(s', id', m') <==> k in LoadData(s, id', m')
      ensures k in LoadData(s, id', m') ==> LoadData(s', id', m')[k] == LoadData(s, id', m')[k]
    {
      StoredAt(s, id, m, data, StoreKey(id', m', k));
      LoadedAt(s', id', m', k);
      LoadedAt(s, id', m', k);
    }
  }

  /** storeData replaces the whole map with its non-null entries, so that loadData returns
      exactly those, or leaves it alone; and it touches the data of no one else. */
  lemma {:induction false} StoreThenLoad(s: Secrets, id: nat, m: nat, data: seq<Entry>, id': nat, m': nat)
    ensures var (s', ok) := StoreData(s, id, m, data);
            && s'.logins == s.logins
            && (ok <==> Fits(data))
            && (ok ==> LoadData(s', id, m) == NonNull(data))
            && (!ok ==> s' == s)
            && ((id', m') != (id, m) ==> LoadData(s', id', m') == LoadData(s, id', m'))
  {
    if Fits(data) {
      OwnDataLoads(s, id, m, data);
      if (id', m') != (id, m) {
        OtherDataStays(s, id, m, data, id', m');
      }
    }
  }

  // ------------------------------------------------------------- The size limit

  ghost function SizeOf(values: map<string, Value>): nat
    decreases |values|
  {
    if values == map[] then 0
    else
      var k :| k in values;
      |k| + |values[k].encoding| + SizeOf(values - {k})
  }

  lemma {:induction false} SizeOfWithout(values: map<string, Value>, k: string)
    requires k in values
    ensures SizeOf(values) == |k| + |values[k].encoding| + SizeOf(values - {k})
    decreases |values|
  {
    var j :| j in values && SizeOf(values) == |j| + |values[j].encoding| + SizeOf(values - {j});
    if j != k {
      SizeOfWithout(values - {j}, k);
      SizeOfWithout(values - {k}, j);
      assert values - {j} - {k} == values - {k} - {j};
    }
  }

  lemma {:induction false} NonNullIsSmall(data: seq<Entry>)
    requires DistinctKeys(data)
    ensures SizeOf(NonNull(data)) <= Total(data)
    ensures forall k :: k in NonNull(data) ==> exists i :: 0 <= i < |data| && data[i].key == k
  {
    if data != [] {
      var e, rest := data[|data| - 1], NonNull(data[..|data| - 1]);
      NonNullIsSmall(data[..|data| - 1]);
      assert e.key !in rest;
      if !e.value.isNull {
        SizeOfWithout(NonNull(data), e.key);
        assert NonNull(data) - {e.key} == rest;
      }
      forall k | k in NonNull(data)
        ensures exists i :: 0 <= i < |data| && data[i].key == k
      {
        if k in rest {
          var i :| 0 <= i < |data| - 1 && data[..|data| - 1][i].key == k;
          assert data[i].key == k;
        } else {
          assert data[|data| - 1].key == k;
        }
      }
    }
  }

  ghost predicate Bounded(s: Secrets) {
    forall id, m :: SizeOf(LoadData(s, id, m)) < MAX_TOKEN_STORAGE
  }

  datatype Change =
    | Logged(id: nat, login: Login)
    | Stored(id: nat, authMethod: nat, data: seq<Entry>)
    | DataRemoved(id: nat, authMethod: nat)
    | CredentialsRemoved(id: nat)

  function Apply(s: Secrets, c: Change): Secrets {
    match c
    case Logged(id, login) => UpdateLogin(s, id, login)
    case Stored(id, m, data) => StoreData(s, id, m, data).0
    case DataRemoved(id, m) => RemoveData(s, id, m)
    case CredentialsRemoved(id) => RemoveCredentials(s, id)
  }

  function ApplyAll(s: Secrets, cs: seq<Change>): Secrets {
    if cs == [] then s else Apply(ApplyAll(s, cs[..|cs| - 1]), cs[|cs| - 1])
  }

  lemma ChangeKeepsBound(s: Secrets, c: Change)
    requires Bounded(s) && (c.Stored? ==> DistinctKeys(c.data))
    ensures Bounded(Apply(s, c))
  {
    var s' := Apply(s, c);
    forall id, m
      ensures SizeOf(LoadData(s', id, m)) < MAX_TOKEN_STORAGE
    {
      match c
      case Logged(_, _) =>
        assert LoadData(s', id, m) == LoadData(s, id, m);
      case Stored(id', m', data) =>
        StoreThenLoad(s, id', m', data, id, m);
        NonNullIsSmall(data);
      case DataRemoved(id', m') =>
        assert LoadData(s', id, m) == if id == id' && (m' == 0 || m == m') then map[] else LoadData(s, id, m);
      case CredentialsRemoved(id') =>
        assert LoadData(s', id, m) == if id == id' then map[] else LoadData(s, id, m);
    }
  }

  /** In every reachable secrets database the keys and values held for one identity and
      method add up to less than the limit. */
  lemma {:induction false} StorageIsBounded(cs: seq<Change>)
    requires forall i :: 0 <= i < |cs| && cs[i].Stored? ==> DistinctKeys(cs[i].data)
    ensures Bounded(ApplyAll(Secrets(map[], map[]), cs))
  {
    if cs == [] {
      assert forall id, m :: LoadData(Secrets(map[], map[]), id, m) == map[];
    } else {
      StorageIsBounded(cs[..|cs| - 1]);
      ChangeKeepsBound(ApplyAll(Secrets(map[], map[]), cs[..|cs| - 1]), cs[|cs| - 1]);
    }
  }

  /** Saving a login replaces the row without firing the delete trigger: the data stays.
      Removing the credentials takes login and data of that identity and nothing else. */
  lemma LoginsAndData(s: Secrets, id: nat, login: Login, id': nat, m: nat)
    ensures LoadData(UpdateLogin(s, id, login), id', m) == LoadData(s, id', m)
    ensures var s' := RemoveCredentials(s, id);
            && id !in s'.logins && LoadData(s', id, m) == map[]
            && (id' != id ==> LoadData(s', id', m) == LoadData(s, id', m)
                              && (id' in s'.logins <==> id' in s.logins)
                              && (id' in s.logins ==> s'.logins[id'] == s.logins[id']))
  {
  }
}
