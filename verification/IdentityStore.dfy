/**
 Identities over the metadata tables: how updateIdentity flattens an identity into rows,
 how identity() puts it together again, and what each operation leaves alone.
 */
module IdentityStore {
  import opened Wrappers
  import opened MetaDataTables

  // ---------------------------------------------------------------- Data model

  datatype MethodEntry = MethodEntry(name: string, mechanisms: seq<string>)

  /** What a client stores; id 0 is a new identity. */
  datatype Info = Info(
    id: nat,
    caption: string,
    userName: string,
    kind: int,
    validated: bool,
    storePassword: bool,
    userNameSecret: bool,
    methods: seq<MethodEntry>,
    acl: seq<string>,
    owner: seq<string>,
    realms: seq<string>)

  /** The method map has one entry per method. */
  ghost predicate WellFormed(info: Info) {
    forall i, j :: 0 <= i < j < |info.methods| ==> info.methods[i].name != info.methods[j].name
  }

  /** What identity() returns, up to the order of lists. */
  datatype Identity = Identity(
    id: nat,
    caption: string,
    userName: string,
    kind: int,
    validated: bool,
    storePassword: bool,
    userNameSecret: bool,
    methods: map<string, set<string>>,
    acl: set<string>,
    owner: set<string>,
    realms: multiset<string>)

  const VALIDATED := 1
  const REMEMBER_PASSWORD := 2
  const USER_NAME_IS_SECRET := 4

  function Flags(info: Info): int {
    (if info.validated then VALIDATED else 0)
    + (if info.storePassword then REMEMBER_PASSWORD else 0)
    + (if info.userNameSecret then USER_NAME_IS_SECRET else 0)
  }

  /** `flags & mask` for a one-bit mask. */
  predicate HasFlag(flags: int, mask: int)
    requires mask > 0
  {
    flags / mask % 2 == 1
  }

  function NonEmpty(names: seq<string>): seq<string> {
    if names == [] then []
    else NonEmpty(names[..|names| - 1]) + (if names[|names| - 1] == "" then [] else [names[|names| - 1]])
  }

  // ----------------------------------------------------- updateIdentity, on values

  /** updateCredentials: UPDATE of an absent row changes nothing and is no error. */
  function WriteCredentials(db: DB, info: Info): (r: (DB, nat)) {
    var row := Credentials(info.caption, if info.userNameSecret then "" else info.userName, Flags(info), info.kind);
    if info.id == 0 then
      (db.(credentials := db.credentials[db.nextId := row], nextId := db.nextId + 1), db.nextId)
    else if info.id in db.credentials then
      (db.(credentials := db.credentials[info.id := row]), info.id)
    else (db, info.id)
  }

  function InternMethods(db: DB, entries: seq<MethodEntry>): DB {
    if entries == [] then db
    else
      var e := entries[|entries| - 1];
      var db1 := InternMethods(db, entries[..|entries| - 1]);
      db1.(methods := Intern(db1.methods, e.name), mechanisms := InternAll(db1.mechanisms, e.mechanisms))
  }

  /** The loop stops at the first insert that fails. */
  function InsertRealms(c: Connection, id: nat, realms: seq<string>): (r: (Connection, bool)) {
    if realms == [] then (c, true)
    else
      var (c1, ok) := InsertRealms(c, id, realms[..|realms| - 1]);
      if !ok then (c1, false)
      else (InsertRealm(c1, id, realms[|realms| - 1]), id in c1.db.credentials)
  }

  function MechanismInserts(name: string, mechanisms: seq<string>, token: Option<string>): seq<AclInsert> {
    seq(|mechanisms|, i requires 0 <= i < |mechanisms| => AclInsert(Some(name), Some(mechanisms[i]), token))
  }

  /** The rows of one method for one token: one per mechanism, or one without. */
  function RowInserts(e: MethodEntry, token: Option<string>): seq<AclInsert> {
    MechanismInserts(e.name, e.mechanisms, token)
    + (if e.mechanisms == [] then [AclInsert(Some(e.name), None, token)] else [])
  }

  function TokenInserts(e: MethodEntry, tokens: seq<string>): seq<AclInsert> {
    if tokens == [] then []
    else TokenInserts(e, tokens[..|tokens| - 1]) + RowInserts(e, Some(tokens[|tokens| - 1]))
  }

  /** The rows of one entry of the method map. */
  function EntryInserts(e: MethodEntry, tokens: seq<string>): seq<AclInsert> {
    if tokens == [] then RowInserts(e, None) else TokenInserts(e, tokens)
  }

  function MethodInserts(entries: seq<MethodEntry>, tokens: seq<string>): seq<AclInsert> {
    if entries == [] then []
    else
      MethodInserts(entries[..|entries| - 1], tokens) + EntryInserts(entries[|entries| - 1], tokens)
  }

  /** The rows that carry tokens when there are no methods. */
  function BareInserts(tokens: seq<string>): seq<AclInsert> {
    seq(|tokens|, i requires 0 <= i < |tokens| => AclInsert(None, None, Some(tokens[i])))
  }

  function AclInserts(info: Info): seq<AclInsert> {
    if info.methods == [] then BareInserts(info.acl) else MethodInserts(info.methods, info.acl)
  }

  function InsertAcls(c: Connection, id: nat, inserts: seq<AclInsert>): Connection {
    if inserts == [] then c
    else InsertAcl(InsertAcls(c, id, inserts[..|inserts| - 1]), id, inserts[|inserts| - 1])
  }

  function InsertOwners(c: Connection, id: nat, tokens: seq<string>): Connection {
    if tokens == [] then c
    else InsertOwner(InsertOwners(c, id, tokens[..|tokens| - 1]), id, tokens[|tokens| - 1])
  }

  function InternTokens(db: DB, info: Info): DB {
    db.(tokens := InternAll(InternAll(db.tokens, info.acl), NonEmpty(info.owner)))
  }

  function DeleteLists(db: DB, id: nat): DB {
    db.(acl := Without(db.acl, id), owner := Without(db.owner, id))
  }

  /** The statements up to and including the realms. */
  function Prologue(db: DB, info: Info): (r: (Connection, nat, bool)) {
    var (db1, id) := WriteCredentials(db, info);
    var db2 := InternMethods(db1, info.methods);
    var db3 := if info.id == 0 then db2 else db2.(realms := Without(db2.realms, id));
    var (c, ok) := InsertRealms(Connection(db3, Some(db)), id, info.realms);
    (c, id, ok)
  }

  function Body(c: Connection, id: nat, info: Info): Connection {
    var db1 := InternTokens(c.db, info);
    var db2 := if info.id == 0 then db1 else DeleteLists(db1, id);
    InsertOwners(InsertAcls(Connection(db2, c.saved), id, AclInserts(info)), id, NonEmpty(info.owner))
  }

  /** The database and the id returned, 0 for failure. */
  function UpdateIdentity(db: DB, info: Info): (r: (DB, nat)) {
    var (c, id, ok) := Prologue(db, info);
    if !ok then (Rollback(c).db, 0)
    else
      var c1 := Body(c, id, info);
      // COMMIT fails when a trigger has already ended the transaction.
      if c1.saved.Some? then (c1.db, id) else (c1.db, 0)
  }

  // ------------------------------------------------------------ identity(), on values

  predicate HasMethod(acl: seq<AclData>, m: nat) {
    exists i :: 0 <= i < |acl| && acl[i].authMethod == Some(m)
  }

  predicate HasMechanism(acl: seq<AclData>, m: nat, k: nat) {
    exists i :: 0 <= i < |acl| && acl[i].authMethod == Some(m) && acl[i].mechanism == Some(k)
  }

  predicate HasToken(acl: seq<AclData>, t: nat) {
    exists i :: 0 <= i < |acl| && acl[i].token == Some(t)
  }

  function ReadMechanisms(db: DB, acl: seq<AclData>, m: nat): set<string> {
    set k | k in db.mechanisms.ids && HasMechanism(acl, m, db.mechanisms.ids[k])
  }

  function ReadMethods(db: DB, acl: seq<AclData>): map<string, set<string>> {
    map n | n in db.methods.ids && HasMethod(acl, db.methods.ids[n]) :: ReadMechanisms(db, acl, db.methods.ids[n])
  }

  function ReadAcl(db: DB, acl: seq<AclData>): set<string> {
    set t | t in db.tokens.ids && HasToken(acl, db.tokens.ids[t])
  }

  function ReadOwner(db: DB, owner: seq<Option<nat>>): set<string> {
    set t | t in db.tokens.ids && Some(db.tokens.ids[t]) in owner
  }

  function ReadIdentity(db: DB, id: nat): Option<Identity> {
    if id !in db.credentials then None
    else
      var row := db.credentials[id];
      var secret := HasFlag(row.flags, USER_NAME_IS_SECRET);
      Some(Identity(id, row.caption, if secret then "" else row.userName, row.kind,
                    HasFlag(row.flags, VALIDATED), HasFlag(row.flags, REMEMBER_PASSWORD), secret,
                    ReadMethods(db, Of(db.acl, id)), ReadAcl(db, Of(db.acl, id)),
                    ReadOwner(db, Of(db.owner, id)), multiset(Of(db.realms, id))))
  }

  /** The method map itself, mechanisms without order. */
  function ExpectedMethods(entries: seq<MethodEntry>): map<string, set<string>> {
    if entries == [] then map[]
    else
      var e := entries[|entries| - 1];
      ExpectedMethods(entries[..|entries| - 1])[e.name := set k | k in e.mechanisms]
  }

  /** What a client may expect to read back. */
  ghost function Expected(info: Info, id: nat): Identity {
    Identity(id, info.caption, if info.userNameSecret then "" else info.userName, info.kind,
             info.validated, info.storePassword, info.userNameSecret,
             ExpectedMethods(info.methods),
             set t | t in info.acl,
             set t | t in info.owner && t != "",
             multiset(info.realms))
  }

  // ----------------------------------------------- The rows of a flattened identity

  lemma InRowInserts(e: MethodEntry, token: Option<string>, a: AclInsert)
    ensures a in RowInserts(e, token) <==>
            && a.authMethod == Some(e.name) && a.token == token
            && (if e.mechanisms == [] then a.mechanism == None
                else a.mechanism.Some? && a.mechanism.value in e.mechanisms)
  {
    var rows := MechanismInserts(e.name, e.mechanisms, token);
    if a.mechanism.Some? && a.mechanism.value in e.mechanisms && a.authMethod == Some(e.name) && a.token == token {
      var i :| 0 <= i < |e.mechanisms| && e.mechanisms[i] == a.mechanism.value;
      assert rows[i] == a;
    }
  }

  lemma {:induction false} InTokenInserts(e: MethodEntry, tokens: seq<string>, a: AclInsert)
    ensures a in TokenInserts(e, tokens) <==>
            a.token.Some? && a.token.value in tokens && a in RowInserts(e, a.token)
  {
    if tokens != [] {
      var n := |tokens| - 1;
      InTokenInserts(e, tokens[..n], a);
      InRowInserts(e, Some(tokens[n]), a);
      InRowInserts(e, a.token, a);
      assert tokens == tokens[..n] + [tokens[n]];
    }
  }

  lemma {:induction false} InMethodInserts(entries: seq<MethodEntry>, tokens: seq<string>, a: AclInsert)
    ensures a in MethodInserts(entries, tokens) <==>
            exists i :: 0 <= i < |entries| && a in EntryInserts(entries[i], tokens)
  {
    hide EntryInserts;
    if entries != [] {
      var n := |entries| - 1;
      InMethodInserts(entries[..n], tokens, a);
      assert a in MethodInserts(entries, tokens) <==>
             a in MethodInserts(entries[..n], tokens) || a in EntryInserts(entries[n], tokens);
      if a in MethodInserts(entries[..n], tokens) {
        var i :| 0 <= i < n && a in EntryInserts(entries[..n][i], tokens);
        assert a in EntryInserts(entries[i], tokens);
      }
      if i :| 0 <= i < |entries| && a in EntryInserts(entries[i], tokens) {
        assert i < n ==> a in EntryInserts(entries[..n][i], tokens);
      }
    }
  }

  /** An entry of the map as it shows in the rows: its name with a mechanism of its list,
      or with none when the list is empty; and with every token, or none. */
  lemma InEntryInserts(e: MethodEntry, tokens: seq<string>, a: AclInsert)
    ensures a in EntryInserts(e, tokens) <==>
            && a.authMethod == Some(e.name)
            && (if tokens == [] then a.token == None else a.token.Some? && a.token.value in tokens)
            && (if e.mechanisms == [] then a.mechanism == None
                else a.mechanism.Some? && a.mechanism.value in e.mechanisms)
  {
    if tokens == [] {
      InRowInserts(e, None, a);
    } else {
      InTokenInserts(e, tokens, a);
      InRowInserts(e, a.token, a);
    }
  }

  lemma {:induction false} ExpectedMethodsAt(entries: seq<MethodEntry>, name: string)
    requires forall i, j :: 0 <= i < j < |entries| ==> entries[i].name != entries[j].name
    ensures name in ExpectedMethods(entries) <==> exists i :: 0 <= i < |entries| && entries[i].name == name
    ensures forall i :: 0 <= i < |entries| && entries[i].name == name ==>
              ExpectedMethods(entries)[name] == set k | k in entries[i].mechanisms
  {
    if entries != [] {
      var n := |entries| - 1;
      ExpectedMethodsAt(entries[..n], name);
      if i :| 0 <= i < |entries| && entries[i].name == name {
        assert i < n ==> entries[..n][i].name == name;
      }
      forall i | 0 <= i < |entries| && entries[i].name == name
        ensures ExpectedMethods(entries)[name] == set k | k in entries[i].mechanisms
      {
        if i < n {
          assert entries[..n][i].name == name;
          assert entries[n].name != name;
        }
      }
    }
  }

  // --------------------------------------------------- Updates of identities that exist

  function RowsOf<T>(id: nat, data: seq<T>): seq<Row<T>> {
    seq(|data|, i requires 0 <= i < |data| => Row(id, data[i]))
  }

  lemma {:induction false} OfRowsOf<T>(id: nat, data: seq<T>, other: nat)
    ensures Of(RowsOf(id, data), other) == if other == id then data else []
  {
    if data != [] {
      assert RowsOf(id, data)[1..] == RowsOf(id, data[1..]);
      OfRowsOf(id, data[1..], other);
      assert data == [data[0]] + data[1..];
    }
  }

  function ResolveAll(db: DB, inserts: seq<AclInsert>): seq<AclData> {
    seq(|inserts|, i requires 0 <= i < |inserts| => ResolveAcl(db, inserts[i]))
  }

  function LookupAll(tokens: Names, names: seq<string>): seq<Option<nat>> {
    seq(|names|, i requires 0 <= i < |names| => Lookup(tokens, names[i]))
  }

  lemma {:induction false} InsertRealmsPresent(c: Connection, id: nat, realms: seq<string>)
    requires id in c.db.credentials
    ensures InsertRealms(c, id, realms) == (c.(db := c.db.(realms := c.db.realms + RowsOf(id, realms))), true)
  {
    if realms == [] {
      assert c.db.realms + RowsOf(id, realms) == c.db.realms;
    } else {
      var n := |realms| - 1;
      InsertRealmsPresent(c, id, realms[..n]);
      assert c.db.realms + RowsOf(id, realms) == (c.db.realms + RowsOf(id, realms[..n])) + [Row(id, realms[n])];
    }
  }

  lemma {:induction false} InsertAclsPresent(c: Connection, id: nat, inserts: seq<AclInsert>)
    requires id in c.db.credentials
    ensures InsertAcls(c, id, inserts) == c.(db := c.db.(acl := c.db.acl + RowsOf(id, ResolveAll(c.db, inserts))))
  {
    if inserts == [] {
      assert c.db.acl + RowsOf(id, ResolveAll(c.db, inserts)) == c.db.acl;
    } else {
      var n := |inserts| - 1;
      InsertAclsPresent(c, id, inserts[..n]);
      assert c.db.acl + RowsOf(id, ResolveAll(c.db, inserts))
          == (c.db.acl + RowsOf(id, ResolveAll(c.db, inserts[..n]))) + [Row(id, ResolveAcl(c.db, inserts[n]))];
    }
  }

  lemma {:induction false} InsertOwnersAppends(c: Connection, id: nat, tokens: seq<string>)
    ensures InsertOwners(c, id, tokens)
         == c.(db := c.db.(owner := c.db.owner + RowsOf(id, LookupAll(c.db.tokens, tokens))))
  {
    if tokens == [] {
      assert c.db.owner + RowsOf(id, LookupAll(c.db.tokens, tokens)) == c.db.owner;
    } else {
      var n := |tokens| - 1;
      InsertOwnersAppends(c, id, tokens[..n]);
      assert c.db.owner + RowsOf(id, LookupAll(c.db.tokens, tokens))
          == (c.db.owner + RowsOf(id, LookupAll(c.db.tokens, tokens[..n]))) + [Row(id, Lookup(c.db.tokens, tokens[n]))];
    }
  }

  predicate Exists(db: DB, info: Info) {
    info.id == 0 || info.id in db.credentials
  }

  function IdOf(db: DB, info: Info): nat {
    if info.id == 0 then db.nextId else info.id
  }

  /** The rows of the identity are gone, those of the others in place. */
  function Cleared<T>(rows: seq<Row<T>>, info: Info): seq<Row<T>> {
    if info.id == 0 then rows else Without(rows, info.id)
  }

  /** All tables of interned names after the update. */
  function WithNames(db: DB, info: Info): DB {
    InternTokens(InternMethods(db, info.methods), info)
  }

  /** The committed tables in one go. */
  function Committed(db: DB, info: Info): DB {
    var id := IdOf(db, info);
    var names := WithNames(db, info);
    DB(WriteCredentials(db, info).0.credentials, WriteCredentials(db, info).0.nextId,
       names.methods, names.mechanisms, names.tokens,
       Cleared(db.acl, info) + RowsOf(id, ResolveAll(names, AclInserts(info))),
       Cleared(db.owner, info) + RowsOf(id, LookupAll(names.tokens, NonEmpty(info.owner))),
       Cleared(db.realms, info) + RowsOf(id, info.realms),
       db.refs)
  }

  lemma {:induction false} InternMethodsOnlyInterns(db: DB, db': DB, entries: seq<MethodEntry>)
    requires db.methods == db'.methods && db.mechanisms == db'.mechanisms
    ensures var a, b := InternMethods(db, entries), InternMethods(db', entries);
            && a == db.(methods := a.methods, mechanisms := a.mechanisms)
            && a.methods == b.methods && a.mechanisms == b.mechanisms
  {
    if entries != [] {
      InternMethodsOnlyInterns(db, db', entries[..|entries| - 1]);
    }
  }

  lemma SameNamesResolveAlike(db: DB, db': DB, inserts: seq<AclInsert>)
    requires db.methods == db'.methods && db.mechanisms == db'.mechanisms && db.tokens == db'.tokens
    ensures ResolveAll(db, inserts) == ResolveAll(db', inserts)
  {
  }

  lemma UpdateCommits(db: DB, info: Info)
    requires Exists(db, info)
    ensures UpdateIdentity(db, info) == (Committed(db, info), IdOf(db, info))
  {
    var (db1, id) := WriteCredentials(db, info);
    var db2 := InternMethods(db1, info.methods);
    InternMethodsOnlyInterns(db1, db, info.methods);
    InternMethodsOnlyInterns(db, db, info.methods);
    var db3 := if info.id == 0 then db2 else db2.(realms := Without(db2.realms, id));
    InsertRealmsPresent(Connection(db3, Some(db)), id, info.realms);
    var c := Prologue(db, info).0;
    var db4 := InternTokens(c.db, info);
    var db5 := if info.id == 0 then db4 else DeleteLists(db4, id);
    InsertAclsPresent(Connection(db5, c.saved), id, AclInserts(info));
    InsertOwnersAppends(InsertAcls(Connection(db5, c.saved), id, AclInserts(info)), id, NonEmpty(info.owner));
    SameNamesResolveAlike(db5, WithNames(db, info), AclInserts(info));
  }

  // ------------------------------------------------------------------- Round trip

  ghost predicate NamesExtend(db: DB, db': DB) {
    Extends(db.methods, db'.methods) && Extends(db.mechanisms, db'.mechanisms) && Extends(db.tokens, db'.tokens)
  }

  ghost predicate EntryInterned(db: DB, e: MethodEntry) {
    e.name in db.methods.ids && forall k :: k in e.mechanisms ==> k in db.mechanisms.ids
  }

  lemma NamesExtendKeepsEntry(a: DB, b: DB, c: DB, e: MethodEntry)
    requires NamesExtend(a, b) && NamesExtend(b, c)
    ensures NamesExtend(a, c)
    ensures EntryInterned(b, e) ==> EntryInterned(c, e)
  {
  }

  lemma InternEntry(db: DB, e: MethodEntry)
    requires NameTablesInv(db)
    ensures var db' := db.(methods := Intern(db.methods, e.name), mechanisms := InternAll(db.mechanisms, e.mechanisms));
            NameTablesInv(db') && NamesExtend(db, db') && EntryInterned(db', e)
  {
    InternAllInterns(db.mechanisms, e.mechanisms);
  }

  lemma {:induction false} InternMethodsInterns(db: DB, entries: seq<MethodEntry>)
    requires NameTablesInv(db)
    ensures var db' := InternMethods(db, entries);
            && NameTablesInv(db') && NamesExtend(db, db') && db'.tokens == db.tokens
            && forall i :: 0 <= i < |entries| ==> EntryInterned(db', entries[i])
  {
    if entries != [] {
      hide NameTablesInv, NamesExtend, EntryInterned;
      var n := |entries| - 1;
      InternMethodsInterns(db, entries[..n]);
      var db1 := InternMethods(db, entries[..n]);
      var db' := InternMethods(db, entries);
      InternEntry(db1, entries[n]);
      NamesExtendKeepsEntry(db, db1, db', entries[n]);
      forall i | 0 <= i < |entries|
        ensures EntryInterned(db', entries[i])
      {
        if i < n {
          assert entries[i] == entries[..n][i];
          NamesExtendKeepsEntry(db, db1, db', entries[i]);
        }
      }
    }
  }

  lemma {:induction false} InNonEmpty(names: seq<string>)
    ensures forall a :: a in NonEmpty(names) <==> a in names && a != ""
  {
    if names != [] {
      InNonEmpty(names[..|names| - 1]);
      assert names == names[..|names| - 1] + [names[|names| - 1]];
    }
  }

  /** Everything the identity names is interned, and nothing interned before has moved. */
  ghost predicate Interned(names: DB, info: Info) {
    && (forall i :: 0 <= i < |info.methods| ==> EntryInterned(names, info.methods[i]))
    && (forall a :: a in info.acl ==> a in names.tokens.ids)
    && (forall a :: a in NonEmpty(info.owner) ==> a in names.tokens.ids)
  }

  lemma WithNamesInterns(db: DB, info: Info)
    requires NameTablesInv(db)
    ensures NameTablesInv(WithNames(db, info)) && NamesExtend(db, WithNames(db, info))
    ensures Interned(WithNames(db, info), info)
  {
    InternMethodsInterns(db, info.methods);
    InternAllInterns(db.tokens, info.acl);
    InternAllInterns(InternAll(db.tokens, info.acl), NonEmpty(info.owner));
  }

  /** A resolved column names a string exactly when the insert did. */
  lemma ResolveIsInjective(n: Names, name: Option<string>, s: string)
    requires NamesInv(n) && s in n.ids
    ensures Resolve(n, name) == Some(n.ids[s]) <==> name == Some(s)
  {
  }

  /** Which methods, mechanisms and tokens the rows of an identity mention. */
  lemma InsertsMention(info: Info, a: AclInsert)
    ensures a in AclInserts(info) <==>
            if info.methods == []
            then a.authMethod == None && a.mechanism == None && a.token.Some? && a.token.value in info.acl
            else exists i :: 0 <= i < |info.methods| && a in EntryInserts(info.methods[i], info.acl)
  {
    if info.methods == [] {
      if a.authMethod == None && a.mechanism == None && a.token.Some? && a.token.value in info.acl {
        var i :| 0 <= i < |info.acl| && info.acl[i] == a.token.value;
        assert BareInserts(info.acl)[i] == a;
      }
    } else {
      InMethodInserts(info.methods, info.acl, a);
    }
  }

  /** One row of an entry, for a mechanism of its list if there is one. */
  function SomeInsert(e: MethodEntry, tokens: seq<string>, mechanism: Option<string>): AclInsert {
    AclInsert(Some(e.name), mechanism, if tokens == [] then None else Some(tokens[0]))
  }

  lemma MethodIsRead(names: DB, info: Info, name: string)
    requires NameTablesInv(names) && name in names.methods.ids
    ensures HasMethod(ResolveAll(names, AclInserts(info)), names.methods.ids[name])
       <==> exists i :: 0 <= i < |info.methods| && info.methods[i].name == name
  {
    var inserts, data := AclInserts(info), ResolveAll(names, AclInserts(info));
    if HasMethod(data, names.methods.ids[name]) {
      var j :| 0 <= j < |data| && data[j].authMethod == Some(names.methods.ids[name]);
      ResolveIsInjective(names.methods, inserts[j].authMethod, name);
      assert inserts[j] in inserts;
      InsertsMention(info, inserts[j]);
      var i :| 0 <= i < |info.methods| && inserts[j] in EntryInserts(info.methods[i], info.acl);
      InEntryInserts(info.methods[i], info.acl, inserts[j]);
    }
    if i :| 0 <= i < |info.methods| && info.methods[i].name == name {
      var e := info.methods[i];
      var a := SomeInsert(e, info.acl, if e.mechanisms == [] then None else Some(e.mechanisms[0]));
      InEntryInserts(e, info.acl, a);
      InsertsMention(info, a);
      var j :| 0 <= j < |inserts| && inserts[j] == a;
      assert data[j].authMethod == Some(names.methods.ids[name]);
    }
  }

  lemma MechanismIsRead(names: DB, info: Info, name: string, k: string)
    requires NameTablesInv(names) && name in names.methods.ids && k in names.mechanisms.ids
    ensures HasMechanism(ResolveAll(names, AclInserts(info)), names.methods.ids[name], names.mechanisms.ids[k])
       <==> exists i :: 0 <= i < |info.methods| && info.methods[i].name == name && k in info.methods[i].mechanisms
  {
    var inserts, data := AclInserts(info), ResolveAll(names, AclInserts(info));
    if HasMechanism(data, names.methods.ids[name], names.mechanisms.ids[k]) {
      var j :| 0 <= j < |data| && data[j].authMethod == Some(names.methods.ids[name])
               && data[j].mechanism == Some(names.mechanisms.ids[k]);
      ResolveIsInjective(names.methods, inserts[j].authMethod, name);
      ResolveIsInjective(names.mechanisms, inserts[j].mechanism, k);
      assert inserts[j] in inserts;
      InsertsMention(info, inserts[j]);
      var i :| 0 <= i < |info.methods| && inserts[j] in EntryInserts(info.methods[i], info.acl);
      InEntryInserts(info.methods[i], info.acl, inserts[j]);
    }
    if i :| 0 <= i < |info.methods| && info.methods[i].name == name && k in info.methods[i].mechanisms {
      var a := SomeInsert(info.methods[i], info.acl, Some(k));
      InEntryInserts(info.methods[i], info.acl, a);
      InsertsMention(info, a);
      var j :| 0 <= j < |inserts| && inserts[j] == a;
      assert data[j].authMethod == Some(names.methods.ids[name])
          && data[j].mechanism == Some(names.mechanisms.ids[k]);
    }
  }

  lemma TokenIsRead(names: DB, info: Info, token: string)
    requires NameTablesInv(names) && token in names.tokens.ids
    ensures HasToken(ResolveAll(names, AclInserts(info)), names.tokens.ids[token]) <==> token in info.acl
  {
    var inserts, data := AclInserts(info), ResolveAll(names, AclInserts(info));
    if HasToken(data, names.tokens.ids[token]) {
      var j :| 0 <= j < |data| && data[j].token == Some(names.tokens.ids[token]);
      ResolveIsInjective(names.tokens, inserts[j].token, token);
      assert inserts[j] in inserts;
      InsertsMention(info, inserts[j]);
      if info.methods != [] {
        var i :| 0 <= i < |info.methods| && inserts[j] in EntryInserts(info.methods[i], info.acl);
        InEntryInserts(info.methods[i], info.acl, inserts[j]);
      }
    }
    if token in info.acl {
      var a;
      if info.methods == [] {
        a := AclInsert(None, None, Some(token));
      } else {
        var e := info.methods[0];
        a := AclInsert(Some(e.name), if e.mechanisms == [] then None else Some(e.mechanisms[0]), Some(token));
        InEntryInserts(e, info.acl, a);
      }
      InsertsMention(info, a);
      var j :| 0 <= j < |inserts| && inserts[j] == a;
      assert data[j].token == Some(names.tokens.ids[token]);
    }
  }

  lemma MethodsRoundTrip(names: DB, info: Info)
    requires NameTablesInv(names) && Interned(names, info) && WellFormed(info)
    ensures ReadMethods(names, ResolveAll(names, AclInserts(info))) == ExpectedMethods(info.methods)
  {
    var data := ResolveAll(names, AclInserts(info));
    var read, expected := ReadMethods(names, data), ExpectedMethods(info.methods);
    forall name
      ensures name in read <==> name in expected
      ensures name in read ==> read[name] == expected[name]
    {
      ExpectedMethodsAt(info.methods, name);
      if name in names.methods.ids {
        MethodIsRead(names, info, name);
        forall k | k in names.mechanisms.ids
          ensures HasMechanism(data, names.methods.ids[name], names.mechanisms.ids[k])
             <==> exists i :: 0 <= i < |info.methods| && info.methods[i].name == name && k in info.methods[i].mechanisms
        {
          MechanismIsRead(names, info, name, k);
        }
        if i :| 0 <= i < |info.methods| && info.methods[i].name == name {
          assert forall k :: k in expected[name] <==> k in info.methods[i].mechanisms;
          assert forall j :: 0 <= j < |info.methods| && info.methods[j].name == name ==> j == i;
        }
      }
    }
  }

  lemma TokensRoundTrip(names: DB, info: Info)
    requires NameTablesInv(names) && Interned(names, info)
    ensures ReadAcl(names, ResolveAll(names, AclInserts(info))) == set t | t in info.acl
    ensures ReadOwner(names, LookupAll(names.tokens, NonEmpty(info.owner))) == set t | t in info.owner && t != ""
  {
    forall t | t in names.tokens.ids
      ensures HasToken(ResolveAll(names, AclInserts(info)), names.tokens.ids[t]) <==> t in info.acl
    {
      TokenIsRead(names, info, t);
    }
    var owner, data := NonEmpty(info.owner), LookupAll(names.tokens, NonEmpty(info.owner));
    InNonEmpty(info.owner);
    forall t | t in names.tokens.ids
      ensures Some(names.tokens.ids[t]) in data <==> t in owner
    {
      if t in owner {
        var i :| 0 <= i < |owner| && owner[i] == t;
        assert data[i] == Some(names.tokens.ids[t]);
      }
    }
  }

  lemma FlagsRoundTrip(info: Info)
    ensures HasFlag(Flags(info), VALIDATED) == info.validated
    ensures HasFlag(Flags(info), REMEMBER_PASSWORD) == info.storePassword
    ensures HasFlag(Flags(info), USER_NAME_IS_SECRET) == info.userNameSecret
  {
  }

  /** The rows of the identity after the update are those of this update and no others. */
  lemma OnlyNewRows<T>(rows: seq<Row<T>>, info: Info, id: nat, data: seq<T>)
    requires info.id == 0 ==> forall r :: r in rows ==> r.identity != id
    requires info.id != 0 ==> id == info.id
    ensures Of(Cleared(rows, info) + RowsOf(id, data), id) == data
  {
    OfAppend(Cleared(rows, info), RowsOf(id, data), id);
    OfRowsOf(id, data, id);
    if info.id == 0 {
      NotMentioned(rows, id);
    } else {
      OfWithout(rows, info.id, id);
    }
    assert [] + data == data;
  }

  lemma CommittedRows(db: DB, info: Info)
    requires Integrity(db) && Exists(db, info)
    ensures var id, db', names := IdOf(db, info), Committed(db, info), WithNames(db, info);
            && Of(db'.acl, id) == ResolveAll(names, AclInserts(info))
            && Of(db'.owner, id) == LookupAll(names.tokens, NonEmpty(info.owner))
            && Of(db'.realms, id) == info.realms
  {
    hide AclInserts, NonEmpty, InternMethods, InternTokens;
    var id, names := IdOf(db, info), WithNames(db, info);
    OnlyNewRows(db.acl, info, id, ResolveAll(names, AclInserts(info)));
    OnlyNewRows(db.owner, info, id, LookupAll(names.tokens, NonEmpty(info.owner)));
    OnlyNewRows(db.realms, info, id, info.realms);
  }

  /** Every identity that is written reads back as it was given: flattened into rows over
      interned names and put together again, up to the order of lists, with the user name
      withheld exactly when it is secret. */
  lemma {:induction false} RoundTrip(db: DB, info: Info)
    requires Integrity(db) && WellFormed(info) && Exists(db, info)
    ensures var (db', id) := UpdateIdentity(db, info);
            id > 0 && ReadIdentity(db', id) == Some(Expected(info, id))
  {
    hide UpdateIdentity, AclInserts, NonEmpty, InternMethods, InternTokens, ResolveAll, LookupAll, RowsOf, Cleared;
    hide ReadMethods, ReadAcl, ReadOwner, ExpectedMethods, HasFlag, Flags;
    UpdateCommits(db, info);
    CommittedRows(db, info);
    WithNamesInterns(db, info);
    var names := WithNames(db, info);
    MethodsRoundTrip(names, info);
    TokensRoundTrip(names, info);
    SameNamesReadAlike(Committed(db, info), names, ResolveAll(names, AclInserts(info)),
                       LookupAll(names.tokens, NonEmpty(info.owner)));
    FlagsRoundTrip(info);
  }

  lemma SameNamesReadAlike(db: DB, db': DB, data: seq<AclData>, owner: seq<Option<nat>>)
    requires db.methods == db'.methods && db.mechanisms == db'.mechanisms && db.tokens == db'.tokens
    ensures ReadMethods(db, data) == ReadMethods(db', data)
    ensures ReadAcl(db, data) == ReadAcl(db', data) && ReadOwner(db, owner) == ReadOwner(db', owner)
  {
  }

  // ---------------------------------------------------- Integrity and framing of updates

  lemma ClearedMembers<T>(rows: seq<Row<T>>, info: Info)
    ensures forall r :: r in Cleared(rows, info) ==> r in rows
  {
    forall r | r in Cleared(rows, info)
      ensures r in rows
    {
      WithoutMember(rows, info.id, r);
    }
  }

  lemma ResolveIsOk(names: DB, a: AclInsert)
    ensures AclOk(names, ResolveAcl(names, a))
  {
    forall n: Names, s: Option<string> | Resolve(n, s).Some?
      ensures IsId(n, Resolve(n, s).value)
    {
      assert n.ids[s.value] in n.ids.Values;
    }
  }

  lemma OldRowsStayOk(db: DB, names: DB)
    requires NamesExtend(db, names)
    ensures forall d :: AclOk(db, d) ==> AclOk(names, d)
    ensures forall t :: TokenOk(db, t) ==> TokenOk(names, t)
  {
    forall n: Names, n': Names, id: nat | Extends(n, n') && IsId(n, id)
      ensures IsId(n', id)
    {
      ExtendsKeepsIds(n, n', id);
    }
  }

  lemma CommittedAclOk(db: DB, info: Info, r: Row<AclData>)
    requires Integrity(db) && Exists(db, info) && NamesExtend(db, WithNames(db, info))
    requires r in Committed(db, info).acl
    ensures r.identity in Committed(db, info).credentials && AclOk(WithNames(db, info), r.data)
  {
    hide NameTablesInv, InternMethods, InternTokens, AclInserts, ResolveAcl;
    var id, names := IdOf(db, info), WithNames(db, info);
    OldRowsStayOk(db, names);
    ClearedMembers(db.acl, info);
    if r !in Cleared(db.acl, info) {
      var i :| 0 <= i < |AclInserts(info)| && r == Row(id, ResolveAcl(names, AclInserts(info)[i]));
      ResolveIsOk(names, AclInserts(info)[i]);
    }
  }

  lemma CommittedOwnerOk(db: DB, info: Info, r: Row<Option<nat>>)
    requires Integrity(db) && Exists(db, info) && NamesExtend(db, WithNames(db, info)) && Interned(WithNames(db, info), info)
    requires r in Committed(db, info).owner
    ensures r.identity in Committed(db, info).credentials && TokenOk(WithNames(db, info), r.data)
  {
    hide NameTablesInv, InternMethods, InternTokens, AclInserts, NonEmpty;
    var id, names := IdOf(db, info), WithNames(db, info);
    OldRowsStayOk(db, names);
    ClearedMembers(db.owner, info);
    if r !in Cleared(db.owner, info) {
      var i :| 0 <= i < |NonEmpty(info.owner)| && r == Row(id, Lookup(names.tokens, NonEmpty(info.owner)[i]));
      assert NonEmpty(info.owner)[i] in NonEmpty(info.owner);
    }
  }

  lemma CommittedIntegrity(db: DB, info: Info)
    requires Integrity(db) && Exists(db, info)
    ensures Integrity(Committed(db, info))
  {
    hide InternMethods, InternTokens, AclInserts, NonEmpty, ResolveAll, LookupAll, Interned, Cleared, AclOk, TokenOk;
    WithNamesInterns(db, info);
    var db', names := Committed(db, info), WithNames(db, info);
    OldRowsStayOk(db, names);
    ClearedMembers(db.realms, info);
    forall r | r in db'.acl
      ensures r.identity in db'.credentials && AclOk(db', r.data)
    {
      CommittedAclOk(db, info, r);
      SameNamesSameOk(names, db', r.data, None);
    }
    forall r | r in db'.owner
      ensures r.identity in db'.credentials && TokenOk(db', r.data)
    {
      CommittedOwnerOk(db, info, r);
      SameNamesSameOk(names, db', AclData(None, None, None), r.data);
    }
    forall r | r in db'.refs
      ensures r.identity in db'.credentials && TokenOk(db', r.token)
    {
      SameNamesSameOk(names, db', AclData(None, None, None), r.token);
    }
  }

  lemma SameNamesSameOk(db: DB, db': DB, d: AclData, token: Option<nat>)
    requires db.methods == db'.methods && db.mechanisms == db'.mechanisms && db.tokens == db'.tokens
    ensures AclOk(db, d) ==> AclOk(db', d)
    ensures TokenOk(db, token) ==> TokenOk(db', token)
  {
  }

  /** A name whose id was handed out before is an old name. */
  lemma OldName(n: Names, n': Names, name: string)
    requires NamesInv(n') && Extends(n, n') && name in n'.ids && IsId(n, n'.ids[name])
    ensures name in n.ids
  {
    var a :| a in n.ids && n.ids[a] == n'.ids[name];
  }

  lemma OldMechanismsReadAlike(db: DB, db': DB, acl: seq<AclData>, m: nat)
    requires NamesInv(db'.mechanisms) && Extends(db.mechanisms, db'.mechanisms)
    requires forall d :: d in acl ==> AclOk(db, d)
    ensures ReadMechanisms(db', acl, m) == ReadMechanisms(db, acl, m)
  {
    forall k | k in db'.mechanisms.ids && HasMechanism(acl, m, db'.mechanisms.ids[k])
      ensures k in db.mechanisms.ids
    {
      var i :| 0 <= i < |acl| && acl[i].authMethod == Some(m) && acl[i].mechanism == Some(db'.mechanisms.ids[k]);
      assert AclOk(db, acl[i]);
      OldName(db.mechanisms, db'.mechanisms, k);
    }
  }

  lemma OldMethodsReadAlike(db: DB, db': DB, acl: seq<AclData>)
    requires NameTablesInv(db') && NamesExtend(db, db')
    requires forall d :: d in acl ==> AclOk(db, d)
    ensures ReadMethods(db', acl) == ReadMethods(db, acl)
  {
    hide ReadMechanisms;
    forall n | n in db'.methods.ids && HasMethod(acl, db'.methods.ids[n])
      ensures n in db.methods.ids
    {
      var i :| 0 <= i < |acl| && acl[i].authMethod == Some(db'.methods.ids[n]);
      assert AclOk(db, acl[i]);
      OldName(db.methods, db'.methods, n);
    }
    forall m: nat
      ensures ReadMechanisms(db', acl, m) == ReadMechanisms(db, acl, m)
    {
      OldMechanismsReadAlike(db, db', acl, m);
    }
  }

  /** Names interned later are invisible in rows that were there before. */
  lemma OldRowsReadAlike(db: DB, db': DB, acl: seq<AclData>, owner: seq<Option<nat>>)
    requires NameTablesInv(db') && NamesExtend(db, db')
    requires forall d :: d in acl ==> AclOk(db, d)
    requires forall t :: t in owner ==> TokenOk(db, t)
    ensures ReadMethods(db', acl) == ReadMethods(db, acl)
    ensures ReadAcl(db', acl) == ReadAcl(db, acl)
    ensures ReadOwner(db', owner) == ReadOwner(db, owner)
  {
    OldMethodsReadAlike(db, db', acl);
    forall t | t in db'.tokens.ids && (HasToken(acl, db'.tokens.ids[t]) || Some(db'.tokens.ids[t]) in owner)
      ensures t in db.tokens.ids
    {
      if HasToken(acl, db'.tokens.ids[t]) {
        var i :| 0 <= i < |acl| && acl[i].token == Some(db'.tokens.ids[t]);
        assert AclOk(db, acl[i]);
      } else {
        assert TokenOk(db, Some(db'.tokens.ids[t]));
      }
      OldName(db.tokens, db'.tokens, t);
    }
  }

  lemma RowsOfOtherAreOk(db: DB, id: nat)
    requires Integrity(db)
    ensures forall d :: d in Of(db.acl, id) ==> AclOk(db, d)
    ensures forall t :: t in Of(db.owner, id) ==> TokenOk(db, t)
  {
    forall d | d in Of(db.acl, id)
      ensures AclOk(db, d)
    {
      OfMembers(db.acl, id, d);
    }
    forall t | t in Of(db.owner, id)
      ensures TokenOk(db, t)
    {
      OfMembers(db.owner, id, t);
    }
  }

  lemma OtherRows<T>(rows: seq<Row<T>>, info: Info, id: nat, data: seq<T>, other: nat)
    requires other != id && (info.id != 0 ==> id == info.id)
    ensures Of(Cleared(rows, info) + RowsOf(id, data), other) == Of(rows, other)
  {
    OfAppend(Cleared(rows, info), RowsOf(id, data), other);
    OfRowsOf(id, data, other);
    OfWithout(rows, info.id, other);
    assert Of(rows, other) + [] == Of(rows, other);
  }

  // ------------------------------------------------- Updates of identities that do not exist

  lemma {:induction false} InsertAclsAbsent(c: Connection, id: nat, inserts: seq<AclInsert>)
    requires id !in c.db.credentials
    requires c.saved.Some? ==> id !in c.saved.value.credentials
    ensures InsertAcls(c, id, inserts) == if inserts == [] then c else Rollback(c)
  {
    if inserts != [] {
      InsertAclsAbsent(c, id, inserts[..|inserts| - 1]);
    }
  }

  lemma {:induction false} InsertRealmsAbsent(c: Connection, id: nat, realms: seq<string>)
    requires id !in c.db.credentials
    requires c.saved.Some? ==> id !in c.saved.value.credentials
    ensures InsertRealms(c, id, realms) == if realms == [] then (c, true) else (Rollback(c), false)
  {
    if realms != [] {
      InsertRealmsAbsent(c, id, realms[..|realms| - 1]);
    }
  }

  lemma NoInserts(info: Info)
    ensures AclInserts(info) == [] <==> info.methods == [] && info.acl == []
  {
    if info.methods == [] {
      assert |BareInserts(info.acl)| == |info.acl|;
    } else {
      var e := info.methods[|info.methods| - 1];
      var a := SomeInsert(e, info.acl, if e.mechanisms == [] then None else Some(e.mechanisms[0]));
      InEntryInserts(e, info.acl, a);
      InsertsMention(info, a);
    }
  }

  /** The owner rows that an update of an absent identity leaves behind: when the first ACL
      insert has ended the transaction, they are written outside of it. */
  function Orphans(db: DB, info: Info): seq<Row<Option<nat>>> {
    RowsOf(info.id, LookupAll(db.tokens, NonEmpty(info.owner)))
  }

  lemma UpdateOfAbsent(db: DB, info: Info)
    requires !Exists(db, info)
    ensures info.realms != [] ==> UpdateIdentity(db, info) == (db, 0)
    ensures info.realms == [] && AclInserts(info) != [] ==>
              UpdateIdentity(db, info) == (db.(owner := db.owner + Orphans(db, info)), 0)
    ensures info.realms == [] && AclInserts(info) == [] ==>
              UpdateIdentity(db, info) ==
              (db.(tokens := WithNames(db, info).tokens,
                   realms := Without(db.realms, info.id), acl := Without(db.acl, info.id),
                   owner := Without(db.owner, info.id) + Orphans(WithNames(db, info), info)),
               info.id)
  {
    var db2 := InternMethods(db, info.methods);
    InternMethodsOnlyInterns(db, db, info.methods);
    var db3 := db2.(realms := Without(db2.realms, info.id));
    InsertRealmsAbsent(Connection(db3, Some(db)), info.id, info.realms);
    if info.realms == [] {
      var c := Prologue(db, info).0;
      var db5 := DeleteLists(InternTokens(c.db, info), info.id);
      InsertAclsAbsent(Connection(db5, c.saved), info.id, AclInserts(info));
      InsertOwnersAppends(InsertAcls(Connection(db5, c.saved), info.id, AclInserts(info)), info.id, NonEmpty(info.owner));
      NoInserts(info);
    }
  }

  lemma CommittedFrames(db: DB, info: Info, other: nat)
    requires Integrity(db) && Exists(db, info) && other != IdOf(db, info)
    ensures ReadIdentity(UpdateIdentity(db, info).0, other) == ReadIdentity(db, other)
    ensures UpdateIdentity(db, info).0.refs == db.refs
  {
    hide UpdateIdentity, AclInserts, NonEmpty, InternMethods, InternTokens, ResolveAll, LookupAll, RowsOf, Cleared;
    hide ReadMethods, ReadAcl, ReadOwner, HasFlag, Flags;
    UpdateCommits(db, info);
    WithNamesInterns(db, info);
    var id, names, db' := IdOf(db, info), WithNames(db, info), Committed(db, info);
    OtherRows(db.acl, info, id, ResolveAll(names, AclInserts(info)), other);
    OtherRows(db.owner, info, id, LookupAll(names.tokens, NonEmpty(info.owner)), other);
    OtherRows(db.realms, info, id, info.realms, other);
    RowsOfOtherAreOk(db, other);
    OldRowsReadAlike(db, names, Of(db.acl, other), Of(db.owner, other));
    SameNamesReadAlike(db', names, Of(db.acl, other), Of(db.owner, other));
  }

  /** The owner rows and new names of an update that failed change no other identity. */
  lemma AbsentFrames(db: DB, info: Info, other: nat)
    requires Integrity(db) && !Exists(db, info) && other != info.id
    ensures ReadIdentity(UpdateIdentity(db, info).0, other) == ReadIdentity(db, other)
    ensures UpdateIdentity(db, info).0.refs == db.refs
  {
    hide UpdateIdentity, AclInserts, NonEmpty, InternMethods, InternTokens, LookupAll, RowsOf;
    hide ReadMethods, ReadAcl, ReadOwner, HasFlag, Flags;
    UpdateOfAbsent(db, info);
    if info.realms == [] && AclInserts(info) != [] {
      OrphansAreOfNobody(db.owner, db, info, other);
      SameNamesReadAlike(UpdateIdentity(db, info).0, db, Of(db.acl, other), Of(db.owner, other));
    } else if info.realms == [] {
      WithNamesInterns(db, info);
      var names, db' := WithNames(db, info), UpdateIdentity(db, info).0;
      OfWithout(db.realms, info.id, other);
      OfWithout(db.acl, info.id, other);
      OfWithout(db.owner, info.id, other);
      OrphansAreOfNobody(Without(db.owner, info.id), names, info, other);
      RowsOfOtherAreOk(db, other);
      NoInserts(info);
      TokensOnly(db, info);
      OldRowsReadAlike(db, names, Of(db.acl, other), Of(db.owner, other));
      SameNamesReadAlike(db', names, Of(db.acl, other), Of(db.owner, other));
    }
  }

  lemma OrphansAreOfNobody(rows: seq<Row<Option<nat>>>, names: DB, info: Info, other: nat)
    requires other != info.id
    ensures Of(rows + Orphans(names, info), other) == Of(rows, other)
  {
    var data := LookupAll(names.tokens, NonEmpty(info.owner));
    OfAppend(rows, RowsOf(info.id, data), other);
    OfRowsOf(info.id, data, other);
  }

  /** Without methods only tokens are interned. */
  lemma TokensOnly(db: DB, info: Info)
    requires info.methods == []
    ensures WithNames(db, info).methods == db.methods && WithNames(db, info).mechanisms == db.mechanisms
  {
  }

  /** An update, of an identity that exists or not and whether it commits or fails, leaves every
      other identity, and every reference, as it was. */
  lemma UpdateFrames(db: DB, info: Info, other: nat)
    requires Integrity(db) && other != IdOf(db, info)
    ensures ReadIdentity(UpdateIdentity(db, info).0, other) == ReadIdentity(db, other)
    ensures UpdateIdentity(db, info).0.refs == db.refs
  {
    if Exists(db, info) {
      CommittedFrames(db, info, other);
    } else {
      AbsentFrames(db, info, other);
    }
  }

  /** What the caller can check: the identity exists, or it has realms, or no owner. */
  predicate Harmless(db: DB, info: Info) {
    Exists(db, info) || info.realms != [] || forall t :: t in info.owner ==> t == ""
  }

  lemma WithoutAbsent<T>(rows: seq<Row<T>>, id: nat)
    requires forall r :: r in rows ==> r.identity != id
    ensures Without(rows, id) == rows
  {
    if rows != [] {
      assert forall r :: r in rows[1..] ==> r in rows;
      WithoutAbsent(rows[1..], id);
    }
  }

  lemma NoOwners(owner: seq<string>)
    ensures NonEmpty(owner) == [] <==> forall t :: t in owner ==> t == ""
  {
    InNonEmpty(owner);
    if NonEmpty(owner) != [] {
      assert NonEmpty(owner)[0] in NonEmpty(owner);
    }
  }

  lemma OrphansBreakIntegrity(db: DB, info: Info)
    requires !Exists(db, info) && info.realms == [] && NonEmpty(info.owner) != []
    ensures !Integrity(UpdateIdentity(db, info).0)
  {
    UpdateOfAbsent(db, info);
    var db' := UpdateIdentity(db, info).0;
    hide UpdateIdentity, WithNames, AclInserts, Without;
    assert db'.owner[|db'.owner| - |NonEmpty(info.owner)|].identity == info.id;
  }

  lemma OwnerlessKeepsIntegrity(db: DB, info: Info)
    requires Integrity(db) && !Exists(db, info) && info.realms == [] && NonEmpty(info.owner) == []
    ensures Integrity(UpdateIdentity(db, info).0)
  {
    UpdateOfAbsent(db, info);
    var db' := UpdateIdentity(db, info).0;
    if AclInserts(info) == [] {
      WithoutAbsent(db.realms, info.id);
      WithoutAbsent(db.acl, info.id);
      WithoutAbsent(db.owner, info.id);
      assert db' == db.(tokens := db'.tokens);
      WithNamesInterns(db, info);
      OldRowsStayOk(db, db.(tokens := db'.tokens));
    } else {
      assert db' == db.(owner := db.owner + []);
      assert db.owner + [] == db.owner;
    }
  }

  lemma AbsentIntegrity(db: DB, info: Info)
    requires Integrity(db) && !Exists(db, info)
    ensures Integrity(UpdateIdentity(db, info).0) <==> Harmless(db, info)
  {
    UpdateOfAbsent(db, info);
    NoOwners(info.owner);
    hide UpdateIdentity, Integrity, Exists, NonEmpty;
    if info.realms == [] {
      if NonEmpty(info.owner) != [] {
        OrphansBreakIntegrity(db, info);
      } else {
        OwnerlessKeepsIntegrity(db, info);
      }
    }
  }

  /** updateIdentity keeps every row referring to existing rows exactly when it is harmless:
      updating an identity that does not exist, without realms and with an owner, leaves
      owner rows of nobody, whether it reports success or failure. */
  lemma {:induction false} UpdateKeepsIntegrityExactly(db: DB, info: Info)
    requires Integrity(db)
    ensures Integrity(UpdateIdentity(db, info).0) <==> Harmless(db, info)
  {
    if Exists(db, info) {
      UpdateCommits(db, info);
      CommittedIntegrity(db, info);
    } else {
      AbsentIntegrity(db, info);
    }
  }

  // ------------------------------------------------------------- Removal and clearing

  function RemoveIdentity(db: DB, id: nat): DB {
    var db1 := DeleteCredentials(db, id);
    var db2 := db1.(acl := Without(db1.acl, id));
    var db3 := db2.(realms := Without(db2.realms, id));
    db3.(owner := Without(db3.owner, id))
  }

  lemma {:induction false} WithoutTwice<T>(rows: seq<Row<T>>, id: nat)
    ensures Without(Without(rows, id), id) == Without(rows, id)
  {
    if rows != [] {
      WithoutTwice(rows[1..], id);
    }
  }

  lemma RemovedTables(db: DB, id: nat)
    requires Integrity(db)
    ensures RemoveIdentity(db, id) ==
            db.(credentials := db.credentials - {id}, acl := Without(db.acl, id), owner := Without(db.owner, id),
                realms := Without(db.realms, id), refs := set r | r in db.refs && r.identity != id)
  {
    WithoutTwice(db.acl, id);
    WithoutTwice(db.realms, id);
    if id !in db.credentials {
      assert db.credentials - {id} == db.credentials;
      assert db.refs == set r | r in db.refs && r.identity != id;
    }
  }

  lemma RemovalKeepsIntegrity(db: DB, id: nat)
    requires Integrity(db)
    ensures Integrity(RemoveIdentity(db, id))
  {
    RemovedTables(db, id);
    var db' := RemoveIdentity(db, id);
    hide RemoveIdentity, NamesInv, IsId;
    forall r | r in db'.acl
      ensures r.identity in db'.credentials && AclOk(db', r.data)
    {
      WithoutMember(db.acl, id, r);
    }
    forall r | r in db'.owner
      ensures r.identity in db'.credentials && TokenOk(db', r.data)
    {
      WithoutMember(db.owner, id, r);
    }
    forall r | r in db'.realms
      ensures r.identity in db'.credentials
    {
      WithoutMember(db.realms, id, r);
    }
  }

  /** After removal no table mentions the identity; integrity holds; every other identity
      reads as before.  References go only by trigger, owner rows only by the explicit
      DELETE. */
  lemma RemovalRemoves(db: DB, id: nat, other: nat)
    requires Integrity(db) && other != id
    ensures var db' := RemoveIdentity(db, id);
            && Integrity(db') && !Mentions(db', id)
            && ReadIdentity(db', other) == ReadIdentity(db, other)
            && (forall r: RefRow :: r.identity != id ==> (r in db'.refs <==> r in db.refs))
            && db'.refs == DeleteCredentials(db, id).refs
            && DeleteCredentials(db, id).owner == db.owner
  {
    RemovalKeepsIntegrity(db, id);
    RemovedTables(db, id);
    var db' := RemoveIdentity(db, id);
    assert db'.refs == DeleteCredentials(db, id).refs;
    hide RemoveIdentity, Integrity, HasFlag, ReadMethods, ReadAcl, ReadOwner;
    OfWithout(db.acl, id, id);
    OfWithout(db.acl, id, other);
    OfWithout(db.owner, id, id);
    OfWithout(db.owner, id, other);
    OfWithout(db.realms, id, id);
    OfWithout(db.realms, id, other);
    SameNamesReadAlike(db, db', Of(db.acl, other), Of(db.owner, other));
  }

  /** The deletions of clear(); identity and name counters go on. */
  function Clear(db: DB): DB {
    db.(credentials := map[], methods := db.methods.(ids := map[]), mechanisms := db.mechanisms.(ids := map[]),
        tokens := db.tokens.(ids := map[]), acl := [], owner := [], realms := [], refs := {})
  }

  /** After clear() there is no identity, reference or name left, but new identities still get new
      numbers. */
  lemma ClearEmpties(db: DB, id: nat, token: string, name: string)
    requires Integrity(db)
    ensures var db' := Step(db, ClearAll);
      && Integrity(db') && !Mentions(db', id) && ReadIdentity(db', id) == None && References(db', id, token) == {}
      && name !in db'.methods.ids && name !in db'.mechanisms.ids && name !in db'.tokens.ids
      && db'.nextId == db.nextId
  {
  }

  // ------------------------------------------------------------------- References

  function References(db: DB, id: nat, token: string): set<string> {
    if token == "" then set r | r in db.refs && r.identity == id :: r.reference
    else if token !in db.tokens.ids then {}
    else set r | r in db.refs && r.identity == id && r.token == Some(db.tokens.ids[token]) :: r.reference
  }

  /** Trigger fki_REFS_identity_id_CREDENTIALS_id refuses a reference to nobody, and the
      transaction takes the new token back with it. */
  function AddReference(db: DB, id: nat, token: string, reference: string): (r: (DB, bool)) {
    if id !in db.credentials then (db, false)
    else
      var tokens := Intern(db.tokens, token);
      (db.(tokens := tokens, refs := db.refs + {RefRow(id, Lookup(tokens, token), reference)}), true)
  }

  predicate Refers(db: DB, r: RefRow, id: nat, token: string) {
    r.identity == id && token in db.tokens.ids && r.token == Some(db.tokens.ids[token])
  }

  /** `reference` is None for a null string, which means all references of the token. */
  function RemoveReference(db: DB, id: nat, token: string, reference: Option<string>): (r: (DB, bool)) {
    var refs := References(db, id, token);
    if refs == {} then (db, false)
    else if reference.Some? && reference.value !in refs then (db, false)
    else
      (db.(refs := if reference.None? || reference.value == ""
                   then set r | r in db.refs && !Refers(db, r, id, token)
                   else set r | r in db.refs && !(Refers(db, r, id, token) && r.reference == reference.value)),
       true)
  }

  /** The rows behind the references: without a token those of any token. */
  predicate Listed(db: DB, r: RefRow, id: nat, token: string) {
    r.identity == id && (token == "" || Refers(db, r, id, token))
  }

  /** The rows that the deletion matches. */
  predicate Taken(db: DB, r: RefRow, id: nat, token: string, reference: Option<string>) {
    Refers(db, r, id, token) && (reference.None? || reference.value == "" || r.reference == reference.value)
  }

  lemma ReferencesAreListed(db: DB, id: nat, token: string, x: string)
    ensures x in References(db, id, token) <==> exists r :: r in db.refs && Listed(db, r, id, token) && r.reference == x
  {
    if r :| r in db.refs && Listed(db, r, id, token) && r.reference == x {
      assert r.reference in References(db, id, token);
    }
  }

  /** A removal succeeds exactly when a listed row has the reference, or any listed row is there
      when the reference is null.  It takes exactly the rows of the token with the reference, or
      all of the token when it is null or empty: so without a token it looks at the rows of every
      token and takes those of the empty one, and may succeed without taking any. */
  lemma RemovedRowsExactly(db: DB, id: nat, token: string, reference: Option<string>)
    ensures var (db', ok) := RemoveReference(db, id, token, reference);
      && (ok <==> exists r :: r in db.refs && Listed(db, r, id, token) && (reference.Some? ==> r.reference == reference.value))
      && (!ok ==> db' == db)
      && (ok ==> db' == db.(refs := db'.refs)
                 && forall r :: r in db'.refs <==> r in db.refs && !Taken(db, r, id, token, reference))
      && (ok ==> (db' != db <==> exists r :: r in db.refs && Taken(db, r, id, token, reference)))
  {
    var refs := References(db, id, token);
    forall x ensures x in refs <==> exists r :: r in db.refs && Listed(db, r, id, token) && r.reference == x {
      ReferencesAreListed(db, id, token, x);
    }
    if refs != {} {
      var x :| x in refs;
    }
    if r :| r in db.refs && Listed(db, r, id, token) && (reference.Some? ==> r.reference == reference.value) {
      assert r.reference in refs;
    }
    hide References, Refers;
  }

  lemma AddKeepsNames(db: DB, id: nat, token: string, reference: string)
    requires NameTablesInv(db) && id in db.credentials
    ensures var db' := AddReference(db, id, token, reference).0;
      NameTablesInv(db') && NamesExtend(db, db') && TokenOk(db', Lookup(db'.tokens, token))
  {
    var db' := AddReference(db, id, token, reference).0;
    assert db'.tokens.ids[token] in db'.tokens.ids.Values;
  }

  lemma AddKeepsIntegrity(db: DB, id: nat, token: string, reference: string)
    requires Integrity(db) && id in db.credentials
    ensures Integrity(AddReference(db, id, token, reference).0)
  {
    var db' := AddReference(db, id, token, reference).0;
    AddKeepsNames(db, id, token, reference);
    OldRowsStayOk(db, db');
    hide NameTablesInv, AclOk, TokenOk, NamesExtend, Lookup, Intern;
  }

  /** A reference row, seen through the table of tokens after the insertion. */
  lemma ListedBefore(db: DB, r: RefRow, token: string)
    requires Integrity(db) && r in db.refs && r.token == Lookup(Intern(db.tokens, token), token)
    ensures token in db.tokens.ids
    ensures token != "" ==> r.reference in References(db, r.identity, token)
  {
    assert TokenOk(db, r.token);
    var a :| a in db.tokens.ids && db.tokens.ids[a] == r.token.value;
  }

  /** The references of a token after the insertion. */
  lemma AddedReferences(db: DB, id: nat, token: string, reference: string)
    requires Integrity(db) && id in db.credentials
    ensures var db' := AddReference(db, id, token, reference).0;
            References(db', id, token) == References(db, id, token) + {reference}
  {
    hide Integrity;
    var db' := AddReference(db, id, token, reference).0;
    var row := RefRow(id, Lookup(db'.tokens, token), reference);
    assert row in db'.refs;
    forall x
      ensures x in References(db', id, token) <==> x in References(db, id, token) || x == reference
    {
      if token != "" && x in References(db', id, token) && x != reference {
        var r :| r in db'.refs && r.identity == id && r.token == Some(db'.tokens.ids[token]) && r.reference == x;
        ListedBefore(db, r, token);
      }
    }
  }

  lemma AddFramesIdentities(db: DB, id: nat, token: string, reference: string, other: nat)
    requires Integrity(db) && id in db.credentials
    ensures ReadIdentity(AddReference(db, id, token, reference).0, other) == ReadIdentity(db, other)
  {
    var db' := AddReference(db, id, token, reference).0;
    AddKeepsIntegrity(db, id, token, reference);
    RowsOfOtherAreOk(db, other);
    assert NamesExtend(db, db');
    OldRowsReadAlike(db, db', Of(db.acl, other), Of(db.owner, other));
  }

  /** A reference that was accepted is listed, under its token and under no token; refused
      ones change nothing; identities and other references are untouched. */
  lemma AddedReferenceIsListed(db: DB, id: nat, token: string, reference: string, other: nat)
    requires Integrity(db)
    ensures var (db', ok) := AddReference(db, id, token, reference);
            && Integrity(db') && (ok <==> id in db.credentials) && (!ok ==> db' == db)
            && (ok ==> References(db', id, token) == References(db, id, token) + {reference}
                       && reference in References(db', id, ""))
            && (other != id ==> References(db', other, "") == References(db, other, ""))
            && ReadIdentity(db', other) == ReadIdentity(db, other)
  {
    var db' := AddReference(db, id, token, reference).0;
    if id in db.credentials {
      AddKeepsIntegrity(db, id, token, reference);
      AddedReferences(db, id, token, reference);
      AddFramesIdentities(db, id, token, reference, other);
      hide Integrity, ReadIdentity;
      assert RefRow(id, Lookup(db'.tokens, token), reference) in db'.refs;
    }
  }

  /** The rows of a token are the same before and after the token is interned. */
  lemma InternedRefersAlike(db: DB, r: RefRow, id: nat, token: string)
    requires Integrity(db) && r in db.refs
    ensures r.identity == id && r.token == Lookup(Intern(db.tokens, token), token) <==> Refers(db, r, id, token)
  {
    if r.token == Lookup(Intern(db.tokens, token), token) {
      ListedBefore(db, r, token);
    }
  }

  /** Removing a reference that was just added succeeds, and gives the references back exactly
      when nothing that it takes was there before: the reference itself, or for an empty
      reference any of the token. */
  lemma RemoveUndoesAddExactly(db: DB, id: nat, token: string, reference: string)
    requires Integrity(db) && id in db.credentials
    ensures var (db1, ok1) := AddReference(db, id, token, reference);
            var (db2, ok2) := RemoveReference(db1, id, token, Some(reference));
            && ok1 && ok2
            && (db2.refs == db.refs <==>
                forall r <- db.refs :: !(Refers(db, r, id, token) && (reference == "" || r.reference == reference)))
  {
    var db1 := AddReference(db, id, token, reference).0;
    var row := RefRow(id, Lookup(db1.tokens, token), reference);
    AddedReferences(db, id, token, reference);
    RemovedRowsExactly(db1, id, token, Some(reference));
    var db2 := RemoveReference(db1, id, token, Some(reference)).0;
    forall r <- db.refs
      ensures r in db2.refs <==> !(Refers(db, r, id, token) && (reference == "" || r.reference == reference))
    {
      InternedRefersAlike(db, r, id, token);
    }
    assert row in db1.refs && row !in db2.refs;
    hide Integrity, References, RemoveReference, Intern;
    assert forall r :: r in db1.refs <==> r in db.refs || r == row;
  }

  lemma RemoveRefKeepsIntegrity(db: DB, id: nat, token: string, reference: Option<string>)
    requires Integrity(db)
    ensures var db' := RemoveReference(db, id, token, reference).0;
            Integrity(db') && db' == db.(refs := db'.refs) && db'.refs <= db.refs
  {
    hide NamesInv, IsId, References;
  }

  lemma {:induction false} RemovedReferenceKeeps(db: DB, id: nat, token: string, reference: Option<string>, other: nat)
    requires Integrity(db)
    ensures var (db', ok) := RemoveReference(db, id, token, reference);
            && Integrity(db') && db'.refs <= db.refs
            && (other != id ==> References(db', other, "") == References(db, other, ""))
            && ReadIdentity(db', other) == ReadIdentity(db, other)
  {
    var db' := RemoveReference(db, id, token, reference).0;
    RemoveRefKeepsIntegrity(db, id, token, reference);
    hide Integrity, HasFlag, ReadMethods, ReadAcl, ReadOwner;
    SameNamesReadAlike(db, db', Of(db.acl, other), Of(db.owner, other));
    assert forall x: RefRow :: x.identity == other && other != id ==> (x in db'.refs <==> x in db.refs);
  }

  /** What a removal takes: the one reference, or all of its token when the reference is null or
      empty, and nothing of another token; it reports success exactly when there was something
      to take. */
  lemma RemovedReferencesExactly(db: DB, id: nat, token: string, reference: Option<string>, otherToken: string)
    requires Integrity(db) && token != "" && otherToken != "" && otherToken != token
    ensures var (db', ok) := RemoveReference(db, id, token, reference);
      var before, after := References(db, id, token), References(db', id, token);
      && (ok <==> before != {} && (reference.Some? ==> reference.value in before))
      && (!ok ==> db' == db)
      && (ok ==> after == if reference.None? || reference.value == "" then {} else before - {reference.value})
      && References(db', id, otherToken) == References(db, id, otherToken)
  {
    var (db', ok) := RemoveReference(db, id, token, reference);
    if ok {
      var all := reference.None? || reference.value == "";
      forall x ensures x in References(db', id, token)
                  <==> !all && x in References(db, id, token) && x != reference.value
      {
        if !all && x in References(db, id, token) && x != reference.value {
          var r := RefRow(id, Some(db.tokens.ids[token]), x);
          assert r in db'.refs;
        }
      }
      forall x ensures x in References(db', id, otherToken) <==> x in References(db, id, otherToken) {
        if x in References(db, id, otherToken) {
          var r := RefRow(id, Some(db.tokens.ids[otherToken]), x);
          assert !Refers(db, r, id, token);
          assert r in db'.refs;
        }
      }
    }
  }

  // ----------------------------------------------------------------------- Runs

  datatype Event =
    | Update(info: Info)
    | Remove(id: nat)
    | ClearAll
    | AddRef(id: nat, token: string, reference: string)
    | RemoveRef(id: nat, token: string, reference': Option<string>)

  function Step(db: DB, e: Event): DB {
    match e
    case Update(info) => UpdateIdentity(db, info).0
    case Remove(id) => RemoveIdentity(db, id)
    case ClearAll => Clear(db)
    case AddRef(id, token, reference) => AddReference(db, id, token, reference).0
    case RemoveRef(id, token, reference) => RemoveReference(db, id, token, reference).0
  }

  function Run(db: DB, es: seq<Event>): DB {
    if es == [] then db else Step(Run(db, es[..|es| - 1]), es[|es| - 1])
  }

  /** Every update in the run is harmless where it happens. */
  predicate HarmlessRun(db: DB, es: seq<Event>) {
    es == [] ||
    (HarmlessRun(db, es[..|es| - 1])
     && (es[|es| - 1].Update? ==> Harmless(Run(db, es[..|es| - 1]), es[|es| - 1].info)))
  }

  lemma StepKeepsIntegrity(db: DB, e: Event)
    requires Integrity(db) && (e.Update? ==> Harmless(db, e.info))
    ensures Integrity(Step(db, e))
  {
    match e
    case Update(info) => UpdateKeepsIntegrityExactly(db, info);
    case Remove(id) => RemovalRemoves(db, id, id + 1);
    case ClearAll =>
    case AddRef(id, token, reference) =>
      if id in db.credentials {
        AddKeepsIntegrity(db, id, token, reference);
      }
    case RemoveRef(id, token, reference) => RemovedReferenceKeeps(db, id, token, reference, 0);
  }

  /** In every database reached from the empty one, every row refers to existing rows. */
  lemma {:induction false} RunKeepsIntegrity(es: seq<Event>)
    requires HarmlessRun(EMPTY, es)
    ensures Integrity(Run(EMPTY, es))
  {
    if es != [] {
      RunKeepsIntegrity(es[..|es| - 1]);
      StepKeepsIntegrity(Run(EMPTY, es[..|es| - 1]), es[|es| - 1]);
    }
  }

  /** No secret user name stands in the table of identities. */
  predicate NamesAreSecret(db: DB) {
    forall id <- db.credentials ::
      HasFlag(db.credentials[id].flags, USER_NAME_IS_SECRET) ==> db.credentials[id].userName == ""
  }

  lemma UpdateKeepsNamesSecret(db: DB, info: Info)
    requires NamesAreSecret(db)
    ensures NamesAreSecret(UpdateIdentity(db, info).0)
  {
    FlagsRoundTrip(info);
    if Exists(db, info) {
      UpdateCommits(db, info);
    } else {
      UpdateOfAbsent(db, info);
      NoInserts(info);
    }
    hide UpdateIdentity, HasFlag, Flags, Orphans, WithNames, AclInserts, IdOf;
  }

  /** In every run, harmless or not, a user name that is to be secret never gets into the metadata
      database. */
  lemma {:induction false} RunKeepsNamesSecret(es: seq<Event>)
    ensures NamesAreSecret(Run(EMPTY, es))
    decreases |es|
  {
    hide UpdateIdentity, HasFlag;
    if es != [] {
      RunKeepsNamesSecret(es[..|es| - 1]);
      var db, e := Run(EMPTY, es[..|es| - 1]), es[|es| - 1];
      if e.Update? {
        UpdateKeepsNamesSecret(db, e.info);
      }
    }
  }

  /** Identity ids are never handed out twice, not even after removal or clearing. */
  lemma IdsAreFresh(db: DB, e: Event)
    ensures db.nextId <= Step(db, e).nextId
    ensures e.Update? && e.info.id == 0 ==> Step(db, e).nextId == db.nextId + 1
  {
    if e.Update? {
      if Exists(db, e.info) {
        UpdateCommits(db, e.info);
      } else {
        UpdateOfAbsent(db, e.info);
        NoInserts(e.info);
      }
    }
  }
}
