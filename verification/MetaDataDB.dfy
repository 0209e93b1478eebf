/**
 The metadata database as an object: statements executed one by one inside a
 transaction.  Each operation is proved to have the effect of its counterpart in
 IdentityStore, whichever statement a trigger stops.
 */
module MetaDataDB {
  import opened Wrappers
  import opened MetaDataTables
  import Spec = IdentityStore

  lemma {:induction false} InsertAclsAppend(c: Connection, id: nat, a: seq<AclInsert>, b: seq<AclInsert>)
    ensures Spec.InsertAcls(c, id, a + b) == Spec.InsertAcls(Spec.InsertAcls(c, id, a), id, b)
  {
    if b == [] {
      assert a + b == a;
    } else {
      var n := |b| - 1;
      assert (a + b)[..|a + b| - 1] == a + b[..n];
      InsertAclsAppend(c, id, a, b[..n]);
    }
  }

  class MetaDataDB {
    var tables: DB
    var saved: Option<DB>

    ghost function View(): Connection
      reads this
    {
      Connection(tables, saved)
    }

    constructor ()
      ensures tables == EMPTY && saved == None
    {
      tables, saved := EMPTY, None;
    }

    method StartTransaction()
      requires saved == None
      modifies this
      ensures tables == old(tables) && saved == Some(tables)
    {
      saved := Some(tables);
    }

    /** Also what RAISE(ROLLBACK) does. */
    method RollbackAll()
      modifies this
      ensures View() == Rollback(old(View()))
    {
      if saved.Some? {
        tables := saved.value;
        saved := None;
      }
    }

    method Commit() returns (ok: bool)
      modifies this
      ensures tables == old(tables) && saved == None && ok == old(saved).Some?
    {
      ok := saved.Some?;
      saved := None;
    }

    // ------------------------------------------------------------- updateIdentity

    method UpdateCredentials(info: Spec.Info) returns (id: nat)
      modifies this
      ensures saved == old(saved) && (tables, id) == Spec.WriteCredentials(old(tables), info)
    {
      var flags := 0;
      if info.validated {
        flags := flags + Spec.VALIDATED;
      }
      if info.storePassword {
        flags := flags + Spec.REMEMBER_PASSWORD;
      }
      if info.userNameSecret {
        flags := flags + Spec.USER_NAME_IS_SECRET;
      }
      var row := Credentials(info.caption, if info.userNameSecret then "" else info.userName, flags, info.kind);
      if info.id != 0 {
        if info.id in tables.credentials {
          tables := tables.(credentials := tables.credentials[info.id := row]);
        }
        id := info.id;
      } else {
        id := tables.nextId;
        tables := tables.(credentials := tables.credentials[id := row], nextId := id + 1);
      }
    }

    method InsertMethods(entries: seq<Spec.MethodEntry>)
      modifies this
      ensures saved == old(saved) && tables == Spec.InternMethods(old(tables), entries)
    {
      for i := 0 to |entries|
        invariant saved == old(saved) && tables == Spec.InternMethods(old(tables), entries[..i])
      {
        var e := entries[i];
        assert entries[..i + 1][..i] == entries[..i];
        ghost var before := tables;
        tables := tables.(methods := Intern(tables.methods, e.name));
        for j := 0 to |e.mechanisms|
          invariant saved == old(saved)
          invariant tables == before.(methods := Intern(before.methods, e.name),
                                      mechanisms := InternAll(before.mechanisms, e.mechanisms[..j]))
        {
          assert e.mechanisms[..j + 1][..j] == e.mechanisms[..j];
          tables := tables.(mechanisms := Intern(tables.mechanisms, e.mechanisms[j]));
        }
        assert e.mechanisms[..|e.mechanisms|] == e.mechanisms;
      }
      assert entries[..|entries|] == entries;
    }

    method UpdateRealms(id: nat, realms: seq<string>, isNew: bool) returns (ok: bool)
      modifies this
      ensures var before := if isNew then old(tables) else old(tables).(realms := Without(old(tables).realms, id));
              (View(), ok) == Spec.InsertRealms(Connection(before, old(saved)), id, realms)
    {
      if !isNew {
        tables := tables.(realms := Without(tables.realms, id));
      }
      ghost var before := View();
      ok := true;
      var i := 0;
      while i < |realms| && ok
        invariant 0 <= i <= |realms|
        invariant (View(), ok) == Spec.InsertRealms(before, id, realms[..i])
      {
        assert realms[..i + 1][..i] == realms[..i];
        ok := ExecInsertRealm(id, realms[i]);
        i := i + 1;
      }
      InsertRealmsStops(before, id, realms, i);
    }

    /** A failed insert decides the outcome of the whole list. */
    static lemma {:induction false} InsertRealmsStops(c: Connection, id: nat, realms: seq<string>, i: nat)
      requires i <= |realms|
      requires i == |realms| || !Spec.InsertRealms(c, id, realms[..i]).1
      ensures Spec.InsertRealms(c, id, realms) == Spec.InsertRealms(c, id, realms[..i])
      decreases |realms|
    {
      if i == |realms| {
        assert realms[..i] == realms;
      } else {
        var n := |realms| - 1;
        assert realms[..n][..i] == realms[..i];
        InsertRealmsStops(c, id, realms[..n], i);
      }
    }

    method ExecInsertRealm(id: nat, realm: string) returns (ok: bool)
      modifies this
      ensures View() == InsertRealm(old(View()), id, realm) && ok == (id in old(tables).credentials)
    {
      ok := id in tables.credentials;
      if id !in tables.credentials {
        RollbackAll();
      } else {
        tables := tables.(realms := tables.realms + [Row(id, realm)]);
      }
    }

    method InsertTokens(names: seq<string>)
      modifies this
      ensures saved == old(saved)
      ensures tables == old(tables).(tokens := InternAll(old(tables).tokens, Spec.NonEmpty(names)))
    {
      for i := 0 to |names|
        invariant saved == old(saved)
        invariant tables == old(tables).(tokens := InternAll(old(tables).tokens, Spec.NonEmpty(names[..i])))
      {
        assert names[..i + 1][..i] == names[..i];
        if names[i] != "" {
          ghost var done := Spec.NonEmpty(names[..i]);
          assert (done + [names[i]])[..|done|] == done;
          tables := tables.(tokens := Intern(tables.tokens, names[i]));
        } else {
          assert Spec.NonEmpty(names[..i]) + [] == Spec.NonEmpty(names[..i]);
        }
      }
      assert names[..|names|] == names;
    }

    method InsertAclTokens(names: seq<string>)
      modifies this
      ensures saved == old(saved) && tables == old(tables).(tokens := InternAll(old(tables).tokens, names))
    {
      for i := 0 to |names|
        invariant saved == old(saved)
        invariant tables == old(tables).(tokens := InternAll(old(tables).tokens, names[..i]))
      {
        assert names[..i + 1][..i] == names[..i];
        tables := tables.(tokens := Intern(tables.tokens, names[i]));
      }
      assert names[..|names|] == names;
    }

    method ExecInsertAcl(id: nat, a: AclInsert)
      modifies this
      ensures View() == InsertAcl(old(View()), id, a)
    {
      if id !in tables.credentials {
        RollbackAll();
      } else {
        tables := tables.(acl := tables.acl + [Row(id, ResolveAcl(tables, a))]);
      }
    }

    /** The rows of one method for one token (or none). */
    method InsertMethodRows(id: nat, e: Spec.MethodEntry, token: Option<string>)
      modifies this
      ensures View() == Spec.InsertAcls(old(View()), id, Spec.RowInserts(e, token))
    {
      ghost var before := View();
      for i := 0 to |e.mechanisms|
        invariant View() == Spec.InsertAcls(before, id, Spec.MechanismInserts(e.name, e.mechanisms[..i], token))
      {
        var a := AclInsert(Some(e.name), Some(e.mechanisms[i]), token);
        ghost var rows := Spec.MechanismInserts(e.name, e.mechanisms[..i + 1], token);
        assert rows[..i] == Spec.MechanismInserts(e.name, e.mechanisms[..i], token) && rows[i] == a;
        ExecInsertAcl(id, a);
      }
      assert e.mechanisms[..|e.mechanisms|] == e.mechanisms;
      if e.mechanisms == [] {
        var a := AclInsert(Some(e.name), None, token);
        assert Spec.RowInserts(e, token) == [a];
        assert [a][..0] == [];
        ExecInsertAcl(id, a);
      } else {
        assert Spec.RowInserts(e, token) == Spec.MechanismInserts(e.name, e.mechanisms, token);
      }
    }

    method InsertEntryRows(id: nat, e: Spec.MethodEntry, tokens: seq<string>)
      modifies this
      ensures View() == Spec.InsertAcls(old(View()), id, Spec.EntryInserts(e, tokens))
    {
      ghost var before := View();
      if tokens != [] {
        for i := 0 to |tokens|
          invariant View() == Spec.InsertAcls(before, id, Spec.TokenInserts(e, tokens[..i]))
        {
          assert tokens[..i + 1][..i] == tokens[..i];
          InsertMethodRows(id, e, Some(tokens[i]));
          InsertAclsAppend(before, id, Spec.TokenInserts(e, tokens[..i]), Spec.RowInserts(e, Some(tokens[i])));
        }
        assert tokens[..|tokens|] == tokens;
      } else {
        InsertMethodRows(id, e, None);
      }
    }

    method InsertAclRows(id: nat, info: Spec.Info)
      modifies this
      ensures View() == Spec.InsertAcls(old(View()), id, Spec.AclInserts(info))
    {
      ghost var before := View();
      for i := 0 to |info.methods|
        invariant View() == Spec.InsertAcls(before, id, Spec.MethodInserts(info.methods[..i], info.acl))
      {
        assert info.methods[..i + 1][..i] == info.methods[..i];
        InsertEntryRows(id, info.methods[i], info.acl);
        InsertAclsAppend(before, id, Spec.MethodInserts(info.methods[..i], info.acl),
                         Spec.EntryInserts(info.methods[i], info.acl));
      }
      assert info.methods[..|info.methods|] == info.methods;
      if info.methods == [] {
        InsertBareRows(id, info.acl);
      }
    }

    /** The tokens of an identity without methods. */
    method InsertBareRows(id: nat, acl: seq<string>)
      modifies this
      ensures View() == Spec.InsertAcls(old(View()), id, Spec.BareInserts(acl))
    {
      ghost var before := View();
      for i := 0 to |acl|
        invariant View() == Spec.InsertAcls(before, id, Spec.BareInserts(acl[..i]))
      {
        var a := AclInsert(None, None, Some(acl[i]));
        assert Spec.BareInserts(acl[..i + 1])[..i] == Spec.BareInserts(acl[..i]);
        ExecInsertAcl(id, a);
      }
      assert acl[..|acl|] == acl;
    }

    method InsertOwnerRows(id: nat, owner: seq<string>)
      modifies this
      ensures View() == Spec.InsertOwners(old(View()), id, Spec.NonEmpty(owner))
    {
      ghost var before := View();
      for i := 0 to |owner|
        invariant View() == Spec.InsertOwners(before, id, Spec.NonEmpty(owner[..i]))
      {
        assert owner[..i + 1][..i] == owner[..i];
        if owner[i] != "" {
          ghost var done := Spec.NonEmpty(owner[..i]);
          assert (done + [owner[i]])[..|done|] == done;
          tables := tables.(owner := tables.owner + [Row(id, Lookup(tables.tokens, owner[i]))]);
        } else {
          assert Spec.NonEmpty(owner[..i]) + [] == Spec.NonEmpty(owner[..i]);
        }
      }
      assert owner[..|owner|] == owner;
    }

    /** The part of the transaction after the realms. */
    method WriteLists(id: nat, info: Spec.Info)
      modifies this
      ensures View() == Spec.Body(old(View()), id, info)
    {
      hide Spec.AclInserts, Spec.InsertAcls, Spec.InsertOwners, Spec.NonEmpty;
      InsertAclTokens(info.acl);
      InsertTokens(info.owner);
      if info.id != 0 {
        tables := tables.(acl := Without(tables.acl, id));
        tables := tables.(owner := Without(tables.owner, id));
      }
      InsertAclRows(id, info);
      InsertOwnerRows(id, info.owner);
    }

    method UpdateIdentity(info: Spec.Info) returns (id: nat)
      requires saved == None
      modifies this
      ensures saved == None && (tables, id) == Spec.UpdateIdentity(old(tables), info)
      ensures Integrity(old(tables)) && Spec.WellFormed(info) && Spec.Exists(old(tables), info) ==>
                id > 0 && Spec.ReadIdentity(tables, id) == Some(Spec.Expected(info, id))
      ensures Integrity(old(tables)) ==> (Integrity(tables) <==> Spec.Harmless(old(tables), info))
    {
      hide Spec.Body, Spec.InsertRealms, Spec.InternMethods;
      hide Integrity, Spec.WellFormed, Spec.Exists, Spec.ReadIdentity, Spec.Expected, Spec.Harmless;
      if Integrity(tables) {
        Spec.UpdateKeepsIntegrityExactly(tables, info);
        if Spec.WellFormed(info) && Spec.Exists(tables, info) {
          Spec.RoundTrip(tables, info);
        }
      }
      StartTransaction();
      id := UpdateCredentials(info);
      InsertMethods(info.methods);
      var ok := UpdateRealms(id, info.realms, info.id == 0);
      if !ok {
        RollbackAll();
        return 0;
      }
      WriteLists(id, info);
      var committed := Commit();
      if !committed {
        id := 0;
      }
    }

    // ------------------------------------------------------------------ identity()

    method Identity(id: nat) returns (r: Option<Spec.Identity>)
      ensures r == Spec.ReadIdentity(tables, id)
    {
      if id !in tables.credentials {
        return None;
      }
      var row := tables.credentials[id];
      var isUserNameSecret := Spec.HasFlag(row.flags, Spec.USER_NAME_IS_SECRET);
      var userName := row.userName;
      if isUserNameSecret {
        userName := "";
      }
      var acl := Of(tables.acl, id);
      var pending := set n | n in tables.methods.ids && Spec.HasMethod(acl, tables.methods.ids[n]);
      var methods: map<string, set<string>> := map[];
      while pending != {}
        invariant pending <= tables.methods.ids.Keys
        invariant forall n :: n in pending || n in methods.Keys <==>
                    n in tables.methods.ids && Spec.HasMethod(acl, tables.methods.ids[n])
        invariant forall n :: n in methods && n in tables.methods.ids ==>
                    methods[n] == Spec.ReadMechanisms(tables, acl, tables.methods.ids[n])
        decreases pending
      {
        var n :| n in pending;
        methods := methods[n := Spec.ReadMechanisms(tables, acl, tables.methods.ids[n])];
        pending := pending - {n};
      }
      assert methods == Spec.ReadMethods(tables, acl);
      return Some(Spec.Identity(id, row.caption, userName, row.kind,
                                Spec.HasFlag(row.flags, Spec.VALIDATED),
                                Spec.HasFlag(row.flags, Spec.REMEMBER_PASSWORD), isUserNameSecret,
                                methods, Spec.ReadAcl(tables, acl),
                                Spec.ReadOwner(tables, Of(tables.owner, id)), multiset(Of(tables.realms, id))));
    }

    /** INSERT INTO METHODS; refused when the name is taken. */
    method InsertMethod(authMethod: string) returns (ok: bool)
      modifies this`tables
      ensures ok == (authMethod !in old(tables).methods.ids)
      ensures tables == old(tables).(methods := Intern(old(tables).methods, authMethod))
    {
      var methods := tables.methods;
      if authMethod in methods.ids {
        return false;
      }
      tables := tables.(methods := Names(methods.ids[authMethod := methods.next], methods.next + 1));
      return true;
    }

    // ------------------------------------------------- Removal, clearing, references

    method RemoveIdentity(id: nat)
      requires saved == None
      modifies this
      ensures saved == None && tables == Spec.RemoveIdentity(old(tables), id)
      ensures Integrity(old(tables)) ==> Integrity(tables) && !Mentions(tables, id)
    {
      hide Integrity, Mentions;
      if Integrity(tables) {
        Spec.RemovalRemoves(tables, id, id + 1);
      }
      StartTransaction();
      tables := DeleteCredentials(tables, id);
      tables := tables.(acl := Without(tables.acl, id));
      tables := tables.(realms := Without(tables.realms, id));
      tables := tables.(owner := Without(tables.owner, id));
      var _ := Commit();
    }

    method Clear()
      requires saved == None
      modifies this
      ensures saved == None && tables == Spec.Clear(old(tables))
    {
      StartTransaction();
      tables := tables.(credentials := map[], realms := [], acl := [], refs := {});
      tables := tables.(methods := tables.methods.(ids := map[]));
      tables := tables.(mechanisms := tables.mechanisms.(ids := map[]));
      tables := tables.(tokens := tables.tokens.(ids := map[]));
      tables := tables.(owner := []);
      var _ := Commit();
    }

    method AddReference(id: nat, token: string, reference: string) returns (ok: bool)
      requires saved == None
      modifies this
      ensures saved == None && (tables, ok) == Spec.AddReference(old(tables), id, token, reference)
    {
      StartTransaction();
      tables := tables.(tokens := Intern(tables.tokens, token));
      ok := id in tables.credentials;
      if ok {
        tables := tables.(refs := tables.refs + {RefRow(id, Lookup(tables.tokens, token), reference)});
      } else {
        RollbackAll();
      }
      if ok {
        ok := Commit();
      } else {
        RollbackAll();
      }
    }

    method RemoveReference(id: nat, token: string, reference: Option<string>) returns (ok: bool)
      requires saved == None
      modifies this
      ensures saved == None && (tables, ok) == Spec.RemoveReference(old(tables), id, token, reference)
    {
      var refs := Spec.References(tables, id, token);
      if refs == {} {
        return false;
      }
      if reference.Some? && reference.value !in refs {
        return false;
      }
      StartTransaction();
      if reference.None? || reference.value == "" {
        tables := tables.(refs := set r | r in tables.refs && !Spec.Refers(tables, r, id, token));
      } else {
        tables := tables.(refs := set r | r in tables.refs
                                      && !(Spec.Refers(tables, r, id, token) && r.reference == reference.value));
      }
      ok := Commit();
    }
  }

  /** Carrying out an operation on the database is one step of the identity store, and keeps
      every row referring to existing rows unless it is a harmful update. */
  method Deliver(db: MetaDataDB, e: Spec.Event)
    requires db.saved == None
    modifies db
    ensures db.saved == None && db.tables == Spec.Step(old(db.tables), e)
    ensures old(Integrity(db.tables) && (e.Update? ==> Spec.Harmless(db.tables, e.info))) ==> Integrity(db.tables)
  {
    hide Integrity, Spec.Harmless, Spec.UpdateIdentity, Spec.RemoveIdentity, Spec.Clear, Spec.AddReference;
    hide Spec.RemoveReference;
    if Integrity(db.tables) && (e.Update? ==> Spec.Harmless(db.tables, e.info)) {
      Spec.StepKeepsIntegrity(db.tables, e);
    }
    match e
    case Update(info) => var _ := db.UpdateIdentity(info);
    case Remove(id) => db.RemoveIdentity(id);
    case ClearAll => db.Clear();
    case AddRef(id, token, reference) => var _ := db.AddReference(id, token, reference);
    case RemoveRef(id, token, reference) => var _ := db.RemoveReference(id, token, reference);
  }
}
