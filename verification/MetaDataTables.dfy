/**
 The metadata database as tables: interned names, rows keyed by identity, and the
 statements that MetaDataDB issues, with the effect of its triggers.
 Foreign keys are not enforced by the engine; the triggers are all there is.
 */
module MetaDataTables {
  import opened Wrappers

  // ------------------------------------------------------------ Interned names

  /** A table (id INTEGER PRIMARY KEY AUTOINCREMENT, name TEXT UNIQUE). */
  datatype Names = Names(ids: map<string, nat>, next: nat)

  /** INSERT OR IGNORE. */
  function Intern(n: Names, name: string): Names {
    if name in n.ids then n else Names(n.ids[name := n.next], n.next + 1)
  }

  function InternAll(n: Names, names: seq<string>): Names {
    if names == [] then n
    else Intern(InternAll(n, names[..|names| - 1]), names[|names| - 1])
  }

  /** SELECT id ... WHERE name = :name; NULL when there is no such row. */
  function Lookup(n: Names, name: string): Option<nat> {
    if name in n.ids then Some(n.ids[name]) else None
  }

  ghost predicate NamesInv(n: Names) {
    && (forall a :: a in n.ids ==> 0 < n.ids[a] < n.next)
    && (forall a, b :: a in n.ids && b in n.ids && n.ids[a] == n.ids[b] ==> a == b)
  }

  ghost predicate Extends(n: Names, n': Names) {
    forall a :: a in n.ids ==> a in n'.ids && n'.ids[a] == n.ids[a]
  }

  predicate IsId(n: Names, id: nat) {
    id in n.ids.Values
  }

  lemma {:induction false} InternAllInterns(n: Names, names: seq<string>)
    requires NamesInv(n) && n.next > 0
    ensures NamesInv(InternAll(n, names)) && Extends(n, InternAll(n, names))
    ensures InternAll(n, names).next > 0
    ensures forall a :: a in names ==> a in InternAll(n, names).ids
  {
    if names != [] {
      InternAllInterns(n, names[..|names| - 1]);
    }
  }

  lemma ExtendsKeepsIds(n: Names, n': Names, id: nat)
    requires Extends(n, n') && IsId(n, id)
    ensures IsId(n', id)
  {
    var a :| a in n.ids && n.ids[a] == id;
    assert a in n'.ids && n'.ids[a] == id;
  }

  // ----------------------------------------------------------- Rows by identity

  datatype Row<T> = Row(identity: nat, data: T)

  /** DELETE ... WHERE identity_id = :id. */
  function Without<T>(rows: seq<Row<T>>, id: nat): seq<Row<T>> {
    if rows == [] then []
    else if rows[0].identity == id then Without(rows[1..], id)
    else [rows[0]] + Without(rows[1..], id)
  }

  /** SELECT ... WHERE identity_id = :id. */
  function Of<T>(rows: seq<Row<T>>, id: nat): seq<T> {
    if rows == [] then []
    else if rows[0].identity == id then [rows[0].data] + Of(rows[1..], id)
    else Of(rows[1..], id)
  }

  lemma {:induction false} OfAppend<T>(a: seq<Row<T>>, b: seq<Row<T>>, id: nat)
    ensures Of(a + b, id) == Of(a, id) + Of(b, id)
  {
    if a == [] {
      assert a + b == b;
    } else {
      assert (a + b)[0] == a[0] && (a + b)[1..] == a[1..] + b;
      OfAppend(a[1..], b, id);
      assert a[0].identity == id ==>
          [a[0].data] + (Of(a[1..], id) + Of(b, id)) == ([a[0].data] + Of(a[1..], id)) + Of(b, id);
    }
  }

  lemma {:induction false} OfWithout<T>(rows: seq<Row<T>>, id: nat, other: nat)
    ensures Of(Without(rows, id), other) == if other == id then [] else Of(rows, other)
  {
    if rows != [] {
      OfWithout(rows[1..], id, other);
      if rows[0].identity != id {
        assert Without(rows, id)[1..] == Without(rows[1..], id);
      }
    }
  }

  lemma {:induction false} OfMembers<T>(rows: seq<Row<T>>, id: nat, d: T)
    ensures d in Of(rows, id) <==> Row(id, d) in rows
  {
    if rows != [] {
      OfMembers(rows[1..], id, d);
    }
  }

  lemma {:induction false} WithoutMember<T>(rows: seq<Row<T>>, id: nat, r: Row<T>)
    ensures r in Without(rows, id) <==> r in rows && r.identity != id
  {
    if rows != [] {
      WithoutMember(rows[1..], id, r);
    }
  }

  // ------------------------------------------------------------------- Tables

  datatype Credentials = Credentials(caption: string, userName: string, flags: int, kind: int)
  datatype AclData = AclData(authMethod: Option<nat>, mechanism: Option<nat>, token: Option<nat>)
  datatype RefRow = RefRow(identity: nat, token: Option<nat>, reference: string)

  datatype DB = DB(
    credentials: map<nat, Credentials>,
    nextId: nat,
    methods: Names,
    mechanisms: Names,
    tokens: Names,
    acl: seq<Row<AclData>>,
    owner: seq<Row<Option<nat>>>,
    realms: seq<Row<string>>,
    refs: set<RefRow>)

  const NO_NAMES := Names(map[], 1)
  const EMPTY := DB(map[], 1, NO_NAMES, NO_NAMES, NO_NAMES, [], [], [], {})

  /** The connection: the tables, and the snapshot of an open transaction. */
  datatype Connection = Connection(db: DB, saved: Option<DB>)

  /** Also the effect of RAISE(ROLLBACK): the transaction is over. */
  function Rollback(c: Connection): Connection {
    match c.saved
    case None => c
    case Some(db) => Connection(db, None)
  }

  // --------------------------------------------- Statements, with their triggers

  /** Trigger fki_REALMS_identity_id_CREDENTIALS_id guards the insert.  The host name is
      NULL, so the primary key never conflicts and nothing is ignored. */
  function InsertRealm(c: Connection, id: nat, realm: string): Connection {
    if id !in c.db.credentials then Rollback(c)
    else c.(db := c.db.(realms := c.db.realms + [Row(id, realm)]))
  }

  /** One INSERT INTO ACL; an absent name is a column left NULL. */
  datatype AclInsert = AclInsert(authMethod: Option<string>, mechanism: Option<string>, token: Option<string>)

  function Resolve(n: Names, name: Option<string>): Option<nat> {
    match name
    case None => None
    case Some(s) => Lookup(n, s)
  }

  function ResolveAcl(db: DB, a: AclInsert): AclData {
    AclData(Resolve(db.methods, a.authMethod), Resolve(db.mechanisms, a.mechanism), Resolve(db.tokens, a.token))
  }

  /** Trigger fki_ACL_identity_id_CREDENTIALS_id guards the insert; ACL has no other key
      than its row number, so OR REPLACE replaces nothing. */
  function InsertAcl(c: Connection, id: nat, a: AclInsert): Connection {
    if id !in c.db.credentials then Rollback(c)
    else c.(db := c.db.(acl := c.db.acl + [Row(id, ResolveAcl(c.db, a))]))
  }

  /** OWNER has a trigger on its token column only, and that one lets NULL pass. */
  function InsertOwner(c: Connection, id: nat, token: string): Connection {
    c.(db := c.db.(owner := c.db.owner + [Row(id, Lookup(c.db.tokens, token))]))
  }

  /** Triggers fkdc_REALMS, fkdc_ACL and fkdc_REFS run for each deleted row. */
  function DeleteCredentials(db: DB, id: nat): DB {
    if id !in db.credentials then db
    else db.(credentials := db.credentials - {id},
             realms := Without(db.realms, id),
             acl := Without(db.acl, id),
             refs := set r | r in db.refs && r.identity != id)
  }

  // ----------------------------------------------------------- Referential integrity

  ghost predicate TokenOk(db: DB, token: Option<nat>) {
    token.Some? && IsId(db.tokens, token.value)
  }

  ghost predicate AclOk(db: DB, d: AclData) {
    && (d.authMethod.Some? ==> IsId(db.methods, d.authMethod.value))
    && (d.mechanism.Some? ==> IsId(db.mechanisms, d.mechanism.value))
    && (d.token.Some? ==> IsId(db.tokens, d.token.value))
  }

  ghost predicate NameTablesInv(db: DB) {
    && NamesInv(db.methods) && NamesInv(db.mechanisms) && NamesInv(db.tokens)
    && db.methods.next > 0 && db.mechanisms.next > 0 && db.tokens.next > 0
  }

  ghost predicate Integrity(db: DB) {
    && NameTablesInv(db) && db.nextId > 0
    && (forall id :: id in db.credentials ==> 0 < id < db.nextId)
    && (forall r :: r in db.acl ==> r.identity in db.credentials && AclOk(db, r.data))
    && (forall r :: r in db.owner ==> r.identity in db.credentials && TokenOk(db, r.data))
    && (forall r :: r in db.realms ==> r.identity in db.credentials)
    && (forall r :: r in db.refs ==> r.identity in db.credentials && TokenOk(db, r.token))
  }

  ghost predicate Mentions(db: DB, id: nat) {
    || id in db.credentials
    || Of(db.acl, id) != [] || Of(db.owner, id) != [] || Of(db.realms, id) != []
    || (exists r :: r in db.refs && r.identity == id)
  }

  lemma {:induction false} NotMentioned<T>(rows: seq<Row<T>>, id: nat)
    requires forall r :: r in rows ==> r.identity != id
    ensures Of(rows, id) == []
  {
    if rows != [] {
      assert rows[0] in rows;
      assert forall r :: r in rows[1..] ==> r in rows;
      NotMentioned(rows[1..], id);
    }
  }
}
