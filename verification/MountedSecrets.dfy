/**
 The secrets database on the encrypted volume: what the flags of the secure storage say of it
 is what the credentials database has, in every run of the two together.
 */
module MountedSecrets {
  import opened Wrappers
  import opened SecureStorage
  import opened SecretsStore
  import opened SecretsCache

  /** The two flags of the database object, as its secrets storage and its cache have them. */
  predicate Stands(s: Sys, st: State) {
    s.secretsOpen == st.open && s.cached == (st.cache != map[])
  }

  /** A mount that completes while the system is open flushes the cache and empties it exactly
      when the storage initializes. */
  lemma {:induction false} MountFlushes(s: Sys, st: State, order: seq<Visit>, l: Luck)
    requires Inv(s) && s.systemOpened && s.state == Unmounted && MountFileSystem(s, l).1
    requires Stands(s, st) && Covers(order, st.cache)
    ensures Stands(MountFileSystem(s, l).0, OpenSecretsDB(st, order, l.storage))
    ensures MountFileSystem(s, l).0.secretsOpen <==> l.storage
    ensures l.storage ==> OpenSecretsDB(st, order, l.storage)
                          == State(true, Flush(st.secrets, st.cache, order), map[])
  {
    MountOpensSecrets(s, l);
    hide MountFileSystem, Flush, Covers, Visits;
  }

  // ------------------------------------------------------------------ Joint runs

  datatype Joint = Joint(sys: Sys, db: State)

  /** An event of the secure storage, with the hash order of the cache should it be flushed; or a
      save or store in the database. */
  datatype JointEvent =
    | Storage(event: Event, luck: Luck, order: seq<Visit>)
    | Database(op: Op, junk: bool)

  ghost predicate JointEnabled(j: Joint, e: JointEvent) {
    match e
    case Storage(event, _, order) => Enabled(j.sys, event) && Covers(order, j.db.cache)
    case Database(_, _) => j.sys.dbPresent
  }

  /** The slots of the access manager for the signals of the mounted flag. */
  function OnFlag(systemOpened: bool, was: bool, becomes: bool, db: State, order: seq<Visit>, ok: bool): State
    requires Visits(order, db.cache)
  {
    if !was && becomes && systemOpened && !db.open then OpenSecretsDB(db, order, ok)
    else if was && !becomes && systemOpened then db.(open := false)
    else db
  }

  /** What the database goes through: the flag's signals, and what opening, closing and losing the
      last key do to it themselves. */
  function DatabaseStep(s: Sys, db: State, e: Event, l: Luck, order: seq<Visit>): State
    requires Visits(order, db.cache)
  {
    match e
    case Open(meta) =>
      var empty := db.(cache := map[]);
      if !meta then empty
      else if s.mounted then OpenSecretsDB(empty.(open := false), [], l.storage)
      else OnFlag(true, false, Step(s, e, l).mounted, empty, [], l.storage)
    case Close => if s.systemOpened then db.(open := false, cache := map[]) else db
    case Disable(key) => if IsLastAuthorized(s, key) && (db.open || s.mounted) then db.(open := false) else db
    case _ => OnFlag(s.systemOpened, s.mounted, Step(s, e, l).mounted, db, order, l.storage)
  }

  ghost function JointStep(j: Joint, e: JointEvent): Joint
    requires JointEnabled(j, e)
  {
    match e
    case Storage(event, l, order) =>
      Joint(Step(j.sys, event, l), DatabaseStep(j.sys, j.db, event, l, order))
    case Database(op, junk) =>
      var db := Do(j.db, op, junk);
      Joint(j.sys.(cached := db.cache != map[]), db)
  }

  ghost function JointExec(j: Joint, es: seq<JointEvent>): Option<Joint> {
    if es == [] then Some(j)
    else
      match JointExec(j, es[..|es| - 1])
      case None => None
      case Some(k) => if JointEnabled(k, es[|es| - 1]) then Some(JointStep(k, es[|es| - 1])) else None
  }

  // ------------------------------------------------- The flags after each operation

  /** Mounting at most, and opening the secrets database with it. */
  ghost predicate Follows(s: Sys, t: Sys, l: Luck) {
    && MountInv(t) && OpenInv(t) && (s.mounted ==> t.mounted)
    && if !s.mounted && t.mounted && s.systemOpened && !s.secretsOpen
       then t.secretsOpen == l.storage && t.cached == (s.cached && !l.storage)
       else t.secretsOpen == s.secretsOpen && t.cached == s.cached
  }

  lemma MountFollows(s: Sys, l: Luck)
    requires MountInv(s) && OpenInv(s)
    ensures Follows(s, MountFileSystem(s, l).0, l)
  {
    MountKeepsOpenInv(s, l);
    MountIs(s, l);
    hide MountFileSystem, MountSucceeds, MountProgress, AddToKeychain, OpenInv;
  }

  lemma SetupFollows(s: Sys, l: Luck)
    requires MountInv(s) && OpenInv(s)
    ensures Follows(s, SetupFileSystem(s, l).0, l)
  {
    SetupKeepsOpenInv(s, l);
    SetupIs(s, l);
    hide SetupFileSystem, SetupSucceeds, SetupProgress, AddToKeychain, OpenInv;
  }

  lemma EnsureFollows(s: Sys, pick: Key, l: Luck)
    requires MountInv(s) && OpenInv(s)
    ensures Follows(s, EnsureMounted(s, pick, l).0, l)
  {
    MountFollows(SetEncryptionKey(s, pick), l);
    hide MountFileSystem;
  }

  /** The same but for keys. */
  predicate SameButKeys(s: Sys, t: Sys) {
    t == s.(slots := t.slots, keychain := t.keychain, authorized := t.authorized, encryptionKey := t.encryptionKey)
  }

  lemma KeysDoNotMatter(s: Sys, s': Sys, t: Sys, t': Sys, l: Luck)
    requires SameButKeys(s, s') && SameButKeys(t, t') && Follows(s', t, l)
    ensures Follows(s, t', l)
  {
  }

  lemma FormatFollows(s: Sys, key: Key, l: Luck)
    requires MountInv(s) && OpenInv(s)
    ensures var (t, ok) := SetupFileSystem(SetEncryptionKey(s.(authorized := {}), key), l);
      Follows(s, t, l) && Follows(s, t.(authorized := t.authorized + {key}), l)
  {
    hide SetupFileSystem, Follows;
    var s' := SetEncryptionKey(s.(authorized := {}), key);
    SetupFollows(s', l);
    var t := SetupFileSystem(s', l).0;
    KeysDoNotMatter(s, s', t, t, l);
    KeysDoNotMatter(s, s', t, t.(authorized := t.authorized + {key}), l);
  }

  lemma AddChangesKeys(s: Sys, key: Key, existing: Key, l: Luck)
    ensures var t := AddEncryptionKey(s, key, existing, l).0;
      SameButKeys(s, t) && SameButKeys(s, t.(authorized := t.authorized + {key}))
  {
    hide AddToKeychain;
  }

  lemma AddFollows(s: Sys, key: Key, pick: Key, l: Luck)
    requires MountInv(s) && OpenInv(s)
    ensures var u := EnsureMounted(s, pick, l).0;
      var t := AddEncryptionKey(u, key, pick, l).0;
      Follows(s, u, l) && Follows(s, t, l) && Follows(s, t.(authorized := t.authorized + {key}), l)
  {
    hide EnsureMounted, AddEncryptionKey, Follows, MountInv, OpenInv;
    EnsureFollows(s, pick, l);
    var u := EnsureMounted(s, pick, l).0;
    AddChangesKeys(u, key, pick, l);
    var t := AddEncryptionKey(u, key, pick, l).0;
    KeysDoNotMatter(s, s, u, t, l);
    KeysDoNotMatter(s, s, u, t.(authorized := t.authorized + {key}), l);
  }

  lemma AuthorizeFollows(s: Sys, key: Key, format: bool, pick: Key, l: Luck)
    requires MountInv(s) && OpenInv(s)
    ensures Follows(s, AuthorizeKey(s, key, format, pick, l).0, l)
  {
    assert Follows(s, s, l);
    hide SetupFileSystem, SetEncryptionKey, EnsureMounted, AddEncryptionKey, Follows;
    FormatFollows(s, key, l);
    AddFollows(s, key, pick, l);
  }

  lemma RevokeFollows(s: Sys, key: Key, pick: Key, l: Luck)
    requires MountInv(s) && OpenInv(s)
    ensures Follows(s, RevokeKey(s, key, pick, l).0, l)
  {
    EnsureFollows(s, pick, l);
    hide EnsureMounted, RemoveFromKeychain;
  }

  lemma InsertFollows(s: Sys, key: Key, l: Luck)
    requires MountInv(s) && OpenInv(s)
    ensures Follows(s, OnKeyInserted(s, key, l), l)
  {
    MountFollows(SetEncryptionKey(s.(inserted := s.inserted + {key}), key), l);
    hide MountFileSystem;
  }

  lemma DisableCloses(s: Sys, key: Key, l: Luck)
    requires MountInv(s) && OpenInv(s)
    ensures var t := OnKeyDisabled(s, key, l);
      && MountInv(t) && OpenInv(t) && t.cached == s.cached
      && t.secretsOpen == (s.secretsOpen && !IsLastAuthorized(s, key))
  {
    UnmountIs(s.(inserted := s.inserted - {key}, secretsOpen := false), l);
    hide UnmountFileSystem, IsLastAuthorized;
  }

  lemma CloseCloses(s: Sys, l: Luck)
    requires MountInv(s) && OpenInv(s)
    ensures var t := CloseSystem(s, l).0;
      && MountInv(t) && OpenInv(t) && !t.secretsOpen
      && t.cached == (s.cached && !s.systemOpened)
  {
    UnmountIs(s.(secretsOpen := false), l);
    hide UnmountFileSystem;
  }

  lemma OpenOpens(s: Sys, meta: bool, l: Luck)
    requires MountInv(s) && OpenInv(s)
    ensures var t := OpenSystem(s, meta, l).0;
      && MountInv(t) && OpenInv(t) && !t.cached
      && t.secretsOpen == (if meta && t.mounted then l.storage else s.secretsOpen)
  {
    MountFollows(s.(dbPresent := true, cached := false, systemOpened := true), l);
    hide MountFileSystem;
  }

  // ------------------------------------------------------------------- The theorem

  ghost predicate JointInv(j: Joint) {
    MountInv(j.sys) && OpenInv(j.sys) && Stands(j.sys, j.db)
  }

  lemma FlagKeepsStands(s: Sys, t: Sys, db: State, l: Luck, order: seq<Visit>)
    requires MountInv(s) && OpenInv(s) && Stands(s, db) && Follows(s, t, l) && Visits(order, db.cache)
    ensures Stands(t, OnFlag(s.systemOpened, s.mounted, t.mounted, db, order, l.storage))
  {
    hide Visits, Flush;
  }

  lemma StorageKeepsInv(s: Sys, db: State, e: Event, l: Luck, order: seq<Visit>)
    requires MountInv(s) && OpenInv(s) && Stands(s, db) && Visits(order, db.cache)
    ensures JointInv(Joint(Step(s, e, l), DatabaseStep(s, db, e, l, order)))
  {
    hide OnKeyInserted, OnKeyDisabled, AuthorizeKey, RevokeKey, OpenSystem, CloseSystem;
    hide MountInv, OpenInv, IsLastAuthorized, OnFlag, Visits, Flush;
    match e
    case Insert(key) => InsertFollows(s, key, l); FlagKeepsStands(s, Step(s, e, l), db, l, order);
    case Authorize(key, format, pick) =>
      AuthorizeFollows(s, key, format, pick, l);
      FlagKeepsStands(s, Step(s, e, l), db, l, order);
    case Revoke(key, pick) => RevokeFollows(s, key, pick, l); FlagKeepsStands(s, Step(s, e, l), db, l, order);
    case Disable(key) => DisableKeepsStands(s, db, key, l, order);
    case Open(meta) => OpenKeepsStands(s, db, meta, l, order);
    case Close => CloseKeepsStands(s, db, l, order);
  }

  lemma DisableKeepsStands(s: Sys, db: State, key: Key, l: Luck, order: seq<Visit>)
    requires MountInv(s) && OpenInv(s) && Stands(s, db) && Visits(order, db.cache)
    ensures JointInv(Joint(Step(s, Disable(key), l), DatabaseStep(s, db, Disable(key), l, order)))
  {
    DisableCloses(s, key, l);
    hide OnKeyDisabled, IsLastAuthorized, MountInv;
  }

  lemma OpenKeepsStands(s: Sys, db: State, meta: bool, l: Luck, order: seq<Visit>)
    requires MountInv(s) && OpenInv(s) && Stands(s, db) && Visits(order, db.cache)
    ensures JointInv(Joint(Step(s, Open(meta), l), DatabaseStep(s, db, Open(meta), l, order)))
  {
    OpenOpens(s, meta, l);
    if meta && s.mounted {
      MountedStays(s, l);
    }
    hide OpenSystem, MountInv, Visits, Flush;
  }

  lemma MountedStays(s: Sys, l: Luck)
    requires s.mounted
    ensures OpenSystem(s, true, l).0.mounted
  {
    hide MountFileSystem;
  }

  lemma CloseKeepsStands(s: Sys, db: State, l: Luck, order: seq<Visit>)
    requires MountInv(s) && OpenInv(s) && Stands(s, db) && Visits(order, db.cache)
    ensures JointInv(Joint(Step(s, Close, l), DatabaseStep(s, db, Close, l, order)))
  {
    CloseCloses(s, l);
    hide CloseSystem, MountInv;
  }

  lemma DoKeepsOpen(db: State, op: Op, junk: bool)
    ensures Do(db, op, junk).open == db.open
  {
  }

  lemma JointStepKeepsInv(j: Joint, e: JointEvent)
    requires JointInv(j) && JointEnabled(j, e)
    ensures JointInv(JointStep(j, e))
  {
    match e
    case Storage(event, l, order) => StorageKeepsInv(j.sys, j.db, event, l, order);
    case Database(op, junk) => DoKeepsOpen(j.db, op, junk);
    hide Step, DatabaseStep, Do, Enabled;
  }

  /** In every run of a daemon just started, whatever keys come and go and whatever is saved and
      stored in between, the flags by which the secure storage acts are those of the credentials
      database; and its secrets are open only on a mounted volume, in an open system. */
  lemma {:induction false} RunStands(s: Sys, secrets: Secrets, es: seq<JointEvent>, j: Joint)
    requires Started(s) && JointExec(Joint(s, State(false, secrets, map[])), es) == Some(j)
    ensures Stands(j.sys, j.db) && (j.db.open ==> j.sys.mounted && j.sys.systemOpened && j.sys.dbPresent)
    ensures JointInv(j)
    decreases |es|
  {
    hide JointStep, JointEnabled;
    if es != [] {
      var n := |es| - 1;
      var k := JointExec(Joint(s, State(false, secrets, map[])), es[..n]).value;
      RunStands(s, secrets, es[..n], k);
      JointStepKeepsInv(k, es[n]);
    }
  }
}
