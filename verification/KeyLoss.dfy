/**
 Losing the last authorized key when there is no database object to close.
 */
module KeyLoss {
  import opened Wrappers
  import opened SecureStorage

  // ------------------------------------- The flags of the access manager, by events

  /** Whether the system is open after the events. */
  predicate Opened(es: Script) {
    es != [] &&
    match es[|es| - 1].0
    case Open(meta) => meta || Opened(es[..|es| - 1])
    case Close => false
    case _ => Opened(es[..|es| - 1])
  }

  /** Whether there is a database object after the events. */
  predicate HasDb(es: Script) {
    es != [] &&
    match es[|es| - 1].0
    case Open(_) => true
    case Close => HasDb(es[..|es| - 1]) && !Opened(es[..|es| - 1])
    case _ => HasDb(es[..|es| - 1])
  }

  predicate SameSystem(s: Sys, t: Sys) {
    t.systemOpened == s.systemOpened && t.dbPresent == s.dbPresent
  }

  lemma UpdateKeepsSystem(s: Sys, state: MountState, l: Luck)
    ensures SameSystem(s, UpdateMountState(s, state, l))
  {
  }

  lemma UnmountKeepsSystem(s: Sys, l: Luck)
    ensures SameSystem(s, UnmountFileSystem(s, l).0)
  {
    var s1 := SetMounted(s, false, l);
    assert SameSystem(s, s1);
    hide SetMounted, UpdateMountState;
    UpdateKeepsSystem(s1.(log := s1.log + Releases(s1.state)), Unmounted, l);
  }

  lemma AbortKeepsSystem(s: Sys, l: Luck)
    ensures SameSystem(s, Abort(s, l).0)
  {
    hide UnmountFileSystem;
    UnmountKeepsSystem(s, l);
  }

  lemma MountDeviceKeepsSystem(s: Sys, l: Luck)
    ensures SameSystem(s, MountDevice(s, l).0)
  {
    hide Abort, UpdateMountState, AddToKeychain;
    AbortKeepsSystem(s, l);
    UpdateKeepsSystem(s.(log := s.log + [Acquire(Mount)], keychain := AddToKeychain(s.keychain, s.encryptionKey)),
                      Mounted, l);
  }

  lemma OpenLuksKeepsSystem(s: Sys, l: Luck)
    ensures SameSystem(s, OpenLuks(s, l).0)
  {
    hide UpdateMountState;
    UpdateKeepsSystem(s.(log := s.log + [Acquire(Luks)]), LoopLuksOpened, l);
  }

  lemma SetupLoopKeepsSystem(s: Sys, l: Luck)
    ensures SameSystem(s, SetupLoop(s, l))
  {
    hide UpdateMountState;
    UpdateKeepsSystem(s.(log := s.log + [Acquire(Loop)]), LoopSet, l);
  }

  lemma FormatLuksKeepsSystem(s: Sys, l: Luck)
    ensures SameSystem(s, FormatLuks(s, l).0)
  {
    hide UpdateMountState;
    UpdateKeepsSystem(s.(slots := multiset{s.encryptionKey}, keychain := map[]), LoopLuksFormatted, l);
  }

  lemma MountKeepsSystem(s: Sys, l: Luck)
    ensures SameSystem(s, MountFileSystem(s, l).0)
  {
    hide Abort, SetupLoop, OpenLuks, MountDevice;
    var s1 := SetupLoop(s, l);
    var s2 := OpenLuks(s1, l).0;
    AbortKeepsSystem(s, l);
    SetupLoopKeepsSystem(s, l);
    OpenLuksKeepsSystem(s1, l);
    AbortKeepsSystem(s2, l);
    MountDeviceKeepsSystem(s2, l);
  }

  lemma FormatAndMountKeepsSystem(s: Sys, l: Luck)
    ensures SameSystem(s, FormatAndMount(s, l).0)
  {
    hide Abort, FormatLuks, OpenLuks, MountDevice;
    var s2 := FormatLuks(s, l).0;
    var s3 := OpenLuks(s2, l).0;
    FormatLuksKeepsSystem(s, l);
    AbortKeepsSystem(s2, l);
    OpenLuksKeepsSystem(s2, l);
    AbortKeepsSystem(s3, l);
    MountDeviceKeepsSystem(s3, l);
  }

  lemma SetupKeepsSystem(s: Sys, l: Luck)
    ensures SameSystem(s, SetupFileSystem(s, l).0)
  {
    hide Abort, SetupLoop, FormatAndMount;
    var s1 := s.(isSetup := true);
    AbortKeepsSystem(s, l);
    AbortKeepsSystem(s1, l);
    SetupLoopKeepsSystem(s1, l);
    FormatAndMountKeepsSystem(SetupLoop(s1, l), l);
  }

  lemma EnsureMountedKeepsSystem(s: Sys, pick: Key, l: Luck)
    ensures SameSystem(s, EnsureMounted(s, pick, l).0)
  {
    hide MountFileSystem;
    MountKeepsSystem(SetEncryptionKey(s, pick), l);
  }

  lemma AuthorizeKeepsSystem(s: Sys, key: Key, format: bool, pick: Key, l: Luck)
    ensures SameSystem(s, AuthorizeKey(s, key, format, pick, l).0)
  {
    hide SetupFileSystem, EnsureMounted, AddToKeychain;
    SetupKeepsSystem(SetEncryptionKey(s.(authorized := {}), key), l);
    EnsureMountedKeepsSystem(s, pick, l);
  }

  lemma RevokeKeepsSystem(s: Sys, key: Key, pick: Key, l: Luck)
    ensures SameSystem(s, RevokeKey(s, key, pick, l).0)
  {
    hide EnsureMounted, RemoveFromKeychain;
    EnsureMountedKeepsSystem(s, pick, l);
  }

  lemma InsertKeepsSystem(s: Sys, key: Key, l: Luck)
    ensures SameSystem(s, OnKeyInserted(s, key, l))
  {
    hide MountFileSystem;
    MountKeepsSystem(SetEncryptionKey(s.(inserted := s.inserted + {key}), key), l);
  }

  lemma DisableKeepsSystem(s: Sys, key: Key, l: Luck)
    ensures SameSystem(s, OnKeyDisabled(s, key, l))
  {
    hide UnmountFileSystem;
    UnmountKeepsSystem(s.(inserted := s.inserted - {key}, secretsOpen := false), l);
  }

  lemma OpenSystemIs(s: Sys, meta: bool, l: Luck)
    ensures var t := OpenSystem(s, meta, l).0; t.dbPresent && t.systemOpened == (meta || s.systemOpened)
  {
    hide MountFileSystem;
    MountKeepsSystem(s.(dbPresent := true, cached := false, systemOpened := true), l);
  }

  lemma CloseSystemIs(s: Sys, l: Luck)
    ensures var t := CloseSystem(s, l).0; !t.systemOpened && t.dbPresent == (s.dbPresent && !s.systemOpened)
  {
    hide UnmountFileSystem;
  }

  lemma StepSystem(s: Sys, e: Event, l: Luck)
    ensures var t := Step(s, e, l);
      match e
      case Open(meta) => t.dbPresent && t.systemOpened == (meta || s.systemOpened)
      case Close => !t.systemOpened && t.dbPresent == (s.dbPresent && !s.systemOpened)
      case _ => SameSystem(s, t)
  {
    hide OnKeyInserted, OnKeyDisabled, AuthorizeKey, RevokeKey, OpenSystem, CloseSystem;
    match e
    case Insert(key) => InsertKeepsSystem(s, key, l);
    case Disable(key) => DisableKeepsSystem(s, key, l);
    case Authorize(key, format, pick) => AuthorizeKeepsSystem(s, key, format, pick, l);
    case Revoke(key, pick) => RevokeKeepsSystem(s, key, pick, l);
    case Open(meta) => OpenSystemIs(s, meta, l);
    case Close => CloseSystemIs(s, l);
  }

  lemma {:induction false} RunSystem(s: Sys, es: Script, t: Sys)
    requires Started(s) && Exec(s, es) == Some(t)
    ensures t.systemOpened == Opened(es) && t.dbPresent == HasDb(es)
    decreases |es|
  {
    hide Step, Enabled;
    if es != [] {
      var u := Exec(s, es[..|es| - 1]).value;
      RunSystem(s, es[..|es| - 1], u);
      StepSystem(u, es[|es| - 1].0, es[|es| - 1].1);
    }
  }

  /** In every run, losing a key is safe exactly when there is a database object, by what was
      opened and closed before, or another authorized key is still inserted. */
  lemma {:induction false} KeyLossIsSafeExactly(s: Sys, es: Script, t: Sys, key: Key)
    requires Started(s) && Exec(s, es) == Some(t)
    ensures Enabled(t, Disable(key)) <==> HasDb(es) || !IsLastAuthorized(t, key)
  {
    RunSystem(s, es, t);
    hide Exec, HasDb, IsLastAuthorized;
  }

  // ------------------------------------------------------ Runs that lose the key

  lemma CloseKeepsKeys(s: Sys, l: Luck)
    requires Inv(s) && s.systemOpened
    ensures var t := CloseSystem(s, l).0;
      t.inserted == s.inserted && t.authorized == s.authorized && !t.dbPresent
  {
    UnmountIs(s.(secretsOpen := false), l);
    hide UnmountFileSystem;
  }

  const ALL_WELL := Luck(true, true, true, true, true, false, true, true, true, true, true, true, true, true)

  /** A daemon just started on a volume with one key. */
  function OneKeyVolume(key: Key): Sys {
    Sys(multiset{key}, map[], Unmounted, false, true, "", false, false, false, false, {}, {}, [], [])
  }

  lemma MountKeepsKeys(s: Sys, l: Luck)
    requires MountInv(s)
    ensures var t := MountFileSystem(s, l).0;
      t.inserted == s.inserted && t.authorized == s.authorized && t.systemOpened == s.systemOpened
  {
    hide MountFileSystem, MountSucceeds, MountProgress, Undone, MountDone;
    MountIs(s, l);
    MountDoneKeepsKeys(s.(log := s.log + ALL), l);
  }

  lemma MountDoneKeepsKeys(s: Sys, l: Luck)
    ensures var t := MountDone(s, l);
      t.inserted == s.inserted && t.authorized == s.authorized && t.systemOpened == s.systemOpened
  {
    hide AddToKeychain;
  }

  lemma InsertAuthorizes(key: Key)
    requires key != ""
    ensures Inv(OneKeyVolume(key))
    ensures var t := OnKeyInserted(OneKeyVolume(key), key, ALL_WELL); t.inserted == {key} && t.authorized == {key}
  {
    var s := SetEncryptionKey(OneKeyVolume(key).(inserted := {key}), key);
    assert MountSucceeds(s, ALL_WELL);
    MountKeepsKeys(s, ALL_WELL);
    MountIsAllOrNothing(s, ALL_WELL);
    hide MountFileSystem, MountSucceeds, MountProgress;
  }

  /** The dereference is within reach: the key is inserted before the system was ever opened, and
      goes away. */
  lemma KeyLostBeforeOpen(key: Key) returns (es: Script, t: Sys)
    requires key != ""
    ensures Started(OneKeyVolume(key)) && Exec(OneKeyVolume(key), es) == Some(t) && SafeRun(OneKeyVolume(key), es)
    ensures !Enabled(t, Disable(key))
  {
    InsertAuthorizes(key);
    t := OnKeyInserted(OneKeyVolume(key), key, ALL_WELL);
    InsertKeepsSystem(OneKeyVolume(key), key, ALL_WELL);
    hide OnKeyInserted, Inv;
    es := [];
    ExecSnoc(OneKeyVolume(key), es, Insert(key), ALL_WELL);
    es := es + [(Insert(key), ALL_WELL)];
  }

  lemma OpenKeepsKeys(s: Sys, l: Luck)
    requires Inv(s)
    ensures var t := OpenSystem(s, true, l).0;
      t.inserted == s.inserted && t.authorized == s.authorized && t.systemOpened
  {
    MountKeepsKeys(s.(dbPresent := true, cached := false, systemOpened := true), l);
    OpenSystemKeepsInv(s, true, l);
    hide MountFileSystem;
  }

  /** Or after it was closed: the key is inserted, the system opens and closes, and the key goes
      away. */
  lemma KeyLostAfterClose(key: Key) returns (es: Script, t: Sys)
    requires key != ""
    ensures Started(OneKeyVolume(key)) && Exec(OneKeyVolume(key), es) == Some(t) && SafeRun(OneKeyVolume(key), es)
    ensures !Enabled(t, Disable(key))
  {
    hide OnKeyInserted, OpenSystem, CloseSystem, Inv, Exec, SafeRun;
    var s := OneKeyVolume(key);
    InsertAuthorizes(key);
    KeyInsertedKeepsInv(s, key, ALL_WELL);
    var t1 := OnKeyInserted(s, key, ALL_WELL);
    var t2 := OpenSystem(t1, true, ALL_WELL).0;
    OpenKeepsKeys(t1, ALL_WELL);
    OpenSystemKeepsInv(t1, true, ALL_WELL);
    CloseKeepsKeys(t2, ALL_WELL);
    t := CloseSystem(t2, ALL_WELL).0;
    assert !Enabled(t, Disable(key));
    es := InsertOpenClose(s, key);
  }

  lemma InsertOpenClose(s: Sys, key: Key) returns (es: Script)
    ensures Exec(s, es) == Some(CloseSystem(OpenSystem(OnKeyInserted(s, key, ALL_WELL), true, ALL_WELL).0, ALL_WELL).0)
    ensures SafeRun(s, es)
  {
    hide OnKeyInserted, OpenSystem, CloseSystem;
    es := [];
    ExecSnoc(s, es, Insert(key), ALL_WELL);
    es := es + [(Insert(key), ALL_WELL)];
    hide Exec, SafeRun;
    ExecSnoc(s, es, Open(true), ALL_WELL);
    es := es + [(Open(true), ALL_WELL)];
    ExecSnoc(s, es, Close, ALL_WELL);
    es := es + [(Close, ALL_WELL)];
  }

  lemma ExecSnoc(s: Sys, es: Script, e: Event, l: Luck)
    requires Exec(s, es).Some? && SafeRun(s, es)
    requires Enabled(Exec(s, es).value, e) && Safe(Exec(s, es).value, e, l)
    ensures Exec(s, es + [(e, l)]) == Some(Step(Exec(s, es).value, e, l)) && SafeRun(s, es + [(e, l)])
  {
    assert (es + [(e, l)])[..|es|] == es;
  }
}
