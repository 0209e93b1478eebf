/**
 Secure storage: the LUKS volume with its key slots and keychain file, the staged mount of
 CryptoManager, the key bookkeeping of KeyHandler, and the coupling of "file system mounted"
 to "secrets database open" in CredentialsAccessManager.  Every foreign call succeeds or
 fails as the `Luck` of the operation says.
 */
module SecureStorage {
  import opened Wrappers

  type Key = string

  // ---------------------------------------------------------------- Data model

  datatype MountState = Unmounted | LoopSet | LoopLuksFormatted | LoopLuksOpened | Mounted {
    function Rank(): nat {
      match this
      case Unmounted => 0
      case LoopSet => 1
      case LoopLuksFormatted => 2
      case LoopLuksOpened => 3
      case Mounted => 4
    }
  }

  datatype Resource = Loop | Luks | Mount
  datatype Act = Acquire(resource: Resource) | Release(resource: Resource)

  /** Outcomes of the foreign calls made during one operation.  `wiped`: a failed format has
      destroyed the header; `storage`: the secrets storage initializes. */
  datatype Luck = Luck(
    dmMod: bool, loopDevice: bool, partition: bool, losetup: bool, format: bool, wiped: bool,
    luksOpen: bool, mkfs: bool, mkdir: bool, luksClose: bool, loopRelease: bool,
    addSlot: bool, removeSlot: bool, storage: bool)

  datatype Sys = Sys(
    // the volume on disk
    slots: multiset<Key>,
    keychain: map<nat, Key>,
    // CryptoManager
    state: MountState,
    mounted: bool,
    isSetup: bool,
    encryptionKey: Key,
    // CredentialsAccessManager; `cached`: the secrets cache holds something
    systemOpened: bool,
    dbPresent: bool,
    secretsOpen: bool,
    cached: bool,
    // KeyHandler
    inserted: set<Key>,
    authorized: set<Key>,
    // histories: resources acquired and released, secrets DB open at each drop of the flag
    log: seq<Act>,
    drops: seq<bool>)

  // ------------------------------------- Signals: the mounted flag and its listeners

  /** openSecretsDB: a second initialization closes the storage first. */
  function OpenSecrets(s: Sys, l: Luck): Sys {
    if !s.mounted then s
    else s.(secretsOpen := l.storage, cached := s.cached && !l.storage)
  }

  function OnMounted(s: Sys, l: Luck): Sys {
    if s.systemOpened && !s.secretsOpen then OpenSecrets(s, l) else s
  }

  function OnUnmounting(s: Sys): Sys {
    if s.systemOpened && s.secretsOpen then s.(secretsOpen := false) else s
  }

  /** setFileSystemMounted: the unmounting signal precedes the change, the mounted signal follows it. */
  function SetMounted(s: Sys, value: bool, l: Luck): Sys {
    if value == s.mounted then s
    else if s.mounted then
      var s1 := OnUnmounting(s);
      s1.(mounted := false, drops := s1.drops + [s1.secretsOpen])
    else OnMounted(s.(mounted := true), l)
  }

  function UpdateMountState(s: Sys, state: MountState, l: Luck): (t: Sys)
    ensures t.keychain == s.keychain && t.slots == s.slots && t.encryptionKey == s.encryptionKey
  {
    if state == s.state then s
    else SetMounted(s.(state := state), state == Mounted, l)
  }

  // ------------------------------------------------------- CryptoManager, on values

  function AddToKeychain(kc: map<nat, Key>, key: Key): map<nat, Key> {
    if key in kc.Values then kc else kc[|kc| + 1 := key]
  }

  /** The keychain has no duplicate keys, so the first match is the only one. */
  function RemoveFromKeychain(kc: map<nat, Key>, key: Key): map<nat, Key> {
    map i | i in kc && kc[i] != key :: kc[i]
  }

  function SetEncryptionKey(s: Sys, key: Key): Sys {
    if s.mounted then s else s.(encryptionKey := key)
  }

  function Releases(s: MountState): seq<Act> {
    (if s.Rank() >= 4 then [Release(Mount)] else [])
    + (if s.Rank() >= 3 then [Release(Luks)] else [])
    + (if s.Rank() >= 1 then [Release(Loop)] else [])
  }

  /** A release that fails is reported, and counted as done. */
  function UnmountFileSystem(s: Sys, l: Luck): (r: (Sys, bool)) {
    if s.state == Unmounted then (s, true)
    else
      var s1 := SetMounted(s, false, l);
      var s2 := s1.(log := s1.log + Releases(s1.state));
      (UpdateMountState(s2, Unmounted, l),
       (s.state.Rank() < 3 || l.luksClose) && (s.state.Rank() < 1 || l.loopRelease))
  }

  function Abort(s: Sys, l: Luck): (r: (Sys, bool))
    ensures r.0.keychain == s.keychain && r.0.slots == s.slots && !r.1
  {
    (UnmountFileSystem(s, l).0, false)
  }

  /** The common tail: mount the mapped device and remember the key. */
  function MountDevice(s: Sys, l: Luck): (r: (Sys, bool)) {
    if !l.mkdir then Abort(s, l)
    else (UpdateMountState(s.(log := s.log + [Acquire(Mount)], keychain := AddToKeychain(s.keychain, s.encryptionKey)),
                           Mounted, l), true)
  }

  /** openFile succeeds only with a key that occupies a slot. */
  function OpenLuks(s: Sys, l: Luck): (r: (Sys, bool)) {
    if !l.luksOpen || s.encryptionKey !in s.slots then (s, false)
    else (UpdateMountState(s.(log := s.log + [Acquire(Luks)]), LoopLuksOpened, l), true)
  }

  function SetupLoop(s: Sys, l: Luck): Sys {
    UpdateMountState(s.(log := s.log + [Acquire(Loop)]), LoopSet, l)
  }

  function FormatLuks(s: Sys, l: Luck): (r: (Sys, bool)) {
    if l.format then (UpdateMountState(s.(slots := multiset{s.encryptionKey}, keychain := map[]), LoopLuksFormatted, l), true)
    else (if l.wiped then s.(slots := multiset{}, keychain := map[]) else s, false)
  }

  /** The part of setupFileSystem after the loop device is set. */
  function FormatAndMount(s: Sys, l: Luck): (r: (Sys, bool)) {
    var (s2, formatted) := FormatLuks(s, l);
    if !formatted then Abort(s2, l)
    else
      var (s3, unlocked) := OpenLuks(s2, l);
      if !unlocked then Abort(s3, l)
      else if !l.mkfs then Abort(s3, l)
      else MountDevice(s3, l)
  }

  function SetupFileSystem(s: Sys, l: Luck): (r: (Sys, bool)) {
    if s.state == Mounted || s.encryptionKey == "" || !l.dmMod || !l.loopDevice then (s, false)
    else if !l.partition then Abort(s, l)
    else
      var s1 := s.(isSetup := true);
      if !l.losetup then Abort(s1, l) else FormatAndMount(SetupLoop(s1, l), l)
  }

  function MountFileSystem(s: Sys, l: Luck): (r: (Sys, bool)) {
    if s.state == Mounted || s.encryptionKey == "" || !l.dmMod || !l.loopDevice then (s, false)
    else if !l.losetup then Abort(s, l)
    else
      var (s1, unlocked) := OpenLuks(SetupLoop(s, l), l);
      if !unlocked then Abort(s1, l) else MountDevice(s1, l)
  }

  function AddEncryptionKey(s: Sys, key: Key, existing: Key, l: Luck): (r: (Sys, bool)) {
    if s.state.Rank() >= 3 && l.addSlot && existing in s.slots then
      (s.(slots := s.slots + multiset{key}, keychain := AddToKeychain(s.keychain, key)), true)
    else (s, false)
  }

  /** Reports success whenever the volume is open, even when no slot was released. */
  function RemoveEncryptionKey(s: Sys, key: Key, l: Luck): (r: (Sys, bool)) {
    if s.state.Rank() < 3 then (s, false)
    else if l.removeSlot && key in s.slots then
      (s.(slots := s.slots - multiset{key}, keychain := RemoveFromKeychain(s.keychain, key)), true)
    else (s, true)
  }

  /** The first test is the shortcut that looks at no slot. */
  function EncryptionKeyInUse(s: Sys, key: Key, l: Luck): (r: (Sys, bool)) {
    if s.mounted && s.encryptionKey == key then (s, true)
    else if !s.mounted then MountFileSystem(SetEncryptionKey(s, key), l)
    else (s, key in s.keychain.Values)
  }

  // ---------------------------------------------------------- KeyHandler, on values

  /** Mounts with an authorized key unless already mounted. */
  function EnsureMounted(s: Sys, pick: Key, l: Luck): (r: (Sys, bool)) {
    if s.mounted then (s, true) else MountFileSystem(SetEncryptionKey(s, pick), l)
  }

  /** `pick` is the key that anyAuthorizedKey happens to return. */
  function AuthorizeKey(s: Sys, key: Key, format: bool, pick: Key, l: Luck): (r: (Sys, bool)) {
    if key in s.authorized then (s, true)
    else if !s.isSetup || format then
      var (s1, ok) := SetupFileSystem(SetEncryptionKey(s.(authorized := {}), key), l);
      if ok then (s1.(authorized := s1.authorized + {key}), true) else (s1, false)
    else if s.authorized == {} then (s, false)
    else
      var (s1, ok1) := EnsureMounted(s, pick, l);
      if !ok1 then (s1, false)
      else
        var (s2, ok2) := AddEncryptionKey(s1, key, pick, l);
        if ok2 then (s2.(authorized := s2.authorized + {key}), true) else (s2, false)
  }

  function RevokeKey(s: Sys, key: Key, pick: Key, l: Luck): (r: (Sys, bool)) {
    if !s.isSetup || s.authorized == {} then (s, false)
    else
      var (s1, ok1) := EnsureMounted(s, pick, l);
      if !ok1 then (s1, false)
      else
        var (s2, ok2) := RemoveEncryptionKey(s1, key, l);
        if ok2 then (s2.(authorized := s2.authorized - {key}), true) else (s2, false)
  }

  function OnKeyInserted(s: Sys, key: Key, l: Luck): Sys {
    if key == "" then s
    else
      var s1 := s.(inserted := s.inserted + {key});
      if !s1.isSetup then s1
      else
        var (s2, used) := EncryptionKeyInUse(s1, key, l);
        if used then s2.(authorized := s2.authorized + {key}) else s2
  }

  /** CredentialsAccessManager::closeSecretsDB. */
  function CloseSecrets(s: Sys, l: Luck): (r: (Sys, bool)) {
    UnmountFileSystem(s.(secretsOpen := false), l)
  }

  predicate IsLastAuthorized(s: Sys, key: Key) {
    (s.inserted - {key}) * s.authorized == {} && key in s.authorized
  }

  function OnKeyDisabled(s: Sys, key: Key, l: Luck): Sys {
    var s1 := s.(inserted := s.inserted - {key});
    if IsLastAuthorized(s, key) && (s1.secretsOpen || s1.mounted) then CloseSecrets(s1, l).0 else s1
  }

  // -------------------------------------------- CredentialsAccessManager, on values

  /** `meta` is whether the metadata database opens.  The database object is new, with an
      empty cache. */
  function OpenSystem(s: Sys, meta: bool, l: Luck): (r: (Sys, bool)) {
    var s1 := s.(dbPresent := true, cached := false);
    if !meta then (s1, false)
    else
      var s2 := s1.(systemOpened := true);
      (if s2.mounted then OpenSecrets(s2, l) else MountFileSystem(s2, l).0, true)
  }

  function CloseSystem(s: Sys, l: Luck): (r: (Sys, bool)) {
    if !s.systemOpened then (s, true)
    else
      var (s1, ok) := if s.secretsOpen then CloseSecrets(s, l) else (s, true);
      (s1.(dbPresent := false, cached := false, systemOpened := false), ok)
  }

  // ------------------------------------------------------------------- Invariant

  ghost predicate NoDuplicateKeys(kc: map<nat, Key>) {
    forall i, j :: i in kc && j in kc && kc[i] == kc[j] ==> i == j
  }

  /** Between events the volume is mounted or not, never half way. */
  ghost predicate MountInv(s: Sys) {
    && (s.state == Unmounted || s.state == Mounted)
    && s.mounted == (s.state == Mounted)
  }

  /** An open secrets database lives on a mounted file system, in an open system. */
  ghost predicate OpenInv(s: Sys) {
    && (s.secretsOpen ==> s.mounted && s.systemOpened)
    && (s.systemOpened ==> s.dbPresent)
    && (forall i :: 0 <= i < |s.drops| ==> !s.drops[i])
  }

  /** Every key that counts for anything occupies a slot. */
  ghost predicate KeyInv(s: Sys) {
    && NoDuplicateKeys(s.keychain)
    && (forall i :: i in s.keychain ==> s.keychain[i] in s.slots)
    && (forall k :: k in s.authorized ==> k in s.slots)
    && (s.mounted ==> s.encryptionKey in s.slots)
  }

  ghost predicate Inv(s: Sys) {
    MountInv(s) && OpenInv(s) && KeyInv(s)
  }

  // ------------------------------------------------------ The stages of a mount

  lemma SetMountedKeepsState(s: Sys, value: bool, l: Luck)
    ensures SetMounted(s, value, l).state == s.state
  {
  }

  lemma StageIs(s: Sys, state: MountState, l: Luck)
    requires !s.mounted && state != Mounted && state != s.state
    ensures UpdateMountState(s, state, l) == s.(state := state)
  {
  }

  lemma AbortIs(s: Sys, l: Luck)
    requires !s.mounted && s.state != Mounted
    ensures Abort(s, l) == (s.(log := s.log + Releases(s.state), state := Unmounted), false)
  {
    if s.state == Unmounted {
      assert s.log + Releases(s.state) == s.log;
    }
  }

  lemma MountDeviceIs(s: Sys, l: Luck)
    requires !s.mounted && s.state == LoopLuksOpened
    ensures MountDevice(s, l) ==
            if l.mkdir then (MountDone(s.(log := s.log + [Acquire(Mount)]), l), true)
            else (s.(log := s.log + [Release(Luks), Release(Loop)], state := Unmounted), false)
  {
    if !l.mkdir {
      hide Abort;
      AbortIs(s, l);
      assert Releases(s.state) == [Release(Luks), Release(Loop)];
    }
  }

  /** Everything is acquired: the key enters the keychain, the flag goes up, listeners hear of it. */
  function MountDone(s: Sys, l: Luck): Sys {
    OnMounted(s.(keychain := AddToKeychain(s.keychain, s.encryptionKey), state := Mounted, mounted := true), l)
  }

  lemma MountDoneForgetsState(s: Sys, state: MountState, l: Luck)
    ensures MountDone(s.(state := state), l) == MountDone(s, l)
  {
  }

  // ------------------------------------------------------ All-or-nothing mounting

  const ALL := [Acquire(Loop), Acquire(Luks), Acquire(Mount)]

  /** `n` resources acquired and released again, last first. */
  function Undone(n: nat): seq<Act> {
    if n == 0 then []
    else if n == 1 then [Acquire(Loop), Release(Loop)]
    else [Acquire(Loop), Acquire(Luks), Release(Luks), Release(Loop)]
  }

  predicate CanBegin(s: Sys, l: Luck) {
    s.state == Unmounted && s.encryptionKey != "" && l.dmMod && l.loopDevice
  }

  predicate MountSucceeds(s: Sys, l: Luck) {
    CanBegin(s, l) && l.losetup && l.luksOpen && s.encryptionKey in s.slots && l.mkdir
  }

  function MountProgress(s: Sys, l: Luck): nat {
    if !CanBegin(s, l) || !l.losetup then 0
    else if !l.luksOpen || s.encryptionKey !in s.slots then 1
    else 2
  }

  /** The tail shared by mounting and setup, from the loop device on. */
  lemma UnlockAndMount(s: Sys, l: Luck, log: seq<Act>)
    requires !s.mounted && (s.state == LoopSet || s.state == LoopLuksFormatted)
    requires s.log == log + [Acquire(Loop)]
    ensures var (s1, unlocked) := OpenLuks(s, l);
            (if unlocked then MountDevice(s1, l) else Abort(s1, l)) ==
            if l.luksOpen && s.encryptionKey in s.slots && l.mkdir
            then (MountDone(s.(log := log + ALL, state := LoopLuksOpened), l), true)
            else (s.(state := Unmounted,
                     log := log + Undone(if l.luksOpen && s.encryptionKey in s.slots then 2 else 1)), false)
  {
    hide Abort, MountDevice, MountDone, UpdateMountState;
    if l.luksOpen && s.encryptionKey in s.slots {
      var s1 := s.(log := s.log + [Acquire(Luks)], state := LoopLuksOpened);
      StageIs(s.(log := s.log + [Acquire(Luks)]), LoopLuksOpened, l);
      MountDeviceIs(s1, l);
      assert s1.log + [Acquire(Mount)] == log + ALL;
      assert s1.log + [Release(Luks), Release(Loop)] == log + Undone(2);
    } else {
      AbortIs(s, l);
      assert Releases(s.state) == [Release(Loop)];
      assert s.log + [Release(Loop)] == log + Undone(1);
    }
  }

  /** mountFileSystem in one go. */
  lemma MountIs(s: Sys, l: Luck)
    requires MountInv(s)
    ensures MountFileSystem(s, l) ==
            if MountSucceeds(s, l) then (MountDone(s.(log := s.log + ALL), l), true)
            else (s.(log := s.log + Undone(MountProgress(s, l))), false)
  {
    hide Abort, MountDevice, OpenLuks, UpdateMountState, MountDone;
    if !CanBegin(s, l) {
      assert s.log + Undone(0) == s.log;
    } else {
      if !l.losetup {
        AbortIs(s, l);
        assert Releases(s.state) == [];
      } else {
        hide Undone;
        MountDoneForgetsState(s.(log := s.log + ALL), LoopLuksOpened, l);
        StageIs(s.(log := s.log + [Acquire(Loop)]), LoopSet, l);
        UnlockAndMount(SetupLoop(s, l), l, s.log);
      }
    }
  }

  predicate SetupSucceeds(s: Sys, l: Luck) {
    CanBegin(s, l) && l.partition && l.losetup && l.format && l.luksOpen && l.mkfs && l.mkdir
  }

  function SetupProgress(s: Sys, l: Luck): nat {
    if !CanBegin(s, l) || !l.partition || !l.losetup then 0
    else if !l.format || !l.luksOpen then 1
    else 2
  }

  /** What setup does to the volume, whether or not it succeeds in the end. */
  function Formatted(s: Sys, l: Luck): Sys {
    if !CanBegin(s, l) || !l.partition then s
    else if !l.losetup || (!l.format && !l.wiped) then s.(isSetup := true)
    else s.(isSetup := true, keychain := map[], slots := if l.format then multiset{s.encryptionKey} else multiset{})
  }

  lemma FormatAndMountIs(s: Sys, l: Luck, log: seq<Act>)
    requires !s.mounted && s.state == LoopSet && s.log == log + [Acquire(Loop)]
    ensures var kept := if !l.format && !l.wiped then s
                        else s.(keychain := map[], slots := if l.format then multiset{s.encryptionKey} else multiset{});
            FormatAndMount(s, l) ==
            if l.format && l.luksOpen && l.mkfs && l.mkdir
            then (MountDone(kept.(log := log + ALL, state := LoopLuksOpened), l), true)
            else (kept.(state := Unmounted, log := log + Undone(if l.format && l.luksOpen then 2 else 1)), false)
  {
    hide Abort, MountDevice, UpdateMountState, MountDone;
    if !l.format {
      var s2 := FormatLuks(s, l).0;
      AbortIs(s2, l);
      assert Releases(LoopSet) == [Release(Loop)];
      assert s.log + [Release(Loop)] == log + Undone(1);
    } else {
      var s2 := s.(slots := multiset{s.encryptionKey}, keychain := map[], state := LoopLuksFormatted);
      StageIs(s.(slots := multiset{s.encryptionKey}, keychain := map[]), LoopLuksFormatted, l);
      UnlockAndMount(s2, l, log);
      if l.luksOpen && !l.mkfs {
        var s3 := s2.(log := s2.log + [Acquire(Luks)], state := LoopLuksOpened);
        StageIs(s2.(log := s2.log + [Acquire(Luks)]), LoopLuksOpened, l);
        AbortIs(s3, l);
        assert Releases(LoopLuksOpened) == [Release(Luks), Release(Loop)];
        assert s3.log + [Release(Luks), Release(Loop)] == log + Undone(2);
      }
    }
  }

  lemma SetupFailsEarly(s: Sys, l: Luck)
    requires MountInv(s) && !(CanBegin(s, l) && l.partition && l.losetup)
    ensures SetupFileSystem(s, l) == (if CanBegin(s, l) && l.partition then s.(isSetup := true) else s, false)
  {
    hide Abort, FormatAndMount;
    if CanBegin(s, l) {
      AbortIs(s, l);
      AbortIs(s.(isSetup := true), l);
      assert s.log + Releases(Unmounted) == s.log;
    }
  }

  lemma SetupReachesFormat(s: Sys, l: Luck)
    requires MountInv(s) && CanBegin(s, l) && l.partition && l.losetup
    ensures SetupFileSystem(s, l)
         == FormatAndMount(s.(isSetup := true, log := s.log + [Acquire(Loop)], state := LoopSet), l)
  {
    hide FormatAndMount, UpdateMountState;
    StageIs(s.(isSetup := true, log := s.log + [Acquire(Loop)]), LoopSet, l);
  }

  lemma SetupGetsLoop(s: Sys, l: Luck)
    requires MountInv(s) && CanBegin(s, l) && l.partition && l.losetup
    ensures SetupFileSystem(s, l) ==
            if SetupSucceeds(s, l) then (MountDone(Formatted(s, l).(log := s.log + ALL), l), true)
            else (Formatted(s, l).(log := s.log + Undone(SetupProgress(s, l))), false)
  {
    hide SetupFileSystem, FormatAndMount, MountDone, Undone;
    SetupReachesFormat(s, l);
    MountDoneForgetsState(Formatted(s, l).(log := s.log + ALL), LoopLuksOpened, l);
    FormatAndMountIs(s.(isSetup := true, log := s.log + [Acquire(Loop)], state := LoopSet), l, s.log);
  }

  /** setupFileSystem in one go. */
  lemma SetupIs(s: Sys, l: Luck)
    requires MountInv(s)
    ensures SetupFileSystem(s, l) ==
            if SetupSucceeds(s, l) then (MountDone(Formatted(s, l).(log := s.log + ALL), l), true)
            else (Formatted(s, l).(log := s.log + Undone(SetupProgress(s, l))), false)
  {
    hide SetupFileSystem, FormatAndMount, MountDone;
    if CanBegin(s, l) && l.partition && l.losetup {
      SetupGetsLoop(s, l);
    } else {
      SetupFailsEarly(s, l);
      assert s.log + Undone(0) == s.log;
    }
  }

  /** Mounting ends mounted, with everything acquired, or as it began, with everything that
      was acquired released in reverse order; which of the two is decided by the steps. */
  lemma {:induction false} MountIsAllOrNothing(s: Sys, l: Luck)
    requires MountInv(s)
    ensures var (t, ok) := MountFileSystem(s, l);
            && MountInv(t)
            && (ok <==> MountSucceeds(s, l))
            && (ok ==> t.state == Mounted && t.log == s.log + ALL)
            && (!ok ==> t == s.(log := s.log + Undone(MountProgress(s, l))))
            && t.slots == s.slots && t.encryptionKey == s.encryptionKey
  {
    hide MountFileSystem, MountSucceeds, MountProgress;
    MountIs(s, l);
  }

  /** The same for setting up a new volume, whose only key is then the encryption key. */
  lemma {:induction false} SetupIsAllOrNothing(s: Sys, l: Luck)
    requires MountInv(s)
    ensures var (t, ok) := SetupFileSystem(s, l);
            && MountInv(t)
            && (ok <==> SetupSucceeds(s, l))
            && (ok ==> t.state == Mounted && t.log == s.log + ALL
                       && t.slots == multiset{s.encryptionKey} && t.keychain == map[1 := s.encryptionKey])
            && (!ok ==> t.state == s.state && t.log == s.log + Undone(SetupProgress(s, l)))
  {
    hide SetupFileSystem;
    SetupIs(s, l);
  }

  /** Unmounting a mounted volume ends unmounted whatever fails; the three releases are
      issued in reverse order; the result tells whether they all worked. */
  lemma UnmountAlwaysUnmounts(s: Sys, l: Luck)
    requires MountInv(s)
    ensures var (t, ok) := UnmountFileSystem(s, l);
            && MountInv(t) && t.state == Unmounted
            && (s.state == Unmounted ==> ok && t == s)
            && (s.state == Mounted ==>
                  && t.log == s.log + [Release(Mount), Release(Luks), Release(Loop)]
                  && (ok <==> l.luksClose && l.loopRelease))
  {
  }

  /** unmountFileSystem in one go: the database closes first, then the flag drops. */
  lemma UnmountIs(s: Sys, l: Luck)
    requires MountInv(s) && OpenInv(s)
    ensures UnmountFileSystem(s, l).0 ==
            if s.state == Unmounted then s
            else s.(state := Unmounted, mounted := false, secretsOpen := false,
                    log := s.log + Releases(Mounted), drops := s.drops + [false])
  {
  }

  // ------------------------------------- Mounted file system, open secrets database

  lemma MountKeepsOpenInv(s: Sys, l: Luck)
    requires MountInv(s) && OpenInv(s)
    ensures OpenInv(MountFileSystem(s, l).0)
  {
    hide MountFileSystem, MountSucceeds;
    MountIs(s, l);
  }

  lemma SetupKeepsOpenInv(s: Sys, l: Luck)
    requires MountInv(s) && OpenInv(s)
    ensures OpenInv(SetupFileSystem(s, l).0)
  {
    hide SetupFileSystem, SetupSucceeds;
    SetupIs(s, l);
  }

  lemma UnmountKeepsInv(s: Sys, l: Luck)
    requires Inv(s)
    ensures Inv(UnmountFileSystem(s, l).0)
  {
    hide UnmountFileSystem;
    UnmountIs(s, l);
  }

  /** A mount that completes while the system is open leaves the secrets database open with
      an empty cache exactly when the storage initializes. */
  lemma MountOpensSecrets(s: Sys, l: Luck)
    requires Inv(s) && s.systemOpened && s.state == Unmounted && MountFileSystem(s, l).1
    ensures var t := MountFileSystem(s, l).0;
            && (t.secretsOpen <==> l.storage)
            && t.cached == (s.cached && !l.storage)
  {
    hide MountFileSystem, MountSucceeds;
    MountIs(s, l);
  }

  // ----------------------------------------------------------------- Keys and slots

  lemma AddKeepsKeychain(kc: map<nat, Key>, key: Key)
    requires NoDuplicateKeys(kc)
    ensures NoDuplicateKeys(AddToKeychain(kc, key))
    ensures forall i :: i in AddToKeychain(kc, key) ==> AddToKeychain(kc, key)[i] == key || (i in kc && AddToKeychain(kc, key)[i] == kc[i])
  {
  }

  lemma MountKeepsNoDuplicates(s: Sys, l: Luck)
    requires NoDuplicateKeys(s.keychain)
    ensures NoDuplicateKeys(MountFileSystem(s, l).0.keychain)
  {
    AddKeepsKeychain(s.keychain, s.encryptionKey);
    hide NoDuplicateKeys, AddToKeychain, UpdateMountState, Abort;
  }

  lemma MountDoneKeepsKeyInv(s: Sys, l: Luck)
    requires KeyInv(s) && s.encryptionKey in s.slots
    ensures KeyInv(MountDone(s, l))
  {
    AddKeepsKeychain(s.keychain, s.encryptionKey);
  }

  lemma MountKeepsKeyInv(s: Sys, l: Luck)
    requires MountInv(s) && KeyInv(s)
    ensures KeyInv(MountFileSystem(s, l).0)
  {
    hide MountFileSystem, MountDone;
    MountIs(s, l);
    if MountSucceeds(s, l) {
      MountDoneKeepsKeyInv(s.(log := s.log + ALL), l);
    }
  }

  lemma SetupKeepsKeyInv(s: Sys, l: Luck)
    requires MountInv(s) && KeyInv(s) && s.authorized == {}
    ensures KeyInv(SetupFileSystem(s, l).0) && SetupFileSystem(s, l).0.authorized == {}
  {
    hide SetupFileSystem;
    SetupIs(s, l);
    if SetupSucceeds(s, l) {
      MountDoneKeepsKeyInv(Formatted(s, l).(log := s.log + ALL), l);
    }
  }

  lemma AddSlotKeepsKeyInv(s: Sys, key: Key, existing: Key, l: Luck)
    requires KeyInv(s)
    ensures var (t, ok) := AddEncryptionKey(s, key, existing, l);
            KeyInv(t) && (ok ==> key in t.slots)
  {
    AddKeepsKeychain(s.keychain, key);
  }

  lemma MountKeepsInv(s: Sys, l: Luck)
    requires Inv(s)
    ensures Inv(MountFileSystem(s, l).0)
    ensures MountFileSystem(s, l).1 ==> MountFileSystem(s, l).0.mounted && s.encryptionKey in s.slots
    ensures var t := MountFileSystem(s, l).0;
            t.slots == s.slots && t.authorized == s.authorized && t.encryptionKey == s.encryptionKey
  {
    MountIs(s, l);
    hide MountFileSystem, OpenInv, KeyInv;
    MountKeepsOpenInv(s, l);
    MountKeepsKeyInv(s, l);
  }

  lemma SetupKeepsInv(s: Sys, l: Luck)
    requires Inv(s) && s.authorized == {}
    ensures var (t, ok) := SetupFileSystem(s, l);
            Inv(t) && t.authorized == {} && (ok ==> s.encryptionKey in t.slots)
  {
    hide SetupFileSystem, OpenInv, KeyInv;
    SetupKeepsOpenInv(s, l);
    SetupKeepsKeyInv(s, l);
    SetupIsAllOrNothing(s, l);
  }

  /** Picking an authorized key is picking a key with a slot. */
  lemma EnsureMountedKeepsInv(s: Sys, pick: Key, l: Luck)
    requires Inv(s) && pick in s.authorized
    ensures var (t, ok) := EnsureMounted(s, pick, l);
            && Inv(t) && (ok ==> t.mounted) && t.slots == s.slots && t.authorized == s.authorized
            && t.encryptionKey == if s.mounted then s.encryptionKey else pick
  {
    if !s.mounted {
      hide MountFileSystem;
      MountKeepsInv(SetEncryptionKey(s, pick), l);
    }
  }

  lemma {:induction false} AuthorizeKeepsInv(s: Sys, key: Key, format: bool, pick: Key, l: Luck)
    requires Inv(s) && (s.authorized != {} ==> pick in s.authorized)
    ensures var (t, ok) := AuthorizeKey(s, key, format, pick, l);
            Inv(t) && (ok ==> key in t.authorized && key in t.slots)
  {
    if key !in s.authorized {
      if !s.isSetup || format {
        AuthorizeFormatsKeepsInv(s, key, l);
      } else if s.authorized != {} {
        hide EnsureMounted, AddEncryptionKey;
        EnsureMountedKeepsInv(s, pick, l);
        AddSlotKeepsInv(EnsureMounted(s, pick, l).0, key, pick, l);
      }
    }
  }

  lemma AuthorizeFormatsKeepsInv(s: Sys, key: Key, l: Luck)
    requires Inv(s)
    ensures var (s1, ok) := SetupFileSystem(SetEncryptionKey(s.(authorized := {}), key), l);
            && Inv(s1) && s1.authorized == {} && (ok ==> key in s1.slots && Inv(s1.(authorized := s1.authorized + {key})))
  {
    var s0 := SetEncryptionKey(s.(authorized := {}), key);
    assert Inv(s0);
    SetupKeepsInv(s0, l);
    SetupIsAllOrNothing(s0, l);
    hide SetupFileSystem;
  }

  lemma AddSlotKeepsInv(s: Sys, key: Key, existing: Key, l: Luck)
    requires Inv(s)
    ensures var (t, ok) := AddEncryptionKey(s, key, existing, l);
            && Inv(t) && t.authorized == s.authorized
            && (ok ==> key in t.slots && Inv(t.(authorized := t.authorized + {key})))
  {
    AddSlotKeepsKeyInv(s, key, existing, l);
  }

  lemma InUseKeepsInv(s: Sys, key: Key, l: Luck)
    requires Inv(s)
    ensures var (t, used) := EncryptionKeyInUse(s, key, l);
            && Inv(t) && t.authorized == s.authorized
            && (used ==> key in t.slots && Inv(t.(authorized := t.authorized + {key})))
  {
    if !s.mounted {
      var s0 := SetEncryptionKey(s, key);
      assert Inv(s0);
      MountKeepsInv(s0, l);
      hide MountFileSystem;
      var t := MountFileSystem(s0, l).0;
      hide NoDuplicateKeys;
    }
  }

  lemma {:induction false} KeyInsertedKeepsInv(s: Sys, key: Key, l: Luck)
    requires Inv(s)
    ensures Inv(OnKeyInserted(s, key, l))
  {
    hide EncryptionKeyInUse;
    var s1 := s.(inserted := s.inserted + {key});
    assert Inv(s1);
    InUseKeepsInv(s1, key, l);
  }

  lemma KeyDisabledKeepsInv(s: Sys, key: Key, l: Luck)
    requires Inv(s)
    ensures Inv(OnKeyDisabled(s, key, l))
  {
    var s1 := s.(inserted := s.inserted - {key}, secretsOpen := false);
    assert Inv(s1) && Inv(s1.(secretsOpen := s.secretsOpen));
    hide UnmountFileSystem;
    UnmountKeepsInv(s1, l);
  }

  lemma {:induction false} OpenSystemKeepsInv(s: Sys, meta: bool, l: Luck)
    requires Inv(s)
    ensures Inv(OpenSystem(s, meta, l).0)
  {
    var s2 := s.(dbPresent := true, cached := false, systemOpened := true);
    assert Inv(s2);
    hide MountFileSystem;
    MountKeepsInv(s2, l);
  }

  lemma CloseSystemKeepsInv(s: Sys, l: Luck)
    requires Inv(s)
    ensures var t := CloseSystem(s, l).0;
            Inv(t) && !t.secretsOpen && !t.systemOpened
  {
    var s1 := s.(secretsOpen := false);
    assert Inv(s1);
    UnmountIs(s1, l);
    hide UnmountFileSystem;
    UnmountKeepsInv(s1, l);
  }

  // -------------------------------------------------------- Revoking the mounted key

  /** The volume is (or is now) mounted with the key whose only slot is destroyed. */
  predicate RevokesMountedKey(s: Sys, key: Key, pick: Key, l: Luck) {
    && s.isSetup && s.authorized != {} && l.removeSlot && s.slots[key] == 1
    && (if s.mounted then s.encryptionKey == key
        else pick == key && MountSucceeds(SetEncryptionKey(s, pick), l))
  }

  lemma RemoveSlotKeepsInvExactly(s: Sys, key: Key, l: Luck)
    requires Inv(s) && s.mounted
    ensures var (t, ok) := RemoveEncryptionKey(s, key, l);
            ok && (Inv(t.(authorized := t.authorized - {key})) <==> !(l.removeSlot && s.slots[key] == 1 && s.encryptionKey == key))
  {
    var t := RemoveEncryptionKey(s, key, l).0;
    if l.removeSlot && key in s.slots {
      forall i | i in t.keychain
        ensures t.keychain[i] in t.slots
      {
        assert t.keychain[i] == s.keychain[i] && t.keychain[i] != key;
      }
    }
  }

  /** Revocation keeps every authorized key, every keychain entry and the mounted key in a
      slot exactly when it does not revoke the key the volume is mounted with. */
  lemma {:induction false} RevokeKeepsInvExactly(s: Sys, key: Key, pick: Key, l: Luck)
    requires Inv(s) && (s.authorized != {} ==> pick in s.authorized)
    ensures Inv(RevokeKey(s, key, pick, l).0) <==> !RevokesMountedKey(s, key, pick, l)
  {
    if s.isSetup && s.authorized != {} {
      EnsureMountedKeepsInv(s, pick, l);
      if !s.mounted {
        MountIsAllOrNothing(SetEncryptionKey(s, pick), l);
      }
      var (s1, ok) := EnsureMounted(s, pick, l);
      hide EnsureMounted, MountSucceeds, RemoveEncryptionKey, Inv;
      if ok {
        RemoveSlotKeepsInvExactly(s1, key, l);
      }
    }
  }

  lemma MountKeepsSetup(s: Sys, l: Luck)
    requires MountInv(s)
    ensures MountFileSystem(s, l).0.isSetup == s.isSetup
  {
    hide MountFileSystem, MountSucceeds, MountProgress, AddToKeychain;
    MountIs(s, l);
  }

  /** The mount before a revocation, if there is one. */
  lemma MountToRevoke(s: Sys, key: Key, pick: Key, l: Luck)
    requires Inv(s) && pick in s.authorized && RevokesMountedKey(s, key, pick, l)
    ensures var (t, ok) := EnsureMounted(s, pick, l);
      ok && t.encryptionKey == key && t.isSetup
  {
    if !s.mounted {
      MountIsAllOrNothing(SetEncryptionKey(s, pick), l);
      MountKeepsSetup(SetEncryptionKey(s, pick), l);
    }
    hide MountFileSystem, MountSucceeds, MountProgress;
  }

  /** What goes wrong otherwise: the destroyed key, inserted again while the volume is still
      mounted, is authorized again on sight. */
  lemma {:induction false} RevokedKeyComesBack(s: Sys, key: Key, pick: Key, l: Luck, l': Luck)
    requires Inv(s) && (s.authorized != {} ==> pick in s.authorized) && key != ""
    requires RevokesMountedKey(s, key, pick, l)
    ensures var (t, ok) := RevokeKey(s, key, pick, l);
            && ok && key !in t.authorized && key !in t.slots
            && var u := OnKeyInserted(t, key, l');
               key in u.authorized && key !in u.slots
  {
    EnsureMountedKeepsInv(s, pick, l);
    MountToRevoke(s, key, pick, l);
    hide EnsureMounted, MountFileSystem;
  }

  /** A revocation that reports success has taken the key out of its slot exactly when the
      slot was really released and there was no second one. */
  lemma {:induction false} RevocationMayLeaveSlot(s: Sys, key: Key, pick: Key, l: Luck)
    requires Inv(s) && (s.authorized != {} ==> pick in s.authorized) && RevokeKey(s, key, pick, l).1
    ensures var t := RevokeKey(s, key, pick, l).0;
            && key !in t.authorized
            && (key !in t.slots <==> s.slots[key] == 0 || (l.removeSlot && s.slots[key] == 1))
  {
    EnsureMountedKeepsInv(s, pick, l);
    hide EnsureMounted, Inv;
  }

  /** Adding a key keeps every other key in the keychain exactly when the next number is
      free; after a removal it need not be. */
  lemma AddDropsKeyExactly(kc: map<nat, Key>, key: Key)
    requires NoDuplicateKeys(kc) && key !in kc.Values
    ensures (forall k :: k in kc.Values ==> k in AddToKeychain(kc, key).Values) <==> |kc| + 1 !in kc
  {
    var kc' := AddToKeychain(kc, key);
    if |kc| + 1 in kc {
      var lost := kc[|kc| + 1];
      assert lost in kc.Values && lost != key;
      assert forall i :: i in kc' ==> kc'[i] != lost;
      assert lost !in kc'.Values;
    } else {
      forall k | k in kc.Values
        ensures k in kc'.Values
      {
        var i :| i in kc && kc[i] == k;
        assert kc'[i] == k;
      }
    }
  }

  /** Two keys, the older removed, a third added: the second is gone from the keychain. */
  lemma KeychainLosesKey(a: Key, b: Key, d: Key)
    requires a != b && a != d && b != d
    ensures var kc := AddToKeychain(AddToKeychain(map[], a), b);
            AddToKeychain(RemoveFromKeychain(kc, a), d) == map[2 := d]
  {
    var kc: map<nat, Key> := map[1 := a];
    assert AddToKeychain(map[], a) == kc;
    assert b !in kc.Values && AddToKeychain(kc, b) == map[1 := a, 2 := b];
    var rest: map<nat, Key> := map[2 := b];
    assert RemoveFromKeychain(map[1 := a, 2 := b], a) == rest;
    assert d !in rest.Values && AddToKeychain(rest, d) == map[2 := d];
  }

  // ------------------------------------------------------------------------- Runs

  datatype Event =
    | Insert(key: Key)
    | Disable(key: Key)
    | Authorize(key: Key, format: bool, pick: Key)
    | Revoke(key: Key, pick: Key)
    | Open(meta: bool)
    | Close

  /** Events, each with the luck that it has. */
  type Script = seq<(Event, Luck)>

  /** A key is picked among the authorized ones; losing the last authorized key dereferences
      the database object. */
  predicate Enabled(s: Sys, e: Event) {
    match e
    case Authorize(_, _, pick) => s.authorized != {} ==> pick in s.authorized
    case Revoke(_, pick) => s.authorized != {} ==> pick in s.authorized
    case Disable(key) => IsLastAuthorized(s, key) ==> s.dbPresent
    case _ => true
  }

  function Step(s: Sys, e: Event, l: Luck): Sys {
    match e
    case Insert(key) => OnKeyInserted(s, key, l)
    case Disable(key) => OnKeyDisabled(s, key, l)
    case Authorize(key, format, pick) => AuthorizeKey(s, key, format, pick, l).0
    case Revoke(key, pick) => RevokeKey(s, key, pick, l).0
    case Open(meta) => OpenSystem(s, meta, l).0
    case Close => CloseSystem(s, l).0
  }

  predicate Safe(s: Sys, e: Event, l: Luck) {
    e.Revoke? ==> !RevokesMountedKey(s, e.key, e.pick, l)
  }

  /** The state after the events, None when one of them was not enabled. */
  function Exec(s: Sys, es: Script): Option<Sys> {
    if es == [] then Some(s)
    else
      var (e, l) := es[|es| - 1];
      match Exec(s, es[..|es| - 1])
      case None => None
      case Some(u) => if Enabled(u, e) then Some(Step(u, e, l)) else None
  }

  predicate SafeRun(s: Sys, es: Script) {
    es == [] ||
    (SafeRun(s, es[..|es| - 1])
     && match Exec(s, es[..|es| - 1])
        case None => true
        case Some(u) => Safe(u, es[|es| - 1].0, es[|es| - 1].1))
  }

  lemma {:induction false} StepKeepsInv(s: Sys, e: Event, l: Luck)
    requires Inv(s) && Enabled(s, e) && Safe(s, e, l)
    ensures Inv(Step(s, e, l))
  {
    hide Inv, RevokesMountedKey;
    match e
    case Insert(key) => KeyInsertedKeepsInv(s, key, l);
    case Disable(key) => KeyDisabledKeepsInv(s, key, l);
    case Authorize(key, format, pick) => AuthorizeKeepsInv(s, key, format, pick, l);
    case Revoke(key, pick) => RevokeKeepsInvExactly(s, key, pick, l);
    case Open(meta) => OpenSystemKeepsInv(s, meta, l);
    case Close => CloseSystemKeepsInv(s, l);
  }

  /** A daemon that has just started, with whatever volume is on disk. */
  predicate Started(s: Sys) {
    && s.state == Unmounted && !s.mounted && !s.systemOpened && !s.dbPresent && !s.secretsOpen && !s.cached
    && s.inserted == {} && s.authorized == {} && s.log == [] && s.drops == []
  }

  /** Over every run that never revokes the mounted key: authorized keys and keychain entries
      occupy slots, mounted means that the encryption key does, an open secrets database
      means mounted and opened, and it was closed whenever the flag dropped. */
  lemma {:induction false} RunKeepsInv(s: Sys, es: Script, t: Sys)
    requires Started(s) && NoDuplicateKeys(s.keychain) && (forall i :: i in s.keychain ==> s.keychain[i] in s.slots)
    requires Exec(s, es) == Some(t) && SafeRun(s, es)
    ensures Inv(t)
    decreases |es|
  {
    if es != [] {
      hide Step, Enabled, Safe, Inv;
      var (e, l) := es[|es| - 1];
      var u := Exec(s, es[..|es| - 1]).value;
      RunKeepsInv(s, es[..|es| - 1], u);
      StepKeepsInv(u, e, l);
    }
  }
}
