/**
 CryptoManager, CredentialsAccessManager and KeyHandler as objects.  Signals of the crypto
 manager are direct calls to the access manager passed as receiver; foreign calls succeed
 or fail as the `Luck` says.  Every method has the effect of its counterpart in
 SecureStorage on the three objects together.
 */
module SecureStorageObjects {
  import Keychain
  import S = SecureStorage

  ghost function View(c: CryptoManager, m: AccessManager, k: KeyHandler): S.Sys
    reads c, m, k
  {
    S.Sys(c.slots, c.keychain, c.mountState, c.fileSystemIsMounted, c.fileSystemIsSetup, c.encryptionKey,
          m.systemOpened, m.dbPresent, m.secretsOpen, m.cached, k.insertedKeys, k.authorizedKeys, c.log, c.drops)
  }

  class CryptoManager {
    // The LUKS header and the keychain file on the volume.
    var slots: multiset<S.Key>
    var keychain: map<nat, S.Key>
    var mountState: S.MountState
    var fileSystemIsMounted: bool
    var fileSystemIsSetup: bool
    var encryptionKey: S.Key
    // Histories.
    ghost var log: seq<S.Act>
    ghost var drops: seq<bool>

    constructor (slots: multiset<S.Key>, keychain: map<nat, S.Key>, isSetup: bool)
      ensures mountState == S.Unmounted && !fileSystemIsMounted && fileSystemIsSetup == isSetup
      ensures this.slots == slots && this.keychain == keychain && encryptionKey == "" && log == [] && drops == []
    {
      this.slots, this.keychain := slots, keychain;
      mountState, fileSystemIsMounted, fileSystemIsSetup, encryptionKey := S.Unmounted, false, isSetup, "";
      log, drops := [], [];
    }

    method SetFileSystemMounted(m: AccessManager, isMounted: bool, l: S.Luck, ghost k: KeyHandler)
      modifies this, m
      ensures View(this, m, k) == S.SetMounted(old(View(this, m, k)), isMounted, l)
    {
      if isMounted != fileSystemIsMounted {
        if fileSystemIsMounted {
          m.OnEncryptedFSUnmounting();
          drops := drops + [m.secretsOpen];
        }
        fileSystemIsMounted := isMounted;
        if isMounted {
          m.OnEncryptedFSMounted(this, l);
        }
      }
    }

    method UpdateMountState(m: AccessManager, state: S.MountState, l: S.Luck, ghost k: KeyHandler)
      modifies this, m
      ensures View(this, m, k) == S.UpdateMountState(old(View(this, m, k)), state, l)
    {
      hide S.SetMounted;
      if state == mountState {
        return;
      }
      mountState := state;
      SetFileSystemMounted(m, state == S.Mounted, l, k);
    }

    method SetEncryptionKey(key: S.Key)
      modifies this`encryptionKey
      ensures encryptionKey == if fileSystemIsMounted then old(encryptionKey) else key
    {
      if fileSystemIsMounted {
        return;
      }
      encryptionKey := key;
    }

    method KeychainContainsKey(key: S.Key) returns (found: bool)
      ensures found == (key in keychain.Values)
    {
      var numbers := keychain.Keys;
      while numbers != {}
        invariant numbers <= keychain.Keys
        invariant forall i :: i in keychain && i !in numbers ==> keychain[i] != key
        decreases numbers
      {
        var i :| i in numbers;
        if keychain[i] == key {
          return true;
        }
        numbers := numbers - {i};
      }
      return false;
    }

    method AddKeyToKeychain(key: S.Key)
      modifies this`keychain
      ensures keychain == S.AddToKeychain(old(keychain), key)
    {
      var present := KeychainContainsKey(key);
      if present {
        return;
      }
      var keyCount := |keychain|;
      keyCount := keyCount + 1;
      keychain := keychain[keyCount := key];
    }

    /** Stops at the first match. */
    method RemoveKeyFromKeychain(key: S.Key)
      requires S.NoDuplicateKeys(keychain)
      modifies this`keychain
      ensures keychain == S.RemoveFromKeychain(old(keychain), key)
    {
      var numbers := keychain.Keys;
      while numbers != {}
        invariant numbers <= keychain.Keys
        invariant keychain == old(keychain)
        invariant forall i :: i in keychain && i !in numbers ==> keychain[i] != key
        decreases numbers
      {
        var i :| i in numbers;
        if keychain[i] == key {
          keychain := keychain - {i};
          assert forall j :: j in old(keychain) && old(keychain)[j] == key ==> j == i;
          return;
        }
        numbers := numbers - {i};
      }
    }

    method UnmountFileSystem(m: AccessManager, l: S.Luck, ghost k: KeyHandler) returns (isOk: bool)
      modifies this, m
      ensures (View(this, m, k), isOk) == S.UnmountFileSystem(old(View(this, m, k)), l)
    {
      if mountState == S.Unmounted {
        return true;
      }
      hide S.SetMounted, S.UpdateMountState;
      SetFileSystemMounted(m, false, l, k);
      UnmountDevices(l);
      isOk := !(mountState.Rank() >= 3 && !l.luksClose) && !(mountState.Rank() >= 1 && !l.loopRelease);
      UpdateMountState(m, S.Unmounted, l, k);
      S.SetMountedKeepsState(old(View(this, m, k)), false, l);
    }

    /** Releases in reverse order of acquisition, as far as the state says. */
    method UnmountDevices(l: S.Luck)
      modifies this`log
      ensures log == old(log) + S.Releases(mountState)
    {
      if mountState.Rank() >= 4 {
        log := log + [S.Release(S.Mount)];
      }
      if mountState.Rank() >= 3 {
        log := log + [S.Release(S.Luks)];
      }
      if mountState.Rank() >= 1 {
        log := log + [S.Release(S.Loop)];
      }
    }

    method Abort(m: AccessManager, l: S.Luck, ghost k: KeyHandler) returns (ok: bool)
      modifies this, m
      ensures (View(this, m, k), ok) == S.Abort(old(View(this, m, k)), l)
    {
      hide S.UnmountFileSystem;
      var _ := UnmountFileSystem(m, l, k);
      return false;
    }

    method MountMappedDevice(m: AccessManager, l: S.Luck, ghost k: KeyHandler) returns (ok: bool)
      modifies this, m
      ensures (View(this, m, k), ok) == S.MountDevice(old(View(this, m, k)), l)
    {
      hide S.Abort, S.UpdateMountState;
      if !l.mkdir {
        ok := Abort(m, l, k);
        return;
      }
      log := log + [S.Acquire(S.Mount)];
      AddKeyToKeychain(encryptionKey);
      UpdateMountState(m, S.Mounted, l, k);
      return true;
    }

    method OpenLuks(m: AccessManager, l: S.Luck, ghost k: KeyHandler) returns (ok: bool)
      modifies this, m
      ensures (View(this, m, k), ok) == S.OpenLuks(old(View(this, m, k)), l)
    {
      hide S.UpdateMountState;
      if !l.luksOpen || encryptionKey !in slots {
        return false;
      }
      log := log + [S.Acquire(S.Luks)];
      UpdateMountState(m, S.LoopLuksOpened, l, k);
      return true;
    }

    method SetupLoop(m: AccessManager, l: S.Luck, ghost k: KeyHandler)
      modifies this, m
      ensures View(this, m, k) == S.SetupLoop(old(View(this, m, k)), l)
    {
      hide S.UpdateMountState;
      log := log + [S.Acquire(S.Loop)];
      UpdateMountState(m, S.LoopSet, l, k);
    }

    method FormatLuks(m: AccessManager, l: S.Luck, ghost k: KeyHandler) returns (ok: bool)
      modifies this, m
      ensures (View(this, m, k), ok) == S.FormatLuks(old(View(this, m, k)), l)
    {
      hide S.UpdateMountState;
      if !l.format {
        if l.wiped {
          slots, keychain := multiset{}, map[];
        }
        return false;
      }
      slots, keychain := multiset{encryptionKey}, map[];
      UpdateMountState(m, S.LoopLuksFormatted, l, k);
      return true;
    }

    method FormatAndMount(m: AccessManager, l: S.Luck, ghost k: KeyHandler) returns (ok: bool)
      modifies this, m
      ensures (View(this, m, k), ok) == S.FormatAndMount(old(View(this, m, k)), l)
    {
      hide S.Abort, S.FormatLuks, S.OpenLuks, S.MountDevice;
      ok := FormatLuks(m, l, k);
      if !ok {
        ok := Abort(m, l, k);
        return;
      }
      ok := OpenLuks(m, l, k);
      if !ok {
        ok := Abort(m, l, k);
        return;
      }
      if !l.mkfs {
        ok := Abort(m, l, k);
        return;
      }
      ok := MountMappedDevice(m, l, k);
    }

    method SetupFileSystem(m: AccessManager, l: S.Luck, ghost k: KeyHandler) returns (ok: bool)
      modifies this, m
      ensures (View(this, m, k), ok) == S.SetupFileSystem(old(View(this, m, k)), l)
    {
      hide S.Abort, S.SetupLoop, S.FormatAndMount;
      if mountState == S.Mounted || encryptionKey == "" || !l.dmMod || !l.loopDevice {
        return false;
      }
      if !l.partition {
        ok := Abort(m, l, k);
        return;
      }
      fileSystemIsSetup := true;
      if !l.losetup {
        ok := Abort(m, l, k);
        return;
      }
      SetupLoop(m, l, k);
      ok := FormatAndMount(m, l, k);
    }

    method MountFileSystem(m: AccessManager, l: S.Luck, ghost k: KeyHandler) returns (ok: bool)
      modifies this, m
      ensures (View(this, m, k), ok) == S.MountFileSystem(old(View(this, m, k)), l)
    {
      hide S.Abort, S.SetupLoop, S.OpenLuks, S.MountDevice;
      if mountState == S.Mounted || encryptionKey == "" || !l.dmMod || !l.loopDevice {
        return false;
      }
      if !l.losetup {
        ok := Abort(m, l, k);
        return;
      }
      SetupLoop(m, l, k);
      ok := OpenLuks(m, l, k);
      if !ok {
        ok := Abort(m, l, k);
        return;
      }
      ok := MountMappedDevice(m, l, k);
    }

    method AddEncryptionKey(key: S.Key, existing: S.Key, l: S.Luck, ghost m: AccessManager, ghost k: KeyHandler)
      returns (ok: bool)
      modifies this
      ensures (View(this, m, k), ok) == S.AddEncryptionKey(old(View(this, m, k)), key, existing, l)
    {
      if mountState.Rank() >= 3 {
        if l.addSlot && existing in slots {
          slots := slots + multiset{key};
          AddKeyToKeychain(key);
          return true;
        }
      }
      return false;
    }

    method RemoveEncryptionKey(key: S.Key, l: S.Luck, ghost m: AccessManager, ghost k: KeyHandler)
      returns (ok: bool)
      requires S.NoDuplicateKeys(keychain)
      modifies this
      ensures (View(this, m, k), ok) == S.RemoveEncryptionKey(old(View(this, m, k)), key, l)
    {
      if mountState.Rank() >= 3 {
        if l.removeSlot && key in slots {
          slots := slots - multiset{key};
          RemoveKeyFromKeychain(key);
        }
        return true;
      }
      return false;
    }

    method EncryptionKeyInUse(m: AccessManager, key: S.Key, l: S.Luck, ghost k: KeyHandler) returns (used: bool)
      modifies this, m
      ensures (View(this, m, k), used) == S.EncryptionKeyInUse(old(View(this, m, k)), key, l)
    {
      hide S.MountFileSystem;
      if fileSystemIsMounted && encryptionKey == key {
        return true;
      }
      if !fileSystemIsMounted {
        SetEncryptionKey(key);
        used := MountFileSystem(m, l, k);
        return;
      }
      used := KeychainContainsKey(key);
    }
  }

  class AccessManager {
    var systemOpened: bool
    var dbPresent: bool
    // AbstractSecretsStorage::isOpen, and whether the secrets cache of the database holds anything.
    var secretsOpen: bool
    var cached: bool

    constructor ()
      ensures !systemOpened && !dbPresent && !secretsOpen && !cached
    {
      systemOpened, dbPresent, secretsOpen, cached := false, false, false, false;
    }

    method OpenSecretsDB(c: CryptoManager, l: S.Luck) returns (ok: bool)
      modifies this
      ensures systemOpened == old(systemOpened) && dbPresent == old(dbPresent)
      ensures if !c.fileSystemIsMounted then !ok && secretsOpen == old(secretsOpen) && cached == old(cached)
              else ok == l.storage && secretsOpen == l.storage && cached == (old(cached) && !l.storage)
    {
      if !c.fileSystemIsMounted {
        return false;
      }
      secretsOpen := false;
      if !l.storage {
        return false;
      }
      secretsOpen := true;
      cached := false;
      return true;
    }

    method OnEncryptedFSMounted(c: CryptoManager, l: S.Luck)
      requires c.fileSystemIsMounted
      modifies this
      ensures systemOpened == old(systemOpened) && dbPresent == old(dbPresent)
      ensures if old(systemOpened && !secretsOpen) then secretsOpen == l.storage && cached == (old(cached) && !l.storage)
              else secretsOpen == old(secretsOpen) && cached == old(cached)
    {
      if !systemOpened {
        return;
      }
      if !secretsOpen {
        var _ := OpenSecretsDB(c, l);
      }
    }

    method OnEncryptedFSUnmounting()
      modifies this`secretsOpen
      ensures secretsOpen == (old(secretsOpen) && !systemOpened)
    {
      if !systemOpened {
        return;
      }
      if secretsOpen {
        secretsOpen := false;
      }
    }

    method CloseSecretsDB(c: CryptoManager, l: S.Luck, ghost k: KeyHandler) returns (ok: bool)
      modifies this, c
      ensures (View(c, this, k), ok) == S.CloseSecrets(old(View(c, this, k)), l)
    {
      hide S.UnmountFileSystem;
      secretsOpen := false;
      ok := c.UnmountFileSystem(this, l, k);
    }

    method OpenCredentialsSystem(c: CryptoManager, metaOpens: bool, l: S.Luck, ghost k: KeyHandler) returns (ok: bool)
      modifies this, c
      ensures (View(c, this, k), ok) == S.OpenSystem(old(View(c, this, k)), metaOpens, l)
    {
      hide S.MountFileSystem;
      dbPresent, cached := true, false;
      if !metaOpens {
        return false;
      }
      systemOpened := true;
      if c.fileSystemIsMounted {
        var _ := OpenSecretsDB(c, l);
      } else {
        var _ := c.MountFileSystem(this, l, k);
      }
      return true;
    }

    method CloseCredentialsSystem(c: CryptoManager, l: S.Luck, ghost k: KeyHandler) returns (allClosed: bool)
      modifies this, c
      ensures (View(c, this, k), allClosed) == S.CloseSystem(old(View(c, this, k)), l)
    {
      hide S.CloseSecrets;
      if !systemOpened {
        return true;
      }
      allClosed := true;
      if secretsOpen {
        allClosed := CloseSecretsDB(c, l, k);
      }
      dbPresent, cached := false, false;
      systemOpened := false;
    }

    /** The database object is dereferenced. */
    method OnLastAuthorizedKeyRemoved(c: CryptoManager, l: S.Luck, ghost k: KeyHandler)
      requires dbPresent
      modifies this, c
      ensures View(c, this, k) == if old(secretsOpen || c.fileSystemIsMounted)
                                  then S.CloseSecrets(old(View(c, this, k)), l).0 else old(View(c, this, k))
    {
      hide S.CloseSecrets;
      if secretsOpen || c.fileSystemIsMounted {
        var _ := CloseSecretsDB(c, l, k);
      }
    }
  }

  class KeyHandler {
    var insertedKeys: set<S.Key>
    var authorizedKeys: set<S.Key>

    constructor ()
      ensures insertedKeys == {} && authorizedKeys == {}
    {
      insertedKeys, authorizedKeys := {}, {};
    }

    method EnsureMounted(c: CryptoManager, m: AccessManager, pick: S.Key, l: S.Luck) returns (ok: bool)
      modifies c, m
      ensures (View(c, m, this), ok) == S.EnsureMounted(old(View(c, m, this)), pick, l)
    {
      hide S.MountFileSystem;
      ok := true;
      if !c.fileSystemIsMounted {
        c.SetEncryptionKey(pick);
        ok := c.MountFileSystem(m, l, this);
      }
    }

    method FormatWithKey(c: CryptoManager, m: AccessManager, key: S.Key, l: S.Luck) returns (ok: bool)
      modifies this, c, m
      ensures (View(c, m, this), ok)
           == S.SetupFileSystem(S.SetEncryptionKey(old(View(c, m, this)).(authorized := {}), key), l)
    {
      hide S.SetupFileSystem;
      authorizedKeys := {};
      c.SetEncryptionKey(key);
      ok := c.SetupFileSystem(m, l, this);
    }

    method AuthorizeKey(c: CryptoManager, m: AccessManager, key: S.Key, format: bool, pick: S.Key, l: S.Luck)
      returns (ok: bool)
      modifies this, c, m
      ensures (View(c, m, this), ok) == S.AuthorizeKey(old(View(c, m, this)), key, format, pick, l)
    {
      hide S.SetupFileSystem, S.EnsureMounted, S.AddEncryptionKey, S.SetEncryptionKey;
      if key in authorizedKeys {
        return true;
      }
      if !c.fileSystemIsSetup || format {
        ok := FormatWithKey(c, m, key, l);
        if !ok {
          return;
        }
      } else {
        if authorizedKeys == {} {
          return false;
        }
        ok := EnsureMounted(c, m, pick, l);
        if !ok {
          return;
        }
        ok := c.AddEncryptionKey(key, pick, l, m, this);
        if !ok {
          return;
        }
      }
      authorizedKeys := authorizedKeys + {key};
    }

    method RevokeKeyAuthorization(c: CryptoManager, m: AccessManager, key: S.Key, pick: S.Key, l: S.Luck)
      returns (ok: bool)
      requires S.NoDuplicateKeys(c.keychain)
      modifies this, c, m
      ensures (View(c, m, this), ok) == S.RevokeKey(old(View(c, m, this)), key, pick, l)
    {
      if !c.fileSystemIsSetup || authorizedKeys == {} {
        return false;
      }
      S.MountKeepsNoDuplicates(S.SetEncryptionKey(View(c, m, this), pick), l);
      assert S.NoDuplicateKeys(S.EnsureMounted(View(c, m, this), pick, l).0.keychain);
      hide S.EnsureMounted, S.RemoveEncryptionKey;
      ok := EnsureMounted(c, m, pick, l);
      if !ok {
        return;
      }
      ok := c.RemoveEncryptionKey(key, l, m, this);
      if !ok {
        return;
      }
      authorizedKeys := authorizedKeys - {key};
    }

    method OnKeyInserted(c: CryptoManager, m: AccessManager, key: S.Key, l: S.Luck)
      modifies this, c, m
      ensures View(c, m, this) == S.OnKeyInserted(old(View(c, m, this)), key, l)
    {
      hide S.EncryptionKeyInUse;
      if key == "" {
        return;
      }
      insertedKeys := insertedKeys + {key};
      if c.fileSystemIsSetup {
        var used := c.EncryptionKeyInUse(m, key, l, this);
        if used {
          authorizedKeys := authorizedKeys + {key};
        }
      }
    }

    method OnKeyDisabled(c: CryptoManager, m: AccessManager, key: S.Key, l: S.Luck)
      requires S.IsLastAuthorized(View(c, m, this), key) ==> m.dbPresent
      modifies this, c, m
      ensures View(c, m, this) == S.OnKeyDisabled(old(View(c, m, this)), key, l)
    {
      hide S.CloseSecrets;
      insertedKeys := insertedKeys - {key};
      if insertedKeys * authorizedKeys == {} && key in authorizedKeys {
        m.OnLastAuthorizedKeyRemoved(c, l, this);
      }
    }
  }

  /** Delivering an event that can happen to the three objects is one step of the storage.  It
      keeps the keychain free of duplicates, and the invariant unless it revokes the key that
      the volume is mounted with, so the theorems about runs are about these fields. */
  method Deliver(c: CryptoManager, m: AccessManager, k: KeyHandler, e: S.Event, l: S.Luck)
    requires S.Enabled(View(c, m, k), e) && S.NoDuplicateKeys(c.keychain)
    modifies c, m, k
    ensures View(c, m, k) == S.Step(old(View(c, m, k)), e, l)
    ensures S.NoDuplicateKeys(c.keychain)
    ensures old(S.Inv(View(c, m, k)) && S.Safe(View(c, m, k), e, l)) ==> S.Inv(View(c, m, k))
  {
    hide S.NoDuplicateKeys, S.Inv, S.Safe, S.OnKeyInserted, S.OnKeyDisabled, S.AuthorizeKey, S.RevokeKey;
    hide S.OpenSystem, S.CloseSystem;
    Keychain.StepKeepsNoDuplicates(View(c, m, k), e, l);
    if S.Inv(View(c, m, k)) && S.Safe(View(c, m, k), e, l) {
      S.StepKeepsInv(View(c, m, k), e, l);
    }
    match e
    case Insert(key) => k.OnKeyInserted(c, m, key, l);
    case Disable(key) => k.OnKeyDisabled(c, m, key, l);
    case Authorize(key, format, pick) => var _ := k.AuthorizeKey(c, m, key, format, pick, l);
    case Revoke(key, pick) => var _ := k.RevokeKeyAuthorization(c, m, key, pick, l);
    case Open(meta) => var _ := m.OpenCredentialsSystem(c, meta, l, k);
    case Close => var _ := m.CloseCredentialsSystem(c, l, k);
  }
}
