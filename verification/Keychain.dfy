/**
 The keychain file over every event: it never lists a key twice, so that removing the first
 match removes the key.
 */
module Keychain {
  import opened SecureStorage

  lemma UnmountKeepsKeychain(s: Sys, l: Luck)
    ensures UnmountFileSystem(s, l).0.keychain == s.keychain
  {
    hide UpdateMountState, OnMounted;
  }

  lemma MountDeviceKeepsNoDuplicates(s: Sys, l: Luck)
    requires NoDuplicateKeys(s.keychain)
    ensures NoDuplicateKeys(MountDevice(s, l).0.keychain)
  {
    AddKeepsKeychain(s.keychain, s.encryptionKey);
    hide NoDuplicateKeys, AddToKeychain, UpdateMountState, Abort;
  }

  lemma SetupKeepsNoDuplicates(s: Sys, l: Luck)
    requires NoDuplicateKeys(s.keychain)
    ensures NoDuplicateKeys(SetupFileSystem(s, l).0.keychain)
  {
    hide UpdateMountState, Abort, MountDevice, FormatAndMount, CanBegin;
    FormatKeepsNoDuplicates(SetupLoop(s.(isSetup := true), l), l);
  }

  lemma FormatKeepsNoDuplicates(s: Sys, l: Luck)
    requires NoDuplicateKeys(s.keychain)
    ensures NoDuplicateKeys(FormatAndMount(s, l).0.keychain)
  {
    hide UpdateMountState, Abort, MountDevice;
    var (s2, formatted) := FormatLuks(s, l);
    MountDeviceKeepsNoDuplicates(OpenLuks(s2, l).0, l);
  }

  lemma EnsureMountedKeepsNoDuplicates(s: Sys, pick: Key, l: Luck)
    requires NoDuplicateKeys(s.keychain)
    ensures NoDuplicateKeys(EnsureMounted(s, pick, l).0.keychain)
  {
    MountKeepsNoDuplicates(SetEncryptionKey(s, pick), l);
    hide MountFileSystem;
  }

  lemma AuthorizeKeepsNoDuplicates(s: Sys, key: Key, format: bool, pick: Key, l: Luck)
    requires NoDuplicateKeys(s.keychain)
    ensures NoDuplicateKeys(AuthorizeKey(s, key, format, pick, l).0.keychain)
  {
    hide SetupFileSystem, EnsureMounted, NoDuplicateKeys, AddToKeychain;
    SetupKeepsNoDuplicates(SetEncryptionKey(s.(authorized := {}), key), l);
    EnsureMountedKeepsNoDuplicates(s, pick, l);
    AddKeepsKeychain(EnsureMounted(s, pick, l).0.keychain, key);
  }

  lemma RemoveKeepsNoDuplicates(kc: map<nat, Key>, key: Key)
    requires NoDuplicateKeys(kc)
    ensures NoDuplicateKeys(RemoveFromKeychain(kc, key))
  {
  }

  lemma RevokeKeepsNoDuplicates(s: Sys, key: Key, pick: Key, l: Luck)
    requires NoDuplicateKeys(s.keychain)
    ensures NoDuplicateKeys(RevokeKey(s, key, pick, l).0.keychain)
  {
    EnsureMountedKeepsNoDuplicates(s, pick, l);
    RemoveKeepsNoDuplicates(EnsureMounted(s, pick, l).0.keychain, key);
    hide EnsureMounted, RemoveFromKeychain, NoDuplicateKeys;
  }

  lemma CloseKeepsKeychain(s: Sys, l: Luck)
    ensures CloseSystem(s, l).0.keychain == s.keychain
  {
    UnmountKeepsKeychain(s.(secretsOpen := false), l);
    hide UnmountFileSystem;
  }

  lemma InsertKeepsNoDuplicates(s: Sys, key: Key, l: Luck)
    requires NoDuplicateKeys(s.keychain)
    ensures NoDuplicateKeys(OnKeyInserted(s, key, l).keychain)
  {
    MountKeepsNoDuplicates(SetEncryptionKey(s.(inserted := s.inserted + {key}), key), l);
    hide NoDuplicateKeys, MountFileSystem;
  }

  lemma DisableKeepsKeychain(s: Sys, key: Key, l: Luck)
    ensures OnKeyDisabled(s, key, l).keychain == s.keychain
  {
    UnmountKeepsKeychain(s.(inserted := s.inserted - {key}, secretsOpen := false), l);
    hide UnmountFileSystem;
  }

  lemma OpenKeepsNoDuplicates(s: Sys, meta: bool, l: Luck)
    requires NoDuplicateKeys(s.keychain)
    ensures NoDuplicateKeys(OpenSystem(s, meta, l).0.keychain)
  {
    MountKeepsNoDuplicates(s.(dbPresent := true, cached := false, systemOpened := true), l);
    hide NoDuplicateKeys, MountFileSystem;
  }

  lemma StepKeepsNoDuplicates(s: Sys, e: Event, l: Luck)
    requires NoDuplicateKeys(s.keychain)
    ensures NoDuplicateKeys(Step(s, e, l).keychain)
  {
    hide NoDuplicateKeys, OnKeyInserted, OnKeyDisabled, AuthorizeKey, RevokeKey, OpenSystem, CloseSystem;
    match e
    case Insert(key) => InsertKeepsNoDuplicates(s, key, l);
    case Disable(key) => DisableKeepsKeychain(s, key, l);
    case Authorize(key, format, pick) => AuthorizeKeepsNoDuplicates(s, key, format, pick, l);
    case Revoke(key, pick) => RevokeKeepsNoDuplicates(s, key, pick, l);
    case Open(meta) => OpenKeepsNoDuplicates(s, meta, l);
    case Close => CloseKeepsKeychain(s, l);
  }
}
