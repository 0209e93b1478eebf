/**
 When a key gives access to the volume: when inserting, authorizing and revoking one succeeds,
 and what it leaves in the slots, in the keychain and among the authorized keys.
 */
module KeyAccess {
  import opened Wrappers
  import opened SecureStorage

  /** The volume can be mounted with the key. */
  predicate Opens(s: Sys, key: Key, l: Luck) {
    key != "" && key in s.slots && l.dmMod && l.loopDevice && l.losetup && l.luksOpen && l.mkdir
  }

  /** It can be set up anew. */
  predicate CanFormat(key: Key, l: Luck) {
    && key != "" && l.dmMod && l.loopDevice && l.partition && l.losetup
    && l.format && l.luksOpen && l.mkfs && l.mkdir
  }

  /** Mounted with the key, or just known on a mounted volume. */
  ghost predicate Recognized(s: Sys, key: Key) {
    s.encryptionKey == key || key in s.keychain.Values
  }

  lemma MountWithKey(s: Sys, key: Key, l: Luck)
    requires Inv(s) && !s.mounted
    ensures var (t, ok) := MountFileSystem(SetEncryptionKey(s, key), l);
      && (ok <==> Opens(s, key, l)) && t.mounted == ok
      && t.slots == s.slots && t.authorized == s.authorized && t.inserted == s.inserted && t.encryptionKey == key
      && t.isSetup == s.isSetup
      && t.keychain == (if ok then AddToKeychain(s.keychain, key) else s.keychain)
  {
    MountIs(SetEncryptionKey(s, key), l);
    hide MountFileSystem, AddToKeychain, KeyInv, OpenInv;
  }

  /** An inserted key is authorized exactly when it opens the volume or, if that is mounted already,
      is the one it is mounted with or known to the keychain; and it leaves the slots alone. */
  lemma {:induction false} InsertExactly(s: Sys, key: Key, l: Luck)
    requires Inv(s) && key != ""
    ensures var t := OnKeyInserted(s, key, l);
      var accepted := s.isSetup && if s.mounted then Recognized(s, key) else Opens(s, key, l);
      && t.inserted == s.inserted + {key} && t.slots == s.slots
      && t.authorized == (if accepted then s.authorized + {key} else s.authorized)
      && (t.mounted <==> s.mounted || accepted)
  {
    if !s.mounted {
      var s1 := s.(inserted := s.inserted + {key});
      assert Inv(s1);
      MountWithKey(s1, key, l);
    }
    hide MountFileSystem, Inv;
  }

  lemma SetupWithKey(s: Sys, key: Key, l: Luck)
    requires Inv(s)
    ensures var (t, ok) := SetupFileSystem(SetEncryptionKey(s.(authorized := {}), key), l);
      && (ok <==> !s.mounted && CanFormat(key, l)) && t.authorized == {} && t.inserted == s.inserted
      && (ok ==> t.mounted && t.slots == multiset{key} && t.keychain == map[1 := key] && t.encryptionKey == key)
      && (ok ==> key in t.keychain.Values)
  {
    var s0 := SetEncryptionKey(s.(authorized := {}), key);
    SetupIs(s0, l);
    SetupIsAllOrNothing(s0, l);
    var only: map<nat, Key> := map[1 := key];
    assert only[1] in only.Values;
    hide SetupFileSystem, KeyInv, OpenInv, AddToKeychain;
  }

  lemma AddToMounted(s: Sys, key: Key, existing: Key, l: Luck)
    requires Inv(s) && s.mounted && existing in s.slots
    ensures var (t, ok) := AddEncryptionKey(s, key, existing, l);
      && (ok <==> l.addSlot) && t.mounted && t.authorized == s.authorized && t.inserted == s.inserted
      && t.encryptionKey == s.encryptionKey
      && t.slots == (if ok then s.slots + multiset{key} else s.slots)
      && (ok ==> key in t.keychain.Values)
  {
    var kc := AddToKeychain(s.keychain, key);
    assert key in kc.Values by {
      if key !in s.keychain.Values {
        assert kc[|s.keychain| + 1] == key;
      }
    }
    hide AddToKeychain;
  }

  lemma EnsureIs(s: Sys, pick: Key, l: Luck)
    requires Inv(s) && pick in s.authorized
    ensures var (t, ok) := EnsureMounted(s, pick, l);
      && Inv(t) && (ok <==> s.mounted || Opens(s, pick, l)) && t.mounted == ok
      && t.slots == s.slots && t.authorized == s.authorized && t.inserted == s.inserted
  {
    EnsureMountedKeepsInv(s, pick, l);
    if !s.mounted {
      MountWithKey(s, pick, l);
    }
    hide MountFileSystem, Inv, Opens;
  }

  /** Authorizing succeeds exactly for a key that is authorized already; for one that can be made the
      only key of a volume set up anew; or where another authorized key opens the volume and a slot
      can be added.  Then the key has a slot and is in the keychain, so that it is recognized when it
      comes again; before a volume is set up anew, all keys are forgotten, even if that fails. */
  lemma {:induction false} AuthorizeExactly(s: Sys, key: Key, format: bool, pick: Key, l: Luck)
    requires Inv(s) && (s.authorized != {} ==> pick in s.authorized)
    ensures var (t, ok) := AuthorizeKey(s, key, format, pick, l);
      if key in s.authorized then ok && t == s
      else
        var anew := !s.isSetup || format;
        && (ok <==> if anew then !s.mounted && CanFormat(key, l)
                    else s.authorized != {} && (s.mounted || Opens(s, pick, l)) && l.addSlot)
        && (ok ==> t.mounted && key in t.keychain.Values
                   && t.slots == (if anew then multiset{key} else s.slots + multiset{key}))
        && t.authorized == (if anew then {} else s.authorized) + (if ok then {key} else {})
        && t.inserted == s.inserted
  {
    hide SetupFileSystem, EnsureMounted, AddEncryptionKey, Inv, Opens, CanFormat;
    if key !in s.authorized {
      if !s.isSetup || format {
        SetupWithKey(s, key, l);
      } else if s.authorized != {} {
        EnsureIs(s, pick, l);
        var u := EnsureMounted(s, pick, l).0;
        if u.mounted {
          PickedHasSlot(u, pick);
          AddToMounted(u, key, pick, l);
        }
      }
    }
  }

  lemma PickedHasSlot(s: Sys, pick: Key)
    requires Inv(s) && pick in s.authorized
    ensures pick in s.slots
  {
  }

  /** Revoking succeeds exactly when a key is authorized and the volume is mounted or opens with the one
      picked; the key is then no longer authorized, and loses a slot exactly when one is released. */
  lemma {:induction false} RevokeExactly(s: Sys, key: Key, pick: Key, l: Luck)
    requires Inv(s) && (s.authorized != {} ==> pick in s.authorized)
    ensures var (t, ok) := RevokeKey(s, key, pick, l);
      && (ok <==> s.isSetup && s.authorized != {} && (s.mounted || Opens(s, pick, l)))
      && t.authorized == (if ok then s.authorized - {key} else s.authorized)
      && t.slots == (if ok && l.removeSlot then s.slots - multiset{key} else s.slots)
      && (ok ==> t.mounted) && t.inserted == s.inserted
  {
    if s.authorized != {} {
      EnsureIs(s, pick, l);
      var u := EnsureMounted(s, pick, l).0;
      assert u.mounted ==> u.state == Mounted;
      assert key !in s.slots ==> s.slots - multiset{key} == s.slots;
    }
    hide EnsureMounted, RemoveFromKeychain, Inv, Opens;
  }

  /** Opening the system succeeds exactly when the metadata database opens, and then mounts the volume
      if it can; no key is needed from anyone but the one remembered. */
  lemma {:induction false} OpenExactly(s: Sys, meta: bool, l: Luck)
    requires Inv(s)
    ensures var (t, ok) := OpenSystem(s, meta, l);
      && ok == meta && t.dbPresent
      && (t.mounted <==> s.mounted || (meta && Opens(s, s.encryptionKey, l)))
      && t.slots == s.slots && t.authorized == s.authorized && t.inserted == s.inserted
  {
    if !s.mounted {
      var s2 := s.(dbPresent := true, cached := false, systemOpened := true);
      assert Inv(s2);
      MountWithKey(s2, s.encryptionKey, l);
      assert SetEncryptionKey(s2, s.encryptionKey) == s2;
    }
    hide MountFileSystem, Inv, Opens;
  }
}
