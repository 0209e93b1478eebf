/**
 Giving the volume up: it is unmounted by losing the last key and by closing the system, and in
 every run what was acquired and not released is exactly what a mounted volume holds.
 */
module Unmounting {
  import opened Wrappers
  import opened SecureStorage
  import Flags = MountedSecrets

  // ------------------------------------------------------------ What gives it up

  const GIVEN_UP := [Release(Mount), Release(Luks), Release(Loop)]

  /** Losing a key: the last authorized one takes the mounted volume with it, its resources released
      in reverse order; any other leaves volume and database alone. */
  lemma {:induction false} KeyLossUnmountsExactly(s: Sys, key: Key, l: Luck)
    requires Inv(s)
    ensures var t := OnKeyDisabled(s, key, l);
      && t.inserted == s.inserted - {key} && t.authorized == s.authorized
      && t.slots == s.slots && t.keychain == s.keychain
      && if key in s.authorized && forall k <- s.inserted :: k in s.authorized ==> k == key
         then && !t.mounted && t.state == Unmounted && !t.secretsOpen
              && t.log == s.log + if s.mounted then GIVEN_UP else []
         else t.mounted == s.mounted && t.state == s.state && t.secretsOpen == s.secretsOpen && t.log == s.log
  {
    var s1 := s.(inserted := s.inserted - {key}, secretsOpen := false);
    UnmountIs(s1, l);
    LastMeans(s, key);
    assert Releases(Mounted) == GIVEN_UP;
    assert s.log + [] == s.log;
    hide UnmountFileSystem, IsLastAuthorized;
  }

  lemma LastMeans(s: Sys, key: Key)
    ensures IsLastAuthorized(s, key) <==> key in s.authorized && forall k <- s.inserted :: k in s.authorized ==> k == key
  {
    if forall k <- s.inserted :: k in s.authorized ==> k == key {
      assert (s.inserted - {key}) * s.authorized == {};
    } else {
      var k :| k in s.inserted && k in s.authorized && k != key;
      assert k in (s.inserted - {key}) * s.authorized;
    }
  }

  /** Closing the system gives the volume up exactly when the secrets database is open, and answers
      whether its last two releases worked. */
  lemma {:induction false} CloseUnmountsExactly(s: Sys, l: Luck)
    requires Inv(s)
    ensures var (t, ok) := CloseSystem(s, l);
      && !t.systemOpened && !t.secretsOpen
      && if s.secretsOpen
         then && !t.mounted && t.state == Unmounted && t.log == s.log + GIVEN_UP
              && (ok <==> l.luksClose && l.loopRelease)
         else t.mounted == s.mounted && t.state == s.state && t.log == s.log && ok
  {
    var s1 := s.(secretsOpen := false);
    UnmountIs(s1, l);
    UnmountAlwaysUnmounts(s1, l);
    assert Releases(Mounted) == GIVEN_UP;
    hide UnmountFileSystem;
  }

  // ------------------------------------------------------ What a log leaves in hand

  /** The resources in hand after a log, last acquired last; None when it releases another one than
      that. */
  function Holds(hand: seq<Resource>, log: seq<Act>): Option<seq<Resource>>
    decreases |log|
  {
    if log == [] then Some(hand)
    else
      match log[0]
      case Acquire(r) => Holds(hand + [r], log[1..])
      case Release(r) =>
        if hand != [] && hand[|hand| - 1] == r then Holds(hand[..|hand| - 1], log[1..]) else None
  }

  lemma {:induction false} HoldsThen(hand: seq<Resource>, a: seq<Act>, b: seq<Act>)
    ensures Holds(hand, a + b) == match Holds(hand, a) case None => None case Some(h) => Holds(h, b)
    decreases |a|
  {
    if a == [] {
      assert a + b == b;
    } else {
      assert (a + b)[1..] == a[1..] + b;
      match a[0]
      case Acquire(r) => HoldsThen(hand + [r], a[1..], b);
      case Release(r) =>
        if hand != [] && hand[|hand| - 1] == r {
          HoldsThen(hand[..|hand| - 1], a[1..], b);
        }
    }
  }

  const VOLUME := [Loop, Luks, Mount]

  lemma {:induction false} HoldsOne(hand: seq<Resource>, act: Act, rest: seq<Act>)
    ensures Holds(hand, [act] + rest) == match act
      case Acquire(r) => Holds(hand + [r], rest)
      case Release(r) => if hand != [] && hand[|hand| - 1] == r then Holds(hand[..|hand| - 1], rest) else None
  {
    assert ([act] + rest)[1..] == rest;
  }

  lemma AllIsHeld()
    ensures Holds([], ALL) == Some(VOLUME)
  {
    assert ALL == [Acquire(Loop)] + ([Acquire(Luks)] + ([Acquire(Mount)] + []));
    HoldsOne([], Acquire(Loop), [Acquire(Luks)] + ([Acquire(Mount)] + []));
    HoldsOne([Loop], Acquire(Luks), [Acquire(Mount)] + []);
    HoldsOne([Loop, Luks], Acquire(Mount), []);
    assert [] + [Loop] == [Loop] && [Loop] + [Luks] == [Loop, Luks] && [Loop, Luks] + [Mount] == VOLUME;
    assert Holds(VOLUME, []) == Some(VOLUME);
    hide Holds;
  }

  lemma GivenUpIsReleased()
    ensures Holds(VOLUME, GIVEN_UP) == Some([])
  {
    assert GIVEN_UP == [Release(Mount)] + ([Release(Luks)] + ([Release(Loop)] + []));
    HoldsOne(VOLUME, Release(Mount), [Release(Luks)] + ([Release(Loop)] + []));
    HoldsOne([Loop, Luks], Release(Luks), [Release(Loop)] + []);
    HoldsOne([Loop], Release(Loop), []);
    assert VOLUME[..2] == [Loop, Luks] && [Loop, Luks][..1] == [Loop] && [Loop][..0] == [];
    assert Holds([], []) == Some([]);
    hide Holds;
  }

  lemma UndoneIsReleased(n: nat)
    ensures Holds([], Undone(n)) == Some([])
  {
    assert Holds([], []) == Some([]);
    assert [] + [Loop] == [Loop] && [Loop][..0] == [] && [Loop] + [Luks] == [Loop, Luks] && [Loop, Luks][..1] == [Loop];
    HoldsOne([], Acquire(Loop), [Release(Loop)] + []);
    HoldsOne([Loop], Release(Loop), []);
    assert Undone(1) == [Acquire(Loop)] + ([Release(Loop)] + []);
    var rest := [Release(Luks)] + ([Release(Loop)] + []);
    HoldsOne([], Acquire(Loop), [Acquire(Luks)] + rest);
    HoldsOne([Loop], Acquire(Luks), rest);
    HoldsOne([Loop, Luks], Release(Luks), [Release(Loop)] + []);
    assert Undone(2) == [Acquire(Loop)] + ([Acquire(Luks)] + rest);
    assert n > 2 ==> Undone(n) == Undone(2);
    hide Holds;
  }

  // ------------------------------------------------------------- Over every run

  /** A mounted volume holds its three resources, an unmounted one none. */
  ghost predicate HoldInv(s: Sys) {
    Holds([], s.log) == Some(if s.mounted then VOLUME else [])
  }

  /** An event mounts, tries to and undoes it, gives the volume up, or does none of these. */
  ghost predicate LogMoves(s: Sys, t: Sys) {
    || (t.mounted == s.mounted && t.log == s.log)
    || (!s.mounted && !t.mounted && exists n: nat :: t.log == s.log + Undone(n))
    || (!s.mounted && t.mounted && t.log == s.log + ALL)
    || (s.mounted && !t.mounted && t.log == s.log + GIVEN_UP)
  }

  lemma MoveKeepsHold(s: Sys, t: Sys)
    requires HoldInv(s) && LogMoves(s, t)
    ensures HoldInv(t)
  {
    if !s.mounted && t.mounted {
      AllIsHeld();
      HoldsThen([], s.log, ALL);
    } else if s.mounted && !t.mounted {
      GivenUpIsReleased();
      HoldsThen([], s.log, GIVEN_UP);
    } else if t.log != s.log {
      var n: nat :| t.log == s.log + Undone(n);
      UndoneIsReleased(n);
      HoldsThen([], s.log, Undone(n));
    }
    hide Holds, Undone;
  }

  lemma MountLogs(s: Sys, l: Luck)
    requires MountInv(s)
    ensures LogMoves(s, MountFileSystem(s, l).0)
  {
    MountIsAllOrNothing(s, l);
    hide MountFileSystem, MountSucceeds, MountProgress, Undone;
  }

  lemma SetupLogs(s: Sys, l: Luck)
    requires MountInv(s)
    ensures LogMoves(s, SetupFileSystem(s, l).0)
  {
    SetupIsAllOrNothing(s, l);
    SetupWhileMounted(s, l);
    hide SetupFileSystem, SetupSucceeds, Undone;
  }

  lemma SetupWhileMounted(s: Sys, l: Luck)
    requires MountInv(s)
    ensures s.mounted ==> SetupFileSystem(s, l).0 == s
  {
    hide FormatAndMount, Abort, SetupLoop;
  }

  /** The same but for keys, flags of the database and who is there. */
  predicate SameVolume(s: Sys, t: Sys) {
    t.mounted == s.mounted && t.log == s.log
  }

  lemma SameVolumeLogs(s: Sys, s': Sys, t: Sys, t': Sys)
    requires SameVolume(s, s') && SameVolume(t, t') && LogMoves(s', t)
    ensures LogMoves(s, t')
  {
    hide Undone;
  }

  lemma EnsureLogs(s: Sys, pick: Key, l: Luck)
    requires MountInv(s)
    ensures LogMoves(s, EnsureMounted(s, pick, l).0)
  {
    var s' := SetEncryptionKey(s, pick);
    MountLogs(s', l);
    var t := MountFileSystem(s', l).0;
    hide MountFileSystem, LogMoves;
    SameVolumeLogs(s, s', t, t);
    assert LogMoves(s, s) by { StaysLogs(s, s); }
  }

  lemma StaysLogs(s: Sys, t: Sys)
    requires SameVolume(s, t)
    ensures LogMoves(s, t)
  {
  }

  lemma FormatLogs(s: Sys, key: Key, l: Luck)
    requires MountInv(s)
    ensures var t := SetupFileSystem(SetEncryptionKey(s.(authorized := {}), key), l).0;
      LogMoves(s, t) && LogMoves(s, t.(authorized := t.authorized + {key}))
  {
    var s' := SetEncryptionKey(s.(authorized := {}), key);
    var t := SetupFileSystem(s', l).0;
    SetupLogs(s', l);
    hide SetupFileSystem, LogMoves;
    SameVolumeLogs(s, s', t, t);
    SameVolumeLogs(s, s', t, t.(authorized := t.authorized + {key}));
  }

  lemma AddChangesKeys(s: Sys, key: Key, existing: Key, l: Luck)
    ensures var t := AddEncryptionKey(s, key, existing, l).0;
      SameVolume(s, t) && SameVolume(s, t.(authorized := t.authorized + {key}))
  {
    hide AddToKeychain;
  }

  lemma AddLogs(s: Sys, key: Key, pick: Key, l: Luck)
    requires MountInv(s)
    ensures var u := EnsureMounted(s, pick, l).0;
      var t := AddEncryptionKey(u, key, pick, l).0;
      LogMoves(s, u) && LogMoves(s, t) && LogMoves(s, t.(authorized := t.authorized + {key}))
  {
    hide EnsureMounted, AddEncryptionKey, LogMoves, SameVolume, MountInv;
    EnsureLogs(s, pick, l);
    var u := EnsureMounted(s, pick, l).0;
    var t := AddEncryptionKey(u, key, pick, l).0;
    AddChangesKeys(u, key, pick, l);
    SameItself(s);
    SameVolumeLogs(s, s, u, t);
    SameVolumeLogs(s, s, u, t.(authorized := t.authorized + {key}));
  }

  lemma SameItself(s: Sys)
    ensures SameVolume(s, s)
  {
  }

  lemma AuthorizeLogs(s: Sys, key: Key, format: bool, pick: Key, l: Luck)
    requires MountInv(s)
    ensures LogMoves(s, AuthorizeKey(s, key, format, pick, l).0)
  {
    StaysLogs(s, s);
    hide SetupFileSystem, SetEncryptionKey, EnsureMounted, AddEncryptionKey, LogMoves, MountInv;
    FormatLogs(s, key, l);
    AddLogs(s, key, pick, l);
  }

  lemma RemoveChangesKeys(s: Sys, key: Key, l: Luck)
    ensures var t := RemoveEncryptionKey(s, key, l).0;
      SameVolume(s, t) && SameVolume(s, t.(authorized := t.authorized - {key}))
  {
    hide RemoveFromKeychain;
  }

  lemma RevokeLogs(s: Sys, key: Key, pick: Key, l: Luck)
    requires MountInv(s)
    ensures LogMoves(s, RevokeKey(s, key, pick, l).0)
  {
    StaysLogs(s, s);
    hide EnsureMounted, RemoveEncryptionKey, LogMoves, SameVolume, MountInv;
    EnsureLogs(s, pick, l);
    var u := EnsureMounted(s, pick, l).0;
    var t := RemoveEncryptionKey(u, key, l).0;
    RemoveChangesKeys(u, key, l);
    SameItself(s);
    SameVolumeLogs(s, s, u, t);
    SameVolumeLogs(s, s, u, t.(authorized := t.authorized - {key}));
  }

  lemma InsertLogs(s: Sys, key: Key, l: Luck)
    requires MountInv(s)
    ensures LogMoves(s, OnKeyInserted(s, key, l))
  {
    var s1 := s.(inserted := s.inserted + {key});
    var s' := SetEncryptionKey(s1, key);
    var t := MountFileSystem(s', l).0;
    MountLogs(s', l);
    StaysLogs(s, s);
    StaysLogs(s, s1);
    StaysLogs(s, s1.(authorized := s1.authorized + {key}));
    hide MountFileSystem, LogMoves;
    SameVolumeLogs(s, s', t, t);
    SameVolumeLogs(s, s', t, t.(authorized := t.authorized + {key}));
  }

  lemma OpenLogs(s: Sys, meta: bool, l: Luck)
    requires MountInv(s)
    ensures LogMoves(s, OpenSystem(s, meta, l).0)
  {
    var s1 := s.(dbPresent := true, cached := false);
    var s2 := s1.(systemOpened := true);
    var t := MountFileSystem(s2, l).0;
    MountLogs(s2, l);
    StaysLogs(s, s1);
    StaysLogs(s, OpenSecrets(s2, l));
    hide MountFileSystem, LogMoves;
    SameVolumeLogs(s, s2, t, t);
  }

  lemma DisableLogs(s: Sys, key: Key, l: Luck)
    requires MountInv(s) && OpenInv(s)
    ensures LogMoves(s, OnKeyDisabled(s, key, l))
  {
    UnmountIs(s.(inserted := s.inserted - {key}, secretsOpen := false), l);
    assert Releases(Mounted) == GIVEN_UP;
    hide UnmountFileSystem, IsLastAuthorized, Undone;
  }

  lemma CloseLogs(s: Sys, l: Luck)
    requires MountInv(s) && OpenInv(s)
    ensures LogMoves(s, CloseSystem(s, l).0)
  {
    UnmountIs(s.(secretsOpen := false), l);
    assert Releases(Mounted) == GIVEN_UP;
    hide UnmountFileSystem, Undone;
  }

  lemma StepLogs(s: Sys, e: Event, l: Luck)
    requires MountInv(s) && OpenInv(s)
    ensures LogMoves(s, Step(s, e, l)) && MountInv(Step(s, e, l)) && OpenInv(Step(s, e, l))
  {
    hide OnKeyInserted, OnKeyDisabled, AuthorizeKey, RevokeKey, OpenSystem, CloseSystem, LogMoves, MountInv, OpenInv;
    match e
    case Insert(key) => InsertLogs(s, key, l); Flags.InsertFollows(s, key, l);
    case Disable(key) => DisableLogs(s, key, l); Flags.DisableCloses(s, key, l);
    case Authorize(key, format, pick) =>
      AuthorizeLogs(s, key, format, pick, l);
      Flags.AuthorizeFollows(s, key, format, pick, l);
    case Revoke(key, pick) => RevokeLogs(s, key, pick, l); Flags.RevokeFollows(s, key, pick, l);
    case Open(meta) => OpenLogs(s, meta, l); Flags.OpenOpens(s, meta, l);
    case Close => CloseLogs(s, l); Flags.CloseCloses(s, l);
  }

  /** In every run, safe or not: what was acquired and not released since is, in order, loop device,
      LUKS mapping and mount while the volume is mounted, and nothing while it is not; and each
      release was of the resource acquired last. */
  lemma {:induction false} RunHolds(s: Sys, es: Script, t: Sys)
    requires Started(s) && Exec(s, es) == Some(t)
    ensures Holds([], t.log) == Some(if t.mounted then VOLUME else [])
    ensures MountInv(t) && OpenInv(t)
    decreases |es|
  {
    assert es == [] ==> HoldInv(t);
    hide Step, Enabled, Holds, LogMoves;
    if es != [] {
      var u := Exec(s, es[..|es| - 1]).value;
      RunHolds(s, es[..|es| - 1], u);
      StepLogs(u, es[|es| - 1].0, es[|es| - 1].1);
      MoveKeepsHold(u, t);
    }
  }

  /** In every run that ends with the loss of an authorized key and leaves no other inserted, the
      volume is not mounted, and nothing of it is held. */
  lemma {:induction false} LastKeyGone(s: Sys, es: Script, t: Sys)
    requires Started(s) && Exec(s, es) == Some(t) && es != [] && es[|es| - 1].0.Disable?
    requires es[|es| - 1].0.key in t.authorized && t.inserted * t.authorized == {}
    ensures !t.mounted && t.state == Unmounted && !t.secretsOpen && Holds([], t.log) == Some([])
  {
    var u := Exec(s, es[..|es| - 1]).value;
    RunHolds(s, es, t);
    RunHolds(s, es[..|es| - 1], u);
    hide Exec, Holds, OnKeyDisabled;
    DisableUnmounts(u, es[|es| - 1].0.key, es[|es| - 1].1);
  }

  lemma DisableUnmounts(s: Sys, key: Key, l: Luck)
    requires MountInv(s) && OpenInv(s)
    ensures var t := OnKeyDisabled(s, key, l);
      key in t.authorized && t.inserted * t.authorized == {} ==> !t.mounted && t.state == Unmounted && !t.secretsOpen
  {
    UnmountIs(s.(inserted := s.inserted - {key}, secretsOpen := false), l);
    hide UnmountFileSystem;
  }
}
