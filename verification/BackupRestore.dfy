/**
 Restoring the storage directory from a backup: files in the way are renamed to ".bak",
 backup files copied in, and on failure everything is undone.
 */
module BackupRestore {

  // ---------------------------------------------------------------- Data model

  /** A directory: file names and contents. */
  type Dir = map<string, string>

  /** Whether the rename and the copy of one file work, when nothing is in their way. */
  datatype Luck = Luck(rename: bool, copy: bool)

  datatype Progress = Progress(dir: Dir, moved: seq<string>, copied: seq<string>, ok: bool)

  function Bak(name: string): string {
    name + ".bak"
  }

  /** A rename needs its source and does not overwrite its target. */
  predicate CanRename(dir: Dir, source: string, target: string) {
    source in dir && target !in dir
  }

  function Rename(dir: Dir, source: string, target: string): Dir {
    if CanRename(dir, source, target) then (dir - {source})[target := dir[source]] else dir
  }

  // ------------------------------------------------------------ The loop, on values

  function MoveAside(p: Progress, name: string, l: Luck): Progress {
    if l.rename && CanRename(p.dir, name, Bak(name)) then
      p.(dir := Rename(p.dir, name, Bak(name)), moved := p.moved + [name])
    else p
  }

  function CopyIn(p: Progress, name: string, backup: Dir, l: Luck): Progress {
    if name !in backup then p
    else if l.copy && name !in p.dir then p.(dir := p.dir[name := backup[name]], copied := p.copied + [name])
    else p.(ok := false)
  }

  function RestoreFiles(dir: Dir, names: seq<string>, backup: Dir, luck: seq<Luck>): Progress
    requires |luck| == |names|
  {
    if names == [] then Progress(dir, [], [], true)
    else
      var n := |names| - 1;
      var p := RestoreFiles(dir, names[..n], backup, luck[..n]);
      if !p.ok then p else CopyIn(MoveAside(p, names[n], luck[n]), names[n], backup, luck[n])
  }

  function RemoveAll(dir: Dir, names: seq<string>): Dir {
    if names == [] then dir else RemoveAll(dir, names[..|names| - 1]) - {names[|names| - 1]}
  }

  function RenameBack(dir: Dir, names: seq<string>): Dir {
    if names == [] then dir
    else
      var name := names[|names| - 1];
      Rename(RenameBack(dir, names[..|names| - 1]), Bak(name), name)
  }

  function Baks(names: seq<string>): seq<string> {
    seq(|names|, i requires 0 <= i < |names| => Bak(names[i]))
  }

  /** The directory afterwards, and the result; clean-up removes and renames work whenever
      they can. */
  function Restore(dir: Dir, names: seq<string>, backup: Dir, luck: seq<Luck>): (r: (Dir, bool))
    requires |luck| == |names|
  {
    var p := RestoreFiles(dir, names, backup, luck);
    if p.ok then (RemoveAll(p.dir, Baks(p.moved)), true)
    else (RenameBack(RemoveAll(p.dir, p.copied), p.moved), false)
  }

  // -------------------------------------------------------------------- Progress

  /** Distinct names, none the ".bak" of another. */
  ghost predicate Clean(names: seq<string>) {
    && (forall i, j :: 0 <= i < j < |names| ==> names[i] != names[j])
    && (forall a, b :: a in names && b in names ==> a != Bak(b))
  }

  /** `f` without its last four letters. */
  function Stem(f: string): string {
    if |f| >= 4 then f[..|f| - 4] else f
  }

  predicate IsBak(f: string, names: seq<string>) {
    f == Bak(Stem(f)) && Stem(f) in names
  }

  lemma StemOfBak(a: string)
    ensures Stem(Bak(a)) == a
  {
    assert Bak(a)[..|a|] == a;
  }

  predicate SameFile(a: Dir, b: Dir, f: string) {
    (f in a <==> f in b) && (f in a ==> a[f] == b[f])
  }

  /** File `f` while the loop runs. */
  predicate FileIs(dir: Dir, p: Progress, backup: Dir, f: string) {
    if f in p.copied then f in backup && f in p.dir && p.dir[f] == backup[f]
    else if f in p.moved then f !in p.dir
    else if IsBak(f, p.moved) then f !in dir && Stem(f) in dir && f in p.dir && p.dir[f] == dir[Stem(f)]
    else SameFile(dir, p.dir, f)
  }

  /** Whether a file in the way is moved aside. */
  predicate Moves(dir: Dir, name: string, l: Luck) {
    l.rename && CanRename(dir, name, Bak(name))
  }

  /** Whether the loop gets past `name`. */
  predicate Passes(dir: Dir, name: string, backup: Dir, l: Luck) {
    name in backup ==> l.copy && (name !in dir || Moves(dir, name, l))
  }

  ghost predicate ListsOk(dir: Dir, p: Progress, backup: Dir, names: seq<string>) {
    && (forall f <- p.moved :: f in names && f in dir)
    && (forall f <- p.copied :: f in names && (f in p.moved || f !in dir))
    && (forall i, j :: 0 <= i < j < |p.moved| ==> p.moved[i] != p.moved[j])
    && (p.ok ==> forall f <- names :: f in backup ==> f in p.copied)
  }

  ghost predicate LuckOk(dir: Dir, p: Progress, backup: Dir, names: seq<string>, luck: seq<Luck>)
    requires |luck| == |names|
  {
    && (p.ok <==> forall i :: 0 <= i < |names| ==> Passes(dir, names[i], backup, luck[i]))
    && (p.ok ==> forall i :: 0 <= i < |names| ==> (names[i] in p.moved <==> Moves(dir, names[i], luck[i])))
  }

  ghost predicate ProgressInv(dir: Dir, p: Progress, backup: Dir, names: seq<string>, luck: seq<Luck>)
    requires |luck| == |names|
  {
    && (forall f :: FileIs(dir, p, backup, f))
    && ListsOk(dir, p, backup, names)
    && LuckOk(dir, p, backup, names, luck)
  }

  /** What is known of one more name before its turn. */
  lemma NextIsUntouched(dir: Dir, p: Progress, backup: Dir, names: seq<string>, name: string)
    requires Clean(names + [name])
    requires ListsOk(dir, p, backup, names)
    requires FileIs(dir, p, backup, name) && FileIs(dir, p, backup, Bak(name))
    ensures name !in names && name !in p.moved && name !in p.copied
    ensures Bak(name) !in names && Bak(name) !in p.moved && Bak(name) !in p.copied
    ensures SameFile(dir, p.dir, name) && SameFile(dir, p.dir, Bak(name))
  {
    StemOfBak(name);
    var all := names + [name];
    assert name == all[|names|] && name in all;
    assert forall a <- names :: a in all;
    assert forall i :: 0 <= i < |names| ==> all[i] == names[i] && all[i] != name;
  }

  lemma MoveAsideFiles(dir: Dir, p: Progress, backup: Dir, names: seq<string>, name: string, l: Luck, f: string)
    requires Clean(names + [name]) && ListsOk(dir, p, backup, names)
    requires forall g :: FileIs(dir, p, backup, g)
    ensures FileIs(dir, MoveAside(p, name, l), backup, f)
    ensures MoveAside(p, name, l).moved == if Moves(dir, name, l) then p.moved + [name] else p.moved
  {
    assert FileIs(dir, p, backup, f);
    assert FileIs(dir, p, backup, name) && FileIs(dir, p, backup, Bak(name));
    NextIsUntouched(dir, p, backup, names, name);
    StemOfBak(name);
    assert IsBak(f, p.moved + [name]) ==> IsBak(f, p.moved) || f == Bak(name);
  }

  lemma CopyInFiles(dir: Dir, p: Progress, backup: Dir, name: string, l: Luck, f: string)
    requires FileIs(dir, p, backup, f)
    ensures FileIs(dir, CopyIn(p, name, backup, l), backup, f)
  {
  }

  lemma StepKeepsLists(dir: Dir, p: Progress, backup: Dir, names: seq<string>, name: string, l: Luck)
    requires p.ok && Clean(names + [name]) && ListsOk(dir, p, backup, names)
    requires forall g :: FileIs(dir, p, backup, g)
    ensures ListsOk(dir, CopyIn(MoveAside(p, name, l), name, backup, l), backup, names + [name])
    ensures CopyIn(MoveAside(p, name, l), name, backup, l).ok == Passes(dir, name, backup, l)
  {
    assert FileIs(dir, p, backup, name) && FileIs(dir, p, backup, Bak(name));
    NextIsUntouched(dir, p, backup, names, name);
  }

  lemma CleanPrefix(names: seq<string>, n: nat)
    requires Clean(names) && n <= |names|
    ensures Clean(names[..n])
  {
    assert forall a <- names[..n] :: a in names;
  }

  lemma {:induction false} RestoreFilesInv(dir: Dir, names: seq<string>, backup: Dir, luck: seq<Luck>)
    requires |luck| == |names| && Clean(names)
    ensures ProgressInv(dir, RestoreFiles(dir, names, backup, luck), backup, names, luck)
    decreases |names|
  {
    if names == [] {
      assert forall f :: FileIs(dir, Progress(dir, [], [], true), backup, f);
    } else {
      var n := |names| - 1;
      var name, l := names[n], luck[n];
      CleanPrefix(names, n);
      RestoreFilesInv(dir, names[..n], backup, luck[..n]);
      var p := RestoreFiles(dir, names[..n], backup, luck[..n]);
      assert names == names[..n] + [name] && luck == luck[..n] + [l];
      if p.ok {
        var q := CopyIn(MoveAside(p, name, l), name, backup, l);
        forall f ensures FileIs(dir, q, backup, f) {
          MoveAsideFiles(dir, p, backup, names[..n], name, l, f);
          CopyInFiles(dir, MoveAside(p, name, l), backup, name, l, f);
        }
        StepKeepsLists(dir, p, backup, names[..n], name, l);
        StepKeepsLuck(dir, p, backup, names[..n], luck[..n], name, l);
      } else {
        var i :| 0 <= i < n && !Passes(dir, names[..n][i], backup, luck[..n][i]);
        assert !Passes(dir, names[i], backup, luck[i]);
      }
    }
  }

  lemma LuckExtends(dir: Dir, p: Progress, q: Progress, backup: Dir, names: seq<string>, luck: seq<Luck>,
                    name: string, l: Luck)
    requires |luck| == |names| && p.ok && LuckOk(dir, p, backup, names, luck)
    requires name !in names && name !in p.moved
    requires q.moved == if Moves(dir, name, l) then p.moved + [name] else p.moved
    requires q.ok == Passes(dir, name, backup, l)
    ensures LuckOk(dir, q, backup, names + [name], luck + [l])
  {
    hide Passes, Moves;
    var all, lucks := names + [name], luck + [l];
    assert forall i :: 0 <= i < |names| ==> all[i] == names[i] && lucks[i] == luck[i] && names[i] in names;
    assert all[|names|] == name && lucks[|names|] == l;
  }

  lemma StepKeepsLuck(dir: Dir, p: Progress, backup: Dir, names: seq<string>, luck: seq<Luck>, name: string, l: Luck)
    requires |luck| == |names| && Clean(names + [name])
    requires p.ok && ProgressInv(dir, p, backup, names, luck)
    ensures LuckOk(dir, CopyIn(MoveAside(p, name, l), name, backup, l), backup, names + [name], luck + [l])
  {
    MoveAsideFiles(dir, p, backup, names, name, l, name);
    StepKeepsLists(dir, p, backup, names, name, l);
    assert FileIs(dir, p, backup, name) && FileIs(dir, p, backup, Bak(name));
    NextIsUntouched(dir, p, backup, names, name);
    LuckExtends(dir, p, CopyIn(MoveAside(p, name, l), name, backup, l), backup, names, luck, name, l);
  }

  // -------------------------------------------------------------------- Clean-up

  lemma {:induction false} RemoveAllAt(dir: Dir, names: seq<string>, f: string)
    ensures f in names ==> f !in RemoveAll(dir, names)
    ensures f !in names ==> SameFile(dir, RemoveAll(dir, names), f)
    decreases |names|
  {
    if names != [] {
      var n := |names| - 1;
      assert names == names[..n] + [names[n]];
      RemoveAllAt(dir, names[..n], f);
    }
  }

  /** A file after the renames are undone: a moved file has the contents of its ".bak". */
  predicate BackAt(dir: Dir, after: Dir, moved: seq<string>, f: string) {
    if f in moved then f in after && Bak(f) in dir && after[f] == dir[Bak(f)]
    else if IsBak(f, moved) then f !in after
    else SameFile(dir, after, f)
  }

  lemma {:induction false} RenameBackAt(dir: Dir, moved: seq<string>, f: string)
    requires Clean(moved)
    requires forall m <- moved :: m !in dir && Bak(m) in dir
    ensures BackAt(dir, RenameBack(dir, moved), moved, f)
    decreases |moved|
  {
    if moved != [] {
      var n := |moved| - 1;
      var name := moved[n];
      CleanPrefix(moved, n);
      assert moved == moved[..n] + [name];
      StemOfBak(name);
      assert forall m <- moved[..n] :: m in moved;
      RenameBackAt(dir, moved[..n], f);
      RenameBackAt(dir, moved[..n], name);
      RenameBackAt(dir, moved[..n], Bak(name));
      assert name !in moved[..n] && Bak(name) !in moved;
      assert !IsBak(name, moved[..n]);
      assert IsBak(f, moved) <==> IsBak(f, moved[..n]) || f == Bak(name);
    }
  }

  lemma SameFiles(a: Dir, b: Dir)
    requires forall f :: SameFile(a, b, f)
    ensures a == b
  {
    assert forall f :: (f in a <==> f in b) by {
      forall f ensures f in a <==> f in b {
        assert SameFile(a, b, f);
      }
    }
    forall f | f in a ensures a[f] == b[f] {
      assert SameFile(a, b, f);
    }
  }

  // --------------------------------------------------------------------- Theorems

  lemma UndoneAt(dir: Dir, p: Progress, backup: Dir, names: seq<string>, luck: seq<Luck>, f: string)
    requires |luck| == |names| && Clean(names) && ProgressInv(dir, p, backup, names, luck)
    ensures SameFile(dir, RenameBack(RemoveAll(p.dir, p.copied), p.moved), f)
  {
    var removed := RemoveAll(p.dir, p.copied);
    assert Clean(p.moved);
    forall m | m in p.moved
      ensures m !in removed && Bak(m) in removed && Bak(m) !in p.copied && m in dir && removed[Bak(m)] == dir[m]
    {
      StemOfBak(m);
      assert m in names;
      assert Bak(m) !in names;
      assert FileIs(dir, p, backup, m) && FileIs(dir, p, backup, Bak(m));
      RemoveAllAt(p.dir, p.copied, m);
      RemoveAllAt(p.dir, p.copied, Bak(m));
    }
    RenameBackAt(removed, p.moved, f);
    RemoveAllAt(p.dir, p.copied, f);
    assert FileIs(dir, p, backup, f);
    if f !in p.moved && IsBak(f, p.moved) {
      assert f == Bak(Stem(f)) && f !in names;
    }
  }

  /** A restore that fails leaves the directory as it was, whichever file it fails at. */
  lemma FailureIsAtomic(dir: Dir, names: seq<string>, backup: Dir, luck: seq<Luck>)
    requires |luck| == |names| && Clean(names)
    requires !Restore(dir, names, backup, luck).1
    ensures Restore(dir, names, backup, luck).0 == dir
  {
    RestoreFilesInv(dir, names, backup, luck);
    var p := RestoreFiles(dir, names, backup, luck);
    var after := RenameBack(RemoveAll(p.dir, p.copied), p.moved);
    forall f ensures SameFile(after, dir, f) {
      UndoneAt(dir, p, backup, names, luck, f);
    }
    SameFiles(after, dir);
  }

  /** It succeeds exactly when every listed file of the backup can be copied: the copy works
      and nothing is in its way, or what is can be renamed. */
  lemma SucceedsExactly(dir: Dir, names: seq<string>, backup: Dir, luck: seq<Luck>)
    requires |luck| == |names| && Clean(names)
    ensures Restore(dir, names, backup, luck).1
       <==> forall i :: 0 <= i < |names| ==> Passes(dir, names[i], backup, luck[i])
  {
    RestoreFilesInv(dir, names, backup, luck);
  }

  lemma InBaks(moved: seq<string>, f: string)
    ensures f in Baks(moved) <==> IsBak(f, moved)
  {
    if IsBak(f, moved) {
      var i :| 0 <= i < |moved| && moved[i] == Stem(f);
      assert Baks(moved)[i] == f;
    }
    if f in Baks(moved) {
      var i :| 0 <= i < |moved| && Baks(moved)[i] == f;
      StemOfBak(moved[i]);
    }
  }

  /** After a restore that succeeds, a listed file is the backup's; one the backup lacks is
      gone if it could be moved aside and kept if not; and no unlisted file has changed, so no
      ".bak" is left that was not there. */
  lemma SuccessRestores(dir: Dir, names: seq<string>, backup: Dir, luck: seq<Luck>, f: string)
    requires |luck| == |names| && Clean(names)
    requires Restore(dir, names, backup, luck).1
    ensures var after := Restore(dir, names, backup, luck).0;
      && (f !in names ==> SameFile(dir, after, f))
      && (f in names && f in backup ==> f in after && after[f] == backup[f])
      && (forall i :: 0 <= i < |names| && names[i] == f && f !in backup ==>
            if Moves(dir, f, luck[i]) then f !in after else SameFile(dir, after, f))
  {
    RestoreFilesInv(dir, names, backup, luck);
    var p := RestoreFiles(dir, names, backup, luck);
    RemoveAllAt(p.dir, Baks(p.moved), f);
    InBaks(p.moved, f);
    assert FileIs(dir, p, backup, f);
    if IsBak(f, p.moved) {
      assert Stem(f) in names;
      assert f !in names;
    }
  }

  // -------------------------------------------- Lists for which failure is not atomic

  lemma NextFile(dir: Dir, names: seq<string>, backup: Dir, luck: seq<Luck>, k: nat)
    requires |luck| == |names| && k < |names|
    ensures var p := RestoreFiles(dir, names[..k], backup, luck[..k]);
      RestoreFiles(dir, names[..k + 1], backup, luck[..k + 1])
      == if !p.ok then p else CopyIn(MoveAside(p, names[k], luck[k]), names[k], backup, luck[k])
  {
    assert names[..k + 1][..k] == names[..k] && luck[..k + 1][..k] == luck[..k];
  }

  /** Names that are in neither directory change nothing, and nothing happens after a failure. */
  lemma {:induction false} Skipped(dir: Dir, names: seq<string>, backup: Dir, luck: seq<Luck>, i: nat, k: nat)
    requires |luck| == |names| && i <= k <= |names|
    requires var p := RestoreFiles(dir, names[..i], backup, luck[..i]);
      p.ok ==> forall j :: i <= j < k ==> names[j] !in p.dir && names[j] !in backup
    ensures RestoreFiles(dir, names[..k], backup, luck[..k]) == RestoreFiles(dir, names[..i], backup, luck[..i])
    decreases k
  {
    if i < k {
      Skipped(dir, names, backup, luck, i, k - 1);
      NextFile(dir, names, backup, luck, k - 1);
    }
  }

  /** Every rename works, and every copy before the one of file `j`. */
  function UntilCopy(n: nat, j: nat): seq<Luck> {
    seq(n, k => Luck(true, k < j))
  }

  lemma RenameOne(dir: Dir, name: string)
    ensures RenameBack(dir, [name]) == Rename(dir, Bak(name), name)
  {
    assert [name][..0] == [];
    assert RenameBack(dir, [name][..0]) == dir;
  }

  lemma RenameTwo(dir: Dir, first: string, second: string)
    ensures RenameBack(dir, [first, second]) == Rename(Rename(dir, Bak(first), first), Bak(second), second)
  {
    assert [first, second][..1] == [first];
    RenameOne(dir, first);
  }

  predicate Atomic(dir: Dir, names: seq<string>, backup: Dir, luck: seq<Luck>)
    requires |luck| == |names|
  {
    var r := Restore(dir, names, backup, luck);
    !r.1 ==> r.0 == dir
  }

  lemma BakDiffers(a: string)
    ensures Bak(a) != a && Bak(Bak(a)) != a && Bak(Bak(a)) != Bak(a)
  {
  }

  /** Files from `i` on that change nothing, and then file `j`. */
  lemma GetsPast(dir: Dir, names: seq<string>, backup: Dir, luck: seq<Luck>, i: nat, j: nat)
    requires |luck| == |names| && i <= j < |names|
    requires var p := RestoreFiles(dir, names[..i], backup, luck[..i]);
      p.ok && forall k :: i <= k < j ==> names[k] !in p.dir && names[k] !in backup
    ensures var p := RestoreFiles(dir, names[..i], backup, luck[..i]);
      RestoreFiles(dir, names[..j + 1], backup, luck[..j + 1])
      == CopyIn(MoveAside(p, names[j], luck[j]), names[j], backup, luck[j])
  {
    Skipped(dir, names, backup, luck, i, j);
    NextFile(dir, names, backup, luck, j);
  }

  /** A run that stands still except at files `i` and `j`, where it fails. */
  lemma FailsAtSecond(dir: Dir, names: seq<string>, backup: Dir, luck: seq<Luck>, i: nat, j: nat,
                      first: Progress, second: Progress)
    requires |luck| == |names| && i < j < |names|
    requires forall k :: 0 <= k < i ==> names[k] !in dir && names[k] !in backup
    requires first == CopyIn(MoveAside(Progress(dir, [], [], true), names[i], luck[i]), names[i], backup, luck[i])
    requires first.ok
    requires forall k :: i < k < j ==> names[k] !in first.dir && names[k] !in backup
    requires second == CopyIn(MoveAside(first, names[j], luck[j]), names[j], backup, luck[j])
    requires !second.ok
    ensures RestoreFiles(dir, names, backup, luck) == second
  {
    hide CopyIn, MoveAside;
    assert RestoreFiles(dir, names[..0], backup, luck[..0]) == Progress(dir, [], [], true);
    hide RestoreFiles;
    GetsPast(dir, names, backup, luck, 0, i);
    GetsPast(dir, names, backup, luck, i + 1, j);
    NothingAfterFailure(dir, names, backup, luck, j + 1);
  }

  /** A name listed twice: the second pass moves the first copy aside, and undoing brings it
      back. */
  lemma TwiceIsNotAtomic(names: seq<string>, i: nat, j: nat)
    requires i < j < |names| && names[i] == names[j]
    requires forall k :: 0 <= k < j && k != i ==> names[k] != names[j]
    ensures !Atomic(map[], names, map[names[j] := "new"], UntilCopy(|names|, j))
  {
    var name := names[j];
    var backup: Dir, luck := map[name := "new"], UntilCopy(|names|, j);
    BakDiffers(name);
    hide Bak, RestoreFiles, RemoveAll, RenameBack;
    var first := Progress(backup, [], [name], true);
    var second := Progress(map[Bak(name) := "new"], [name], [name], false);
    assert luck[i].copy && !luck[j].copy;
    FailsAtSecond(map[], names, backup, luck, i, j, first, second);
    var removed := RemoveAll(second.dir, second.copied);
    RemoveAllAt(second.dir, second.copied, Bak(name));
    RemoveAllAt(second.dir, second.copied, name);
    RenameOne(removed, name);
    assert name in Restore(map[], names, backup, luck).0;
  }

  /** The ".bak" of a later name is listed first: undoing finds its own name taken. */
  lemma BakFirstIsNotAtomic(names: seq<string>, i: nat, j: nat)
    requires i < j < |names| && names[i] == Bak(names[j])
    requires forall k :: 0 <= k < |names| && k != i ==> names[k] != names[i]
    requires forall k :: 0 <= k < |names| && k != j ==> names[k] != names[j]
    requires Bak(names[i]) !in names
    ensures !Atomic(map[names[i] := "1", names[j] := "2"], names, map[names[j] := "new"], UntilCopy(|names|, 0))
  {
    var bak, name := names[i], names[j];
    var dir: Dir, backup: Dir, luck := map[bak := "1", name := "2"], map[name := "new"], UntilCopy(|names|, 0);
    BakDiffers(name);
    BakDiffers(bak);
    hide Bak, RestoreFiles, RenameBack;
    var first := Progress(map[Bak(bak) := "1", name := "2"], [bak], [], true);
    var second := Progress(map[Bak(bak) := "1", bak := "2"], [bak, name], [], false);
    assert [bak] + [name] == [bak, name];
    assert !luck[j].copy;
    assert dir - {bak} == map[name := "2"];
    assert MoveAside(Progress(dir, [], [], true), bak, luck[i]) == first;
    assert MoveAside(first, name, luck[j]) == second.(ok := true);
    FailsAtSecond(dir, names, backup, luck, i, j, first, second);
    RenameTwo(second.dir, bak, name);
    assert bak !in Restore(dir, names, backup, luck).0;
  }

  /** The ".bak" of an earlier name is listed later: it is moved again, out of reach. */
  lemma BakLaterIsNotAtomic(names: seq<string>, i: nat, j: nat)
    requires i < j < |names| && names[j] == Bak(names[i])
    requires forall k :: 0 <= k < |names| && k != i ==> names[k] != names[i]
    requires forall k :: 0 <= k < |names| && k != j ==> names[k] != names[j]
    ensures !Atomic(map[names[i] := "1"], names, map[names[j] := "new"], UntilCopy(|names|, 0))
  {
    var name, bak := names[i], names[j];
    var dir: Dir, backup: Dir, luck := map[name := "1"], map[bak := "new"], UntilCopy(|names|, 0);
    BakDiffers(name);
    BakDiffers(bak);
    hide Bak, RestoreFiles, RenameBack;
    var first := Progress(map[bak := "1"], [name], [], true);
    var second := Progress(map[Bak(bak) := "1"], [name, bak], [], false);
    assert [name] + [bak] == [name, bak];
    assert !luck[j].copy;
    assert MoveAside(Progress(dir, [], [], true), name, luck[i]) == first;
    assert MoveAside(first, bak, luck[j]) == second.(ok := true);
    FailsAtSecond(dir, names, backup, luck, i, j, first, second);
    RenameTwo(second.dir, name, bak);
    assert name !in Restore(dir, names, backup, luck).0;
  }

  ghost predicate Distinct(names: seq<string>) {
    forall i, j :: 0 <= i < j < |names| ==> names[i] != names[j]
  }

  /** The first repetition in a list that has one. */
  lemma {:induction false} FirstRepeat(names: seq<string>) returns (i: nat, j: nat)
    requires !Distinct(names)
    ensures i < j < |names| && names[i] == names[j]
    ensures forall k :: 0 <= k < j && k != i ==> names[k] != names[j]
  {
    var n := |names| - 1;
    if !Distinct(names[..n]) {
      i, j := FirstRepeat(names[..n]);
    } else {
      j := n;
      i :| 0 <= i < n && names[i] == names[n];
    }
  }

  /** Two listed names, one the ".bak" of the other, whose own ".bak" is not listed. */
  lemma {:induction false} LastOfChain(names: seq<string>, a: string, longest: nat) returns (b: string)
    requires a in names && Bak(a) in names
    requires forall c <- names :: |c| <= longest
    ensures b in names && Bak(b) in names && Bak(Bak(b)) !in names
    decreases longest - |a|
  {
    b := a;
    if Bak(Bak(a)) in names {
      b := LastOfChain(names, Bak(a), longest);
    }
  }

  function Longest(names: seq<string>): (n: nat)
    ensures forall c <- names :: |c| <= n
  {
    if names == [] then 0
    else
      var n := Longest(names[1..]);
      assert forall c <- names :: c == names[0] || c in names[1..];
      if |names[0]| > n then |names[0]| else n
  }

  lemma UncleanIsNotAtomic(names: seq<string>) returns (dir: Dir, backup: Dir, luck: seq<Luck>)
    requires !Clean(names)
    ensures |luck| == |names| && !Atomic(dir, names, backup, luck)
  {
    if !Distinct(names) {
      var i, j := FirstRepeat(names);
      TwiceIsNotAtomic(names, i, j);
      dir, backup, luck := map[], map[names[j] := "new"], UntilCopy(|names|, j);
    } else {
      var a :| a in names && Bak(a) in names;
      a := LastOfChain(names, a, Longest(names));
      var i :| 0 <= i < |names| && names[i] == Bak(a);
      var j :| 0 <= j < |names| && names[j] == a;
      if i < j {
        BakFirstIsNotAtomic(names, i, j);
        dir, backup, luck := map[Bak(a) := "1", a := "2"], map[a := "new"], UntilCopy(|names|, 0);
      } else {
        BakLaterIsNotAtomic(names, j, i);
        dir, backup, luck := map[a := "1"], map[Bak(a) := "new"], UntilCopy(|names|, 0);
      }
    }
  }

  /** Restoring a list of names is failure-atomic, for all directories, backups and failures,
      exactly when the names are distinct and none is the ".bak" of another. */
  lemma AtomicExactly(names: seq<string>)
    ensures Clean(names)
       <==> forall dir, backup, luck | |luck| == |names| :: Atomic(dir, names, backup, luck)
  {
    if Clean(names) {
      forall dir, backup, luck | |luck| == |names| ensures Atomic(dir, names, backup, luck) {
        if !Restore(dir, names, backup, luck).1 {
          FailureIsAtomic(dir, names, backup, luck);
        }
      }
    } else {
      var dir, backup, luck := UncleanIsNotAtomic(names);
    }
  }

  // --------------------------------------------------------------------- The daemon

  /** The storage directory and the backup directory beside it. */
  class SignonDaemon {
    var target: Dir
    const backup: Dir

    constructor (target: Dir, backup: Dir)
      ensures this.target == target && this.backup == backup
    {
      this.target, this.backup := target, backup;
    }

    method TryRename(source: string, destination: string, lucky: bool) returns (done: bool)
      modifies this
      ensures done == (lucky && CanRename(old(target), source, destination))
      ensures target == if done then Rename(old(target), source, destination) else old(target)
    {
      done := lucky && source in target && destination !in target;
      if done {
        target := (target - {source})[destination := target[source]];
      }
    }

    method CopyFromBackupDir(fileNames: seq<string>, luck: seq<Luck>) returns (ok: bool)
      requires |luck| == |fileNames|
      modifies this
      ensures (target, ok) == Restore(old(target), fileNames, backup, luck)
      ensures Clean(fileNames) && !ok ==> target == old(target)
    {
      ok := true;
      var movedFiles, copiedFiles := [], [];
      ghost var before := target;
      var i := 0;
      while i < |fileNames| && ok
        invariant 0 <= i <= |fileNames|
        invariant Progress(target, movedFiles, copiedFiles, ok) == RestoreFiles(before, fileNames[..i], backup, luck[..i])
      {
        NextFile(before, fileNames, backup, luck, i);
        var fileName := fileNames[i];
        if fileName in target {
          var moved := TryRename(fileName, fileName + ".bak", luck[i].rename);
          if moved {
            movedFiles := movedFiles + [fileName];
          }
        }
        if fileName in backup {
          ok := luck[i].copy && fileName !in target;
          if ok {
            target := target[fileName := backup[fileName]];
            copiedFiles := copiedFiles + [fileName];
          }
        }
        i := i + 1;
      }
      if !ok {
        NothingAfterFailure(before, fileNames, backup, luck, i);
      }
      assert fileNames[..|fileNames|] == fileNames && luck[..|fileNames|] == luck;
      if !ok {
        Remove(copiedFiles);
        RenameAllBack(movedFiles);
        if Clean(fileNames) {
          FailureIsAtomic(before, fileNames, backup, luck);
        }
      } else {
        var baks := [];
        for k := 0 to |movedFiles|
          invariant baks == Baks(movedFiles)[..k]
        {
          baks := baks + [movedFiles[k] + ".bak"];
        }
        assert Baks(movedFiles)[..|movedFiles|] == Baks(movedFiles);
        Remove(baks);
      }
    }

    method Remove(names: seq<string>)
      modifies this
      ensures target == RemoveAll(old(target), names)
    {
      ghost var before := target;
      for i := 0 to |names|
        invariant target == RemoveAll(before, names[..i])
      {
        target := target - {names[i]};
        assert names[..i + 1][..i] == names[..i];
      }
      assert names[..|names|] == names;
    }

    method RenameAllBack(names: seq<string>)
      modifies this
      ensures target == RenameBack(old(target), names)
    {
      ghost var before := target;
      for i := 0 to |names|
        invariant target == RenameBack(before, names[..i])
      {
        var done := TryRename(names[i] + ".bak", names[i], true);
        assert names[..i + 1][..i] == names[..i];
      }
      assert names[..|names|] == names;
    }
  }

  lemma NothingAfterFailure(dir: Dir, names: seq<string>, backup: Dir, luck: seq<Luck>, i: nat)
    requires |luck| == |names| && i <= |names|
    requires !RestoreFiles(dir, names[..i], backup, luck[..i]).ok
    ensures RestoreFiles(dir, names, backup, luck) == RestoreFiles(dir, names[..i], backup, luck[..i])
  {
    Skipped(dir, names, backup, luck, i, |names|);
    assert names[..|names|] == names && luck[..|names|] == luck;
  }
}
