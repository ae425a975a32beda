/** Calls that answer as if all was well and leave a device that cannot be mounted
    or a file that cannot be found, each with its exact condition. */
module Faults {
  import opened Geometry
  import opened Slots
  import opened Paths
  import opened DirTree
  import opened Store
  import opened StoreProofs
  import opened Calls
  import opened CallProofs
  import opened Namespace
  import opened Persist
  import opened PersistCalls
  import opened Mount
  import opened MountProofs
  import opened Remount

  // ---------------------------------------------------------------- one file slot of a good image

  lemma SameDirs(img: Image, other: Image, h: nat)
    requires other.dirs == img.dirs && DirsGood(img, |img.dirs|) && ParentsGood(img)
    ensures h < |img.dirs| ==> DirSlotGood(other, h)
    ensures DirHeld(other, h)
  {
    hide GetDirName, IsMountPoint;
    assert DirHeld(img, h) && (h < |img.dirs| ==> DirSlotGood(img, h));
    forall p, n: nat ensures DirNamed(other, p, n) <==> DirNamed(img, p, n) {
      forall k: nat ensures DirUsed(other, k) <==> DirUsed(img, k) { }
    }
  }

  lemma SameBlockSlot(img: Image, other: Image, num: nat, i: nat)
    requires other.blocks == img.blocks && (forall h: nat :: FileUsed(img, h) ==> FileUsed(other, h))
    requires BlockSlotGood(img, num, i)
    ensures BlockSlotGood(other, num, i)
  {
    hide NoDup;
    assert BlockUsed(other, i) <==> BlockUsed(img, i);
    if BlockUsed(img, i) {
      forall j: nat ensures BlocksNew(other, i, j) {
        assert BlocksNew(img, i, j) && (BlockUsed(other, j) <==> BlockUsed(img, j));
      }
    }
  }

  /** A good image with one file slot overwritten by a file is mounted exactly
      when that slot is good. */
  lemma OneSlotDecides(img: Image, h: nat, m: FileMeta, num: nat, dev: seq<byte>)
    requires TempFree(img) && MountImage(img, num, dev).Some? && h < |img.files| && m.used && !m.isTemp
    ensures MountImage(img.(files := img.files[h := m]), num, dev).Some? <==>
      m == SealFile(m) && m.name != "" && m.fh == h && DirUsed(img, m.dh)
  {
    hide MountImage, BlockSlotGood, DirHeld, DirSlotGood, NoDup;
    var other := img.(files := img.files[h := m]);
    MountAcceptsIff(img, num, dev);
    StaysTempFree(img, h, m);
    MountAcceptsIff(other, num, dev);
    forall k: nat
      ensures k < |img.dirs| ==> DirSlotGood(other, k)
      ensures DirHeld(other, k)
    {
      SameDirs(img, other, k);
    }
    forall i: nat | i < |img.blocks| ensures BlockSlotGood(other, num, i) {
      assert BlockSlotGood(img, num, i);
      SameBlockSlot(img, other, num, i);
    }
    forall k: nat | k < |img.files| && k != h ensures FileSlotGood(other, k) {
      assert FileSlotGood(img, k);
      NoneMended(img, k, k);
    }
    NoneMended(other, h, h);
    assert FileSlotGood(other, h) <==> m == SealFile(m) && m.name != "" && m.fh == h && DirUsed(img, m.dh);
  }

  lemma LiveImage(s: State)
    requires Inv(s) && SlotsOK(s) && Persisted(s) && Named(s)
    ensures TempFree(s.tab.mem) && MountImage(s.tab.mem, s.num, s.dev).Some?
  {
    hide Inv, Sound, SlotsOK, MountImage, Named;
    InvIsSound(s);
    PersistedMounts(s);
  }

  lemma DirIsUsed(s: State, dh: nat)
    requires Inv(s) && SlotsOK(s) && Persisted(s) && dh in s.inDir
    ensures DirUsed(s.tab.mem, dh)
  {
    hide TreeOK, IndexOK, BlocksOK, FdsOK, SlotsOK, Persisted, Sound;
    InvIsSound(s);
    UsedDirIsLive(s, dh);
  }

  // ---------------------------------------------------------------- a full file

  /** An extension within the last block of a file needs nothing from the pool, and
      on a large enough device it still fails exactly for a file in its last block:
      the test for a full slot comes first. */
  lemma FullFileCannotGrow(s: State, f: nat, off: nat, ids: seq<nat>)
    requires Inv(s) && Conserved(s) && f in s.files && s.files[f].size < off <= |s.dev|
    requires Needed(s.files[f].size, off) == 0
    ensures Extend(s, f, off, ids).1 != Done <==> s.files[f].size > (C - 1) * B
  {
    hide DirsOK, IndexOK, FdsOK, NoneLost;
    assert HasBlocks(s, f) && SizedRight(s, f);
  }

  // ---------------------------------------------------------------- renaming a file

  lemma RenamedFile(s: State, from: string, to: string)
    requires Inv(s) && |from| > 0 && |to| > 0 && LookupFile(s, from).Some? && Rename(s, from, to).1 == Done
    ensures var f := LookupFile(s, from).value; var up := LookupDir(s, GetDirName(to));
      && f in s.files && up.Some? && up.value in s.inDir && s.files[f].dh in s.inDir
      && Rename(s, from, to).0 == MoveFile(s, f, up.value, StoredName(GetFileName(to)))
  {
    hide Inv, LookupFile, LookupDir, GetDirName, GetFileName, MoveFile, RenamedDir, Move;
    FileIsLive(s, from);
  }

  lemma StoredNameIsEmpty(to: string)
    requires |to| > 0
    ensures StoredName(GetFileName(to)) == "" <==> EndsWithSlash(to)
  { }

  /** RenamePath accepts a target such as "/a/", whose file name is empty: after
      a file rename the device can be mounted exactly when the target is none of
      these, whatever else the target is. */
  lemma RenameToNothing(s: State, from: string, to: string)
    requires Inv(s) && SlotsOK(s) && Persisted(s) && Named(s) && |from| > 0 && |to| > 0
    requires LookupFile(s, from).Some? && Rename(s, from, to).1 == Done
    ensures MountImage(Rename(s, from, to).0.tab.disk, s.num, s.dev).Some? <==> !EndsWithSlash(to)
  {
    hide Inv, Named, MountImage, WriteFile, LookupFile, LookupDir, GetDirName, GetFileName, Rename, StoredName;
    RenamedFile(s, from, to);
    StoredNameIsEmpty(to);
    LiveImage(s);
    var x := s.files[LookupFile(s, from).value];
    var dh := LookupDir(s, GetDirName(to)).value;
    var m := FileAt(s.tab, x.fh).(dh := dh, name := StoredName(GetFileName(to)));
    DirIsUsed(s, dh);
    assert Shown(s, LookupFile(s, from).value);
    WriteFileEffect(s.tab, x.fh, m);
    OneSlotDecides(s.tab.mem, x.fh, SealFile(m), s.num, s.dev);
  }

  ghost predicate FoundBy(s: State, p: string, f: nat) {
    |p| > 0 && LookupFile(s, p) == Some(f)
  }

  /** RenamePath also accepts a target whose file name is as long as the name
      field or longer and stores what fits. After a file rename the file is found
      at its target exactly when the name is neither empty nor too long; else no
      path finds it. */
  lemma RenamedIsFound(s: State, from: string, to: string)
    requires Inv(s) && |from| > 0 && |to| > 0 && LookupFile(s, from).Some? && Rename(s, from, to).1 == Done
    ensures var t := Rename(s, from, to).0; var f := LookupFile(s, from).value;
      && (FoundBy(t, to, f) <==> !EndsWithSlash(to) && |GetFileName(to)| < MAX_FILE_NAME)
      && ((exists p :: FoundBy(t, p, f)) <==> !EndsWithSlash(to) && |GetFileName(to)| < MAX_FILE_NAME)
  {
    hide Inv, MoveWrites, LookupFile, LookupDir, GetDirName, GetFileName, Rename;
    RenamedFile(s, from, to);
    var t := Rename(s, from, to).0;
    var f := LookupFile(s, from).value;
    forall p | FoundBy(t, p, f)
      ensures !EndsWithSlash(to) && |GetFileName(to)| < MAX_FILE_NAME
    {
      FoundAtStoredName(s, from, to, p);
    }
    if !EndsWithSlash(to) && |GetFileName(to)| < MAX_FILE_NAME {
      assert FoundBy(t, to, f) by { FoundAtTarget(s, from, to); }
    }
  }

  lemma FoundAtTarget(s: State, from: string, to: string)
    requires Inv(s) && |from| > 0 && |to| > 0 && LookupFile(s, from).Some? && Rename(s, from, to).1 == Done
    requires !EndsWithSlash(to) && |GetFileName(to)| < MAX_FILE_NAME
    ensures LookupFile(Rename(s, from, to).0, to) == LookupFile(s, from)
  {
    hide Inv, MoveWrites, GetDirName, GetFileName, Rename;
    RenamedFile(s, from, to);
  }

  lemma FoundAtStoredName(s: State, from: string, to: string, p: string)
    requires Inv(s) && |from| > 0 && |to| > 0 && LookupFile(s, from).Some? && Rename(s, from, to).1 == Done
    requires FoundBy(Rename(s, from, to).0, p, LookupFile(s, from).value)
    ensures !EndsWithSlash(to) && |GetFileName(to)| < MAX_FILE_NAME
  {
    hide DirsOK, BlocksOK, FdsOK, MoveWrites, LookupDir, GetDirName, GetFileName, Rename;
    RenamedFile(s, from, to);
    StoredNameIsEmpty(to);
    StoredNameIsEmpty(p);
    var key := (LookupDir(Rename(s, from, to).0, GetDirName(p)).value, GetFileName(p));
    assert key in s.byName ==> NameKeyOK(s, key);
  }

  /** The answer of RenamePath: for a file 0 means that it was renamed. For a
      directory it never does: one that was renamed is answered with -1, and 0
      comes exactly when all was well but the new parent does not exist. */
  lemma RenameAnswers(s: State, from: string, to: string)
    requires Inv(s) && |from| > 0 && |to| > 0
    ensures var done := Rename(s, from, to).1 == Done; var r := RenameAnswer(s, from, to);
      && (LookupFile(s, from).Some? ==> (r == 0 <==> done))
      && (LookupFile(s, from).None? ==>
            && !(r == 0 && done)
            && (r == 0 <==>
                 LookupFile(s, to).None? && AskedDir(s, from, to).Some? && LookupDir(s, GetDirName(AsDir(to))).None?)
            && (done <==>
                 LookupFile(s, to).None? && AskedDir(s, from, to).Some? && LookupDir(s, GetDirName(AsDir(to))).Some?))
  {
    hide Inv, LookupFile, LookupDir, GetDirName, GetFileName, AskedDir, MoveFile, Move;
    if LookupFile(s, from).Some? { FileIsLive(s, from); }
  }

  // ---------------------------------------------------------------- renaming a directory

  /** The image after the slot of directory `h` got the path `to`. */
  function DirRenamedImage(s: State, h: nat, to: string): Image {
    WriteDir(s.tab, h, DirAt(s.tab, h).(name := to)).disk
  }

  lemma DirRenamedSlots(s: State, h: nat, to: string)
    requires Inv(s) && SlotsOK(s) && Persisted(s) && h in s.tree.names
    ensures h < |s.tab.mem.dirs| && s.tab.mem.dirs[h].used && s.tab.mem.dirs[h].name == s.tree.names[h]
    ensures var m := s.tab.mem.dirs[h].(name := to);
      DirRenamedImage(s, h, to) == s.tab.mem.(dirs := s.tab.mem.dirs[h := SealDir(m)])
  {
    hide Inv, WriteDir;
    assert DirShown(s, h);
    WriteDirEffect(s.tab, h, DirAt(s.tab, h).(name := to));
  }

  /** No slot but its own carries the path of a live directory. */
  lemma OnlySlotOf(s: State, h: nat, to: string, n: nat)
    requires Inv(s) && SlotsOK(s) && Persisted(s) && h in s.tree.names && to != s.tree.names[h]
    ensures !DirNamed(DirRenamedImage(s, h, to), s.tree.names[h], n)
  {
    hide IndexOK, BlocksOK, FdsOK, SlotsOK, Persisted, Sound, DirRenamedImage, GetDirName;
    var img := DirRenamedImage(s, h, to);
    DirRenamedSlots(s, h, to);
    InvIsSound(s);
    assert NameOK(s.tree, h);
    forall k: nat ensures DirUsed(img, k) ==> img.dirs[k].name != s.tree.names[h] {
      assert DirUsed(img, k) && k != h ==> DirUsed(s.tab.mem, k);
      UsedDirIsLive(s, k);
    }
  }

  /** A rename that loses the tree leaves tables that no mount accepts. */
  lemma UnsafeMoveIsRejected(s: State, h: nat, to: string)
    requires Inv(s) && SlotsOK(s) && Persisted(s) && CanMove(s.tree, h, to) && !MoveIsSafe(s.tree, h, to)
    ensures MountImage(DirRenamedImage(s, h, to), s.num, s.dev).None?
  {
    hide IndexOK, BlocksOK, FdsOK, SlotsOK, Persisted, Sound, MountImage, DirRenamedImage, GetDirName, IsMountPoint;
    var img := DirRenamedImage(s, h, to);
    DirRenamedSlots(s, h, to);
    InvIsSound(s);
    MountAcceptsIff(img, s.num, s.dev);
    CanMoveMeans(s.tree, h, to);
    if to in s.tree.byPath {
      assert PathOK(s.tree, to);
      var k := s.tree.byPath[to];
      UsedDirIsLive(s, k);
      assert DirUsed(img, k) && DirUsed(img, h);
      var later := if h < k then k else h;
      assert DirNamed(img, to, later);
      assert !DirSlotGood(img, later);
    } else if GetDirName(to) == s.tree.names[h] {
      OnlySlotOf(s, h, to, |img.dirs|);
      assert DirUsed(img, h) && !DirHeld(img, h);
    } else {
      var c :| c in s.tree.kids[h];
      assert KidOK(s.tree, h, c) && NameOK(s.tree, c) && c != h;
      UsedDirIsLive(s, c);
      OnlySlotOf(s, h, to, |img.dirs|);
      assert DirUsed(img, c) && !DirHeld(img, c);
    }
  }

  lemma RenamedDirectory(s: State, from: string, to: string)
    requires Inv(s) && |from| > 0 && |to| > 0 && LookupFile(s, from).None? && Rename(s, from, to).1 == Done
    ensures RenamedDir(s, from, to).Some?
    ensures var h := RenamedDir(s, from, to).value;
      && Rename(s, from, to).0.tab.disk == DirRenamedImage(s, h, AsDir(to))
      && Rename(s, from, to).0.num == s.num && Rename(s, from, to).0.dev == s.dev
      && (RenameIsSafe(s, from, to) <==> MoveIsSafe(s.tree, h, AsDir(to)))
  {
    hide Inv, LookupFile, LookupDir, GetDirName, GetFileName, RenamedDir, Move, WriteDir, MoveIsSafe;
  }

  /** After a directory rename that is carried out the device can be mounted exactly
      when the target is free, the directory has no child directory, and it was not
      moved into itself: when the tree in memory survives, so does the device. */
  lemma DirRenameLosesDevice(s: State, from: string, to: string)
    requires Inv(s) && SlotsOK(s) && Persisted(s) && Named(s) && |from| > 0 && |to| > 0
    requires LookupFile(s, from).None? && Rename(s, from, to).1 == Done
    ensures RenamedDir(s, from, to).Some?
    ensures MountImage(Rename(s, from, to).0.tab.disk, s.num, s.dev).Some? <==>
      MoveIsSafe(s.tree, RenamedDir(s, from, to).value, AsDir(to))
  {
    hide Inv, SlotsOK, Persisted, Named, MountImage, LookupFile, Rename, RenamedDir, DirRenamedImage, MoveIsSafe,
         CanMove;
    RenamedDirectory(s, from, to);
    RenamedDirCanMove(s, from, to);
    var h := RenamedDir(s, from, to).value;
    var t := Rename(s, from, to).0;
    if MoveIsSafe(s.tree, h, AsDir(to)) {
      RenameKeeps(s, from, to);
      RenameTables(s, from, to);
      RenameNamed(s, from, to);
      LiveImage(t);
      MemoryIsDevice(t);
    } else {
      UnsafeMoveIsRejected(s, h, AsDir(to));
    }
  }

  lemma MemoryIsDevice(s: State)
    requires Persisted(s)
    ensures s.tab.mem == s.tab.disk
  { }

  // ---------------------------------------------------------------- the lock of a block

  const BLOCK_LOCKS: nat := 100000     // the size of block_locks_

  /** A file has the block or may get it. */
  ghost predicate Reachable(s: State, b: nat) { b in s.pool || Owned(s, b) }

  /** Reading and writing take the lock of each block by its id. Every id that a
      file has or may get has a lock exactly when the device has no more blocks
      than there are locks. */
  lemma LocksSuffice(s: State)
    requires Inv(s) && NoneLost(s)
    ensures (forall b: nat {:trigger Reachable(s, b)} :: Reachable(s, b) ==> b < BLOCK_LOCKS) <==> s.num <= BLOCK_LOCKS
  {
    hide DirsOK, IndexOK, FdsOK, NoDup;
    forall b: nat | Owned(s, b) ensures b < s.num {
      var f :| f in s.files && b in s.files[f].ids;
      assert HasBlocks(s, f);
    }
    if s.num > BLOCK_LOCKS { assert Reachable(s, BLOCK_LOCKS); }
  }

  // ---------------------------------------------------------------- a shrink that fails

  /** The slot that a failed shrink leaves behind in memory. */
  function LeftHeir(s: State, f: nat, off: nat): FileMeta
    requires f in s.files && s.freeFhs != []
  {
    HeirSlot(s.tab, s.files[f], s.freeFhs[0], off / B * B)
  }

  /** Its old checksum happens to fit. */
  ghost predicate SealsAgree(s: State, f: nat, off: nat)
    requires f in s.files && s.freeFhs != []
  {
    LeftHeir(s, f, off) == SealFile(LeftHeir(s, f, off))
  }

  /** The memory and device tables after a failed shrink. */
  lemma LeakTables(s: State, f: nat, off: nat)
    requires Inv(s) && SlotsOK(s) && Persisted(s) && f in s.files && s.freeFhs != []
    ensures s.freeFhs[0] < |s.tab.mem.files|
    ensures var u := ShrinkLeak(s, f, off).tab;
      && u.disk == s.tab.mem && u.mem.files == s.tab.mem.files[s.freeFhs[0] := LeftHeir(s, f, off)]
  {
    hide Inv;
    assert FreeFile(s.tab, s.freeFhs[0]);
  }

  lemma HeirIsFile(s: State, f: nat, off: nat)
    requires Inv(s) && SlotsOK(s) && Persisted(s) && Named(s) && f in s.files && s.freeFhs != []
    ensures var m := LeftHeir(s, f, off);
      m.used && !m.isTemp && m.name != "" && m.fh == s.freeFhs[0] && DirUsed(s.tab.mem, m.dh)
  {
    hide Inv, SlotsOK, Persisted;
    InvHasBlocks(s, f);
    DirIsUsed(s, s.files[f].dh);
  }

  /** A shrink that fails for want of blocks leaves a changed slot in memory with
      its old checksum. When a neighbour `g` in the same page is next written with
      the slot `m` of a file, that slot reaches the device too: the device mounts
      exactly when the checksums of the old and the new contents agree. */
  lemma FailedShrinkPoisonsPage(s: State, f: nat, off: nat, g: nat, m: FileMeta)
    requires Inv(s) && SlotsOK(s) && Persisted(s) && Named(s) && f in s.files && s.freeFhs != []
    requires g < |s.tab.mem.files| && g / FILES_PER_PAGE == s.freeFhs[0] / FILES_PER_PAGE && g != s.freeFhs[0]
    requires m.used && !m.isTemp && m.name != "" && m.fh == g && DirUsed(s.tab.mem, m.dh)
    ensures MountImage(WriteFile(ShrinkLeak(s, f, off).tab, g, m).disk, s.num, s.dev).Some? <==> SealsAgree(s, f, off)
  {
    hide Inv, Named, SlotsOK, Persisted, MountImage, ShrinkLeak, LeftHeir, TempFree;
    var h := s.freeFhs[0];
    var img := s.tab.mem;
    LeakTables(s, f, off);
    HeirIsFile(s, f, off);
    LiveImage(s);
    OneSlotDecides(img, g, SealFile(m), s.num, s.dev);
    var next := img.(files := img.files[g := SealFile(m)]);
    StaysTempFree(img, g, SealFile(m));
    OneSlotDecides(next, h, LeftHeir(s, f, off), s.num, s.dev);
    assert next.files[h := LeftHeir(s, f, off)] == WriteFile(ShrinkLeak(s, f, off).tab, g, m).disk.files;
    assert next.(files := next.files[h := LeftHeir(s, f, off)]) == WriteFile(ShrinkLeak(s, f, off).tab, g, m).disk;
  }

  lemma StaysTempFree(img: Image, h: nat, m: FileMeta)
    requires TempFree(img) && h < |img.files| && !m.isTemp
    ensures TempFree(img.(files := img.files[h := m]))
  {
    var other := img.(files := img.files[h := m]);
    forall k: nat ensures !TempSlot(other, k) { assert k != h ==> !TempSlot(img, k); }
  }

  /** A file slot is written as it is in memory. */
  function Rewrite(tab: Tables, g: nat): Tables {
    WriteFile(tab, g, FileAt(tab, g))
  }

  lemma LeakThenRewrite(s: State, f: nat, off: nat, g: nat)
    requires Inv(s) && SlotsOK(s) && Persisted(s) && Named(s) && f in s.files && s.freeFhs != []
    requires g < |s.tab.mem.files|
    ensures MountImage(Rewrite(ShrinkLeak(s, f, off).tab, g).disk, s.num, s.dev).Some? <==>
      || SealsAgree(s, f, off) || g / FILES_PER_PAGE != s.freeFhs[0] / FILES_PER_PAGE || g == s.freeFhs[0]
  {
    hide Inv, Named, SlotsOK, MountImage, ShrinkLeak, LeftHeir, TempFree;
    var h := s.freeFhs[0];
    var img := s.tab.mem;
    var m := LeftHeir(s, f, off);
    var u := ShrinkLeak(s, f, off).tab;
    var disk := Rewrite(u, g).disk;
    LeakTables(s, f, off);
    HeirIsFile(s, f, off);
    LiveImage(s);
    assert FileSlotOK(s, g);
    if g == h {
      OneSlotDecides(img, h, SealFile(m), s.num, s.dev);
      assert disk.files == img.files[h := SealFile(m)];
    } else if g / FILES_PER_PAGE == h / FILES_PER_PAGE {
      OneSlotDecides(img, h, m, s.num, s.dev);
      assert disk.files == img.files[h := m];
    } else {
      assert disk.files == img.files;
    }
  }

  lemma DoneThenRewrite(t: State, g: nat)
    requires Inv(t) && SlotsOK(t) && Persisted(t) && Named(t) && g < |t.tab.mem.files|
    ensures MountImage(Rewrite(t.tab, g).disk, t.num, t.dev).Some?
  {
    hide Inv, Named, SlotsOK, MountImage;
    LiveImage(t);
    assert FileSlotOK(t, g);
    assert Rewrite(t.tab, g).disk.files == t.tab.disk.files;
  }

  /** A truncate call that shrinks a file, and then the write of any file slot `g`
      of any file: the device can be mounted exactly when the shrink had the file
      block slot and the block it needed, or the slot it left in memory is sealed
      by chance, lies in another page than `g`, or is `g` itself. */
  lemma FailedShrinkThenWrite(s: State, f: nat, off: nat, ids: seq<nat>, g: nat)
    requires Inv(s) && SlotsOK(s) && Persisted(s) && Named(s) && f in s.files && off < s.files[f].size
    requires TruncatePick(s, f, off, ids) && s.freeFhs != [] && g < |s.tab.mem.files|
    ensures var t := Truncate(s, f, off, ids).0;
      MountImage(Rewrite(t.tab, g).disk, s.num, t.dev).Some? <==>
        || !ShrinkLeaks(s, off) || SealsAgree(s, f, off)
        || g / FILES_PER_PAGE != s.freeFhs[0] / FILES_PER_PAGE || g == s.freeFhs[0]
  {
    hide Inv, Named, SlotsOK, Persisted, MountImage, ShrinkLeak, ShrinkLeaks, ShrinkDone, ShrinkReady, Rewrite,
         SealsAgree;
    if ShrinkLeaks(s, off) {
      LeakThenRewrite(s, f, off, g);
      assert ShrinkLeak(s, f, off).dev == s.dev by { LeakKeepsDev(s, f, off); }
    } else {
      var t := Truncate(s, f, off, ids).0;
      TruncateKeeps(s, f, off, ids);
      TruncateTables(s, f, off, ids);
      TruncateFileNames(s, f, off, ids);
      KeptNames(s, t);
      ShrunkSize(s, f, off, ids);
      DoneThenRewrite(t, g);
    }
  }

  lemma LeakKeepsDev(s: State, f: nat, off: nat)
    requires f in s.files && s.freeFhs != []
    ensures ShrinkLeak(s, f, off).dev == s.dev
  { }

  lemma ShrunkSize(s: State, f: nat, off: nat, ids: seq<nat>)
    requires Inv(s) && SlotsOK(s) && f in s.files && off < s.files[f].size && TruncatePick(s, f, off, ids)
    requires s.freeFhs != [] && !ShrinkLeaks(s, off)
    ensures var (t, out) := Truncate(s, f, off, ids);
      out == Done && t.num == s.num && |t.tab.mem.files| == |s.tab.mem.files|
  {
    hide Inv, SlotsOK, ShrinkReady, ShrinkWrites, CopyPrefix;
    var tail := if ids == [] then 0 else ids[0];
    ShrinkIsReady(s, f, off, tail);
    ShrunkIsShown(s, f, off, tail);
  }
}
