/** Mounting what a run has left on the device rebuilds the state of the run. */
module Remount {
  import opened Geometry
  import opened Slots
  import opened Paths
  import opened DirTree
  import opened Store
  import opened Contents
  import opened Persist
  import opened Mount
  import opened MountProofs

  // ---------------------------------------------------------------- the image of a state is consistent

  lemma UsedFileIsLive(s: State, h: nat)
    requires Sound(s) && SlotsOK(s) && Persisted(s) && FileUsed(s.tab.mem, h)
    ensures h in s.byFh && s.byFh[h] in s.files && s.files[s.byFh[h]].fh == h && FileShown(s.tab, s.files[s.byFh[h]])
  {
    hide DirsOK, FdsOK;
    assert FileSlotOK(s, h) && FhOK(s, h) && Shown(s, s.byFh[h]);
  }

  lemma LiveFileIsUsed(s: State, h: nat)
    requires Sound(s) && SlotsOK(s) && h in s.byFh
    ensures FileUsed(s.tab.mem, h) && s.byFh[h] in s.files && s.files[s.byFh[h]].fh == h
    ensures FileShown(s.tab, s.files[s.byFh[h]])
  {
    hide DirsOK, FdsOK;
    assert FhOK(s, h) && Shown(s, s.byFh[h]);
  }

  lemma UsedBlockIsOwned(s: State, i: nat) returns (f: nat)
    requires Sound(s) && SlotsOK(s) && Persisted(s) && i < |s.tab.mem.blocks| && s.tab.mem.blocks[i].used
    ensures f in s.files && s.files[f].fb == Some(i) && BlockShown(s.tab, s.files[f]) && FileShown(s.tab, s.files[f])
    ensures ListsBlocks(s.files[f], s.num) && NotFree(s.files[f], s.freeFbs, s.pool)
    ensures BlockUsed(s.tab.mem, i)
  {
    hide DirsOK, IndexOK, FdsOK;
    assert BlockSlotOK(s, i);
    f :| f in s.files && s.files[f].fb == Some(i);
    assert Shown(s, f) && HasLists(s, f);
  }

  lemma UsedDirIsLive(s: State, h: nat)
    requires Sound(s) && SlotsOK(s) && Persisted(s)
    ensures DirUsed(s.tab.mem, h) <==> h in s.tree.names
    ensures h in s.tree.names ==> s.tab.mem.dirs[h].name == s.tree.names[h] && s.tab.mem.dirs[h].dh == h
    ensures h in s.tree.names ==>
      NameOK(s.tree, h) && PathOK(s.tree, s.tree.names[h]) && |s.tree.names[h]| < MAX_DIR_NAME
  {
    hide IndexOK, FdsOK, GetDirName, IsMountPoint;
    if h in s.tree.names { assert DirShown(s, h) && NameOK(s.tree, h); }
    if DirUsed(s.tab.mem, h) { assert DirSlotOK(s, h); }
  }

  lemma ImageIsTempFree(s: State)
    requires Sound(s) && SlotsOK(s) && Persisted(s)
    ensures TempFree(s.tab.mem)
  {
    hide Sound, SlotsOK, Persisted;
    forall h: nat ensures !TempSlot(s.tab.mem, h) { if TempSlot(s.tab.mem, h) { TempIsNotLive(s, h); } }
    forall i: nat | i < |s.tab.mem.blocks| && s.tab.mem.blocks[i].used ensures !s.tab.mem.blocks[i].isTemp {
      var f := UsedBlockIsOwned(s, i);
    }
  }

  lemma TempIsNotLive(s: State, h: nat)
    requires Sound(s) && SlotsOK(s) && Persisted(s)
    ensures !TempSlot(s.tab.mem, h)
  {
    hide DirsOK, FdsOK;
    if TempSlot(s.tab.mem, h) {
      assert FileSlotOK(s, h);
      LiveFileIsUsed(s, h);
    }
  }

  lemma DirImageOK(s: State)
    requires Sound(s) && SlotsOK(s) && Persisted(s)
    ensures DirsGood(s.tab.mem, |s.tab.mem.dirs|) && ParentsGood(s.tab.mem)
  {
    hide Sound, SlotsOK, GetDirName, IsMountPoint;
    var img := s.tab.mem;
    forall h: nat | h < |img.dirs| ensures DirSlotGood(img, h) {
      assert DirSlotOK(s, h);
      UsedDirIsLive(s, h);
      forall k: nat | k < h && DirUsed(img, k) ensures img.dirs[k].name != img.dirs[h].name || !img.dirs[h].used {
        UsedDirIsLive(s, k);
      }
    }
    forall h: nat ensures DirHeld(img, h) {
      UsedDirIsLive(s, h);
      if DirUsed(img, h) && !IsMountPoint(img.dirs[h].name) {
        var up := GetDirName(img.dirs[h].name);
        var k := s.tree.byPath[up];
        PathIsLive(s, up);
        UsedDirIsLive(s, k);
        assert DirUsed(img, k);
      }
    }
  }

  lemma PathIsLive(s: State, p: string)
    requires Sound(s) && p in s.tree.byPath
    ensures s.tree.byPath[p] in s.tree.names && s.tree.names[s.tree.byPath[p]] == p
  {
    hide GetDirName;
    assert PathOK(s.tree, p);
  }

  /** The file slots are good except for what Named asks. */
  lemma FileImageOK(s: State)
    requires Sound(s) && SlotsOK(s) && Persisted(s)
    ensures FilesGood(s.tab.mem, |s.tab.mem.files|) <==> Named(s)
  {
    hide SlotsOK, TreeOK, FdsOK;
    var img := s.tab.mem;
    if Named(s) {
      forall h: nat | h < |img.files| ensures FileSlotGood(img, h) { FileSlotImageOK(s, h); }
    } else {
      var f :| f in s.files && s.files[f].name == "";
      assert Shown(s, f) by { BlockOfLive(s, f); }
      assert !FileSlotGood(img, s.files[f].fh);
    }
  }

  lemma FileSlotImageOK(s: State, h: nat)
    requires Sound(s) && SlotsOK(s) && Persisted(s) && Named(s) && h < |s.tab.mem.files|
    ensures FileSlotGood(s.tab.mem, h)
  {
    hide SlotsOK, TreeOK, FdsOK;
    var img := s.tab.mem;
    assert FileSlotOK(s, h);
    if FileUsed(img, h) {
      UsedFileIsLive(s, h);
      assert Indexed(s, s.byFh[h]);
      UsedDirIsLive(s, img.files[h].dh);
    }
  }

  lemma BlockImageOK(s: State)
    requires Sound(s) && SlotsOK(s) && Persisted(s)
    ensures BlocksGood(s.tab.mem, s.num, |s.tab.mem.blocks|)
  {
    hide Sound, SlotsOK;
    var img := s.tab.mem;
    forall i: nat | i < |img.blocks| ensures BlockSlotGood(img, s.num, i) {
      assert BlockSlotOK(s, i);
      if BlockUsed(img, i) {
        var f := UsedBlockIsOwned(s, i);
        assert FileUsed(img, img.blocks[i].fh);
        forall j: nat ensures BlocksNew(img, i, j) {
          if j < i && BlockUsed(img, j) {
            var g := UsedBlockIsOwned(s, j);
            FilesAreApart(s, f, g);
          }
        }
      }
    }
  }

  lemma FilesAreApart(s: State, f: nat, g: nat)
    requires Sound(s) && f in s.files && g in s.files && f != g
    ensures Apart(s.files[f], s.files[g])
  {
    assert FilesApart(s, f, g);
  }

  /** What a leak-free run leaves on the device is accepted by a mount exactly
      when every file still has a name. */
  lemma PersistedMounts(s: State)
    requires Sound(s) && SlotsOK(s) && Persisted(s)
    ensures TempFree(s.tab.disk) && (MountImage(s.tab.disk, s.num, s.dev).Some? <==> Named(s))
  {
    hide Sound, SlotsOK, MountImage, Named, DirsGood, ParentsGood, FilesGood, BlocksGood;
    ImageIsTempFree(s);
    DirImageOK(s);
    FileImageOK(s);
    BlockImageOK(s);
    MountAcceptsIff(s.tab.mem, s.num, s.dev);
  }

  // ---------------------------------------------------------------- and gives the state back

  /** `m` is `s` up to the identity of file objects, the order of free lists, and
      file and directory slots that `s` had not put back. */
  ghost predicate Rebuilt(s: State, m: State) {
    && m.tree == s.tree && m.num == s.num && m.dev == s.dev && m.tab == s.tab
    && m.pool == s.pool && m.open == map[]
    && RebuiltFiles(s, m)
    && (forall i: nat :: i in m.freeFbs <==> i in s.freeFbs)
    && (forall h: nat :: h in s.freeFhs ==> h in m.freeFhs)
    && (forall h: nat :: h in m.freeFhs ==> h !in m.byFh && FreeHandle(m.tab, h))
    && (forall h: nat :: h in s.freeDhs ==> h in m.freeDhs)
    && (forall h: nat :: h in m.freeDhs ==> h !in m.tree.names && h < |m.tab.mem.dirs|)
    && (forall h :: h in m.files ==> h < m.nextId)
    && NoDup(m.freeFbs) && NoDup(m.freeFhs) && NoDup(m.freeDhs) && NoDup(m.freeFds)
  }

  ghost predicate FreeHandle(tab: Tables, h: nat) {
    h < |tab.mem.files| && !tab.mem.files[h].used
  }

  /** The same names, handles, directories, sizes and block lists. */
  ghost predicate RebuiltFiles(s: State, m: State) {
    && (forall h: nat {:trigger RebuiltFile(s, m, h)} :: RebuiltFile(s, m, h))
    && (forall k {:trigger RebuiltName(s, m, k)} :: RebuiltName(s, m, k))
    && m.inDir.Keys == s.inDir.Keys
    && (forall d: nat, h: nat {:trigger RebuiltItem(s, m, d, h)} :: RebuiltItem(s, m, d, h))
  }

  ghost predicate RebuiltFile(s: State, m: State, h: nat) {
    && (h in m.byFh <==> h in s.byFh) && (h in m.files <==> h in s.byFh)
    && (h in s.byFh ==>
         s.byFh[h] in s.files && m.byFh[h] == h && m.files[h] == s.files[s.byFh[h]].(nlink := 0, deleted := false))
  }

  ghost predicate RebuiltName(s: State, m: State, k: (nat, string)) {
    && (k in m.byName <==> k in s.byName)
    && (k in s.byName ==> s.byName[k] in s.files && m.byName[k] == s.files[s.byName[k]].fh)
  }

  ghost predicate RebuiltItem(s: State, m: State, d: nat, h: nat) {
    && (d in m.inDir && h in m.inDir[d] <==> d in s.inDir && h in s.inDir[d])
    && (d in m.inDir && h in m.inDir[d] ==> m.inDir[d][h] == h)
  }

  lemma TreeRebuilt(s: State, m: State)
    requires Sound(s) && SlotsOK(s) && Persisted(s) && TempFree(s.tab.mem)
    requires MountImage(s.tab.mem, s.num, s.dev) == Some(m)
    ensures m.tree == s.tree
    ensures forall h: nat :: h in m.freeDhs <==> h < |s.tab.mem.dirs| && h !in s.tree.names
    ensures NoDup(m.freeDhs)
  {
    hide Sound, SlotsOK, Persisted, GetDirName, IsMountPoint, MountImage, TempFree;
    var img := s.tab.mem;
    MountedDirs(img, s.num, s.dev);
    var d := ScanDirs(img.dirs, |img.dirs|).value;
    LinkDirsIff(img, d);
    forall h: nat ensures h in d.names <==> h in s.tree.names
      ensures h in d.names ==> d.names[h] == s.tree.names[h]
      ensures h in d.free <==> h < |img.dirs| && h !in s.tree.names
    {
      UsedDirIsLive(s, h);
      assert DirScanned(img, |img.dirs|, d, h);
    }
    assert d.names == s.tree.names;
    forall p ensures p in d.byPath <==> p in s.tree.byPath
      ensures p in d.byPath ==> d.byPath[p] == s.tree.byPath[p]
    {
      PathRebuilt(s, d, p);
    }
    assert d.byPath == s.tree.byPath;
    KidsRebuilt(s, d);
  }

  lemma PathRebuilt(s: State, d: DirScan, p: string)
    requires Sound(s) && DirsScanned(s.tab.mem, |s.tab.mem.dirs|, d) && d.names == s.tree.names
    ensures p in d.byPath <==> p in s.tree.byPath
    ensures p in d.byPath ==> d.byPath[p] == s.tree.byPath[p]
  {
    hide GetDirName, IsMountPoint;
    assert PathScanned(d, p);
    if p in d.byPath { assert NameOK(s.tree, d.byPath[p]); }
    if p in s.tree.byPath {
      assert PathOK(s.tree, p);
      assert DirScanned(s.tab.mem, |s.tab.mem.dirs|, d, s.tree.byPath[p]);
    }
  }

  lemma KidsRebuilt(s: State, d: DirScan)
    requires Sound(s) && d.names == s.tree.names && LinkDirs(d).Some?
    ensures LinkDirs(d).value.kids == s.tree.kids
  {
    hide GetDirName, IsMountPoint, IndexOK, FdsOK, HasParent;
    var kids := LinkDirs(d).value.kids;
    assert kids.Keys == s.tree.kids.Keys;
    forall h | h in kids ensures kids[h] == s.tree.kids[h] {
      forall c: nat ensures c in kids[h] <==> c in s.tree.kids[h] { assert KidOK(s.tree, h, c); }
    }
  }

  lemma FileRebuilt(s: State, m: State, h: nat)
    requires Sound(s) && SlotsOK(s) && Persisted(s) && TempFree(s.tab.mem)
    requires MountImage(s.tab.mem, s.num, s.dev) == Some(m)
    ensures RebuiltFile(s, m, h)
    ensures h in m.freeFhs <==> h < |s.tab.mem.files| && !s.tab.mem.files[h].used
  {
    hide Sound, SlotsOK, Persisted, MountImage, TempFree, ScanFiles, ScanBlocks;
    var img := s.tab.mem;
    MountedParts(img, s.num, s.dev);
    var r := ScanFiles(Tables(img, img), m.tree.names.Keys, |img.files|).value;
    var b := ScanBlocks(Tables(img, img), r.files, r.byFh, s.num, |img.blocks|).value;
    assert FileScanned(img, |img.files|, r, h) && FbScanned(img, |img.blocks|, r.files, b, h);
    if FileUsed(img, h) { UsedFileIsLive(s, h); }
    if h in s.byFh {
      LiveFileIsUsed(s, h);
      FbRebuilt(s, r.files, b, h);
    }
  }

  lemma FbRebuilt(s: State, files: map<nat, File>, b: BlockScan, h: nat)
    requires Sound(s) && SlotsOK(s) && Persisted(s) && h in s.byFh && s.byFh[h] in s.files && s.files[s.byFh[h]].fh == h
    requires BlocksScanned(s.tab.mem, Tables(s.tab.mem, s.tab.mem), s.num, |s.tab.mem.blocks|, files, b)
    requires h in files && files[h].fb == None && files[h].ids == []
    ensures h in b.files && b.files[h].fb == s.files[s.byFh[h]].fb && b.files[h].ids == s.files[s.byFh[h]].ids
  {
    hide Sound, SlotsOK, Persisted;
    var img := s.tab.mem;
    var x := s.files[s.byFh[h]];
    assert FbScanned(img, |img.blocks|, files, b, h);
    BlockOfLive(s, s.byFh[h]);
    var own := if x.fb.Some? then x.fb.value else 0;
    assert SlotScanned(img, |img.blocks|, b, own) && (x.fb.Some? ==> BlockUsed(img, own));
    if b.files[h].fb.Some? {
      var g := UsedBlockIsOwned(s, b.files[h].fb.value);
      SameHandle(s, g, s.byFh[h]);
    }
  }

  lemma SameHandle(s: State, f: nat, g: nat)
    requires Sound(s) && f in s.files && g in s.files && s.files[f].fh == s.files[g].fh
    ensures f == g
  {
    assert Indexed(s, f) && Indexed(s, g);
  }

  lemma BlockOfLive(s: State, f: nat)
    requires Sound(s) && SlotsOK(s) && f in s.files
    ensures BlockShown(s.tab, s.files[f]) && FileShown(s.tab, s.files[f])
    ensures s.files[f].fb.None? ==> s.files[f].ids == []
    ensures Indexed(s, f)
  {
    assert Shown(s, f) && HasLists(s, f);
  }

  lemma NameRebuilt(s: State, m: State, k: (nat, string))
    requires Sound(s) && SlotsOK(s) && Persisted(s) && TempFree(s.tab.mem)
    requires MountImage(s.tab.mem, s.num, s.dev) == Some(m)
    requires forall h: nat {:trigger RebuiltFile(s, m, h)} :: RebuiltFile(s, m, h)
    ensures RebuiltName(s, m, k)
  {
    hide DirsOK, FdsOK, SlotsOK, Persisted, MountImage, TempFree, ScanFiles, ScanBlocks;
    var img := s.tab.mem;
    MountedParts(img, s.num, s.dev);
    var r := ScanFiles(Tables(img, img), m.tree.names.Keys, |img.files|).value;
    assert NameScanned(r, k);
    if k in m.byName {
      var h := m.byName[k];
      assert RebuiltFile(s, m, h) && FileScanned(img, |img.files|, r, h);
      LiveFileIsUsed(s, h);
      assert Indexed(s, s.byFh[h]);
    }
    if k in s.byName {
      assert NameKeyOK(s, k);
      var f := s.byName[k];
      assert Indexed(s, f);
      var h := s.files[f].fh;
      LiveFileIsUsed(s, h);
      assert FileScanned(img, |img.files|, r, h) && RebuiltFile(s, m, h);
    }
  }

  lemma ItemRebuilt(s: State, m: State, d: nat, h: nat)
    requires Sound(s) && SlotsOK(s) && Persisted(s) && TempFree(s.tab.mem)
    requires MountImage(s.tab.mem, s.num, s.dev) == Some(m)
    requires forall h: nat {:trigger RebuiltFile(s, m, h)} :: RebuiltFile(s, m, h)
    requires m.tree == s.tree
    ensures m.inDir.Keys == s.inDir.Keys && RebuiltItem(s, m, d, h)
  {
    hide FdsOK, TreeOK, SlotsOK, Persisted, MountImage, TempFree, ScanFiles, ScanBlocks;
    var img := s.tab.mem;
    MountedParts(img, s.num, s.dev);
    var r := ScanFiles(Tables(img, img), m.tree.names.Keys, |img.files|).value;
    assert ItemScanned(img, r, d, h) && RebuiltFile(s, m, h);
    if d in m.inDir && h in m.inDir[d] {
      LiveFileIsUsed(s, h);
      assert Indexed(s, s.byFh[h]);
    }
    if d in s.inDir && h in s.inDir[d] {
      assert ItemOK(s, d, h) && FhOK(s, h);
      LiveFileIsUsed(s, h);
      assert FileScanned(img, |img.files|, r, h);
    }
  }

  lemma PoolRebuilt(s: State, m: State)
    requires Sound(s) && NoneLost(s) && SlotsOK(s) && Persisted(s) && TempFree(s.tab.mem)
    requires MountImage(s.tab.mem, s.num, s.dev) == Some(m)
    ensures m.pool == s.pool
    ensures forall i: nat :: i in m.freeFbs <==> i in s.freeFbs
    ensures NoDup(m.freeFbs) && NoDup(m.freeFhs)
  {
    hide Sound, SlotsOK, Persisted, MountImage, TempFree, ScanFiles, ScanBlocks, NoDup;
    var img := s.tab.mem;
    MountedParts(img, s.num, s.dev);
    var n := |img.blocks|;
    var r := ScanFiles(Tables(img, img), m.tree.names.Keys, |img.files|).value;
    var b := ScanBlocks(Tables(img, img), r.files, r.byFh, s.num, n).value;
    forall x: nat ensures x in m.pool <==> x in s.pool {
      assert PoolScanned(img, s.num, n, b, x);
      FreeIffUnlisted(s, x);
    }
    forall i: nat ensures i in m.freeFbs <==> i in s.freeFbs {
      assert SlotScanned(img, n, b, i);
      FreeBlockSlots(s, i);
    }
  }

  lemma FreeBlockSlots(s: State, i: nat)
    requires SlotsOK(s) && Persisted(s)
    ensures i in s.freeFbs <==> i < |s.tab.mem.blocks| && !s.tab.mem.blocks[i].used
  {
    if i in s.freeFbs { assert FreeBlock(s.tab, i); }
    if i < |s.tab.mem.blocks| { assert BlockSlotOK(s, i); }
  }

  lemma FreeIffUnlisted(s: State, x: nat)
    requires Sound(s) && NoneLost(s) && SlotsOK(s) && Persisted(s)
    ensures x in s.pool <==> x < s.num && !Listed(s.tab.mem, |s.tab.mem.blocks|, x)
  {
    hide DirsOK, IndexOK, FdsOK, SlotsOK, Persisted;
    var img := s.tab.mem;
    if Listed(img, |img.blocks|, x) {
      var j: nat :| j < |img.blocks| && BlockUsed(img, j) && x in img.blocks[j].ids;
      var f := UsedBlockIsOwned(s, j);
    }
    if x < s.num && x !in s.pool {
      assert Owned(s, x);
      var f :| f in s.files && x in s.files[f].ids;
      BlockOfLive(s, f);
      assert BlockUsed(img, s.files[f].fb.value);
    }
  }

  /** The remount theorem: mounting the device of a state that it shows succeeds
      exactly when every file has a name, and rebuilds the directories, files,
      block lists, free blocks and free file block slots of the state. */
  lemma RemountRebuilds(s: State)
    requires Sound(s) && NoneLost(s) && SlotsOK(s) && Persisted(s)
    ensures MountImage(s.tab.disk, s.num, s.dev).Some? <==> Named(s)
    ensures Named(s) ==> Rebuilt(s, MountImage(s.tab.disk, s.num, s.dev).value)
  {
    hide Sound, NoneLost, SlotsOK, MountImage, NoDup, Named;
    PersistedMounts(s);
    if Named(s) { MountedIsRebuilt(s, MountImage(s.tab.disk, s.num, s.dev).value); }
  }

  lemma MountedIsRebuilt(s: State, m: State)
    requires Sound(s) && NoneLost(s) && SlotsOK(s) && Persisted(s) && TempFree(s.tab.mem)
    requires MountImage(s.tab.mem, s.num, s.dev) == Some(m)
    ensures Rebuilt(s, m)
  {
    hide Sound, NoneLost, SlotsOK, MountImage, NoDup;
    TreeRebuilt(s, m);
    PoolRebuilt(s, m);
    forall h: nat ensures RebuiltFile(s, m, h)
      ensures h in m.freeFhs <==> h < |s.tab.mem.files| && !s.tab.mem.files[h].used
    {
      FileRebuilt(s, m, h);
    }
    forall k ensures RebuiltName(s, m, k) { NameRebuilt(s, m, k); }
    forall d: nat, h: nat ensures m.inDir.Keys == s.inDir.Keys && RebuiltItem(s, m, d, h) { ItemRebuilt(s, m, d, h); }
    assert RebuiltItem(s, m, 0, 0);
    FreeSlotsFound(s, m);
    MountShape(s, m);
    forall h | h in m.files ensures h < m.nextId {
      assert RebuiltFile(s, m, h);
      LiveFileIsUsed(s, h);
    }
  }

  lemma FreeSlotsFound(s: State, m: State)
    requires Sound(s) && SlotsOK(s) && RebuiltFiles(s, m)
    requires forall h: nat :: h in m.freeFhs <==> h < |s.tab.mem.files| && !s.tab.mem.files[h].used
    requires forall h: nat :: h in m.freeDhs <==> h < |s.tab.mem.dirs| && h !in s.tree.names
    ensures forall h: nat :: h in s.freeFhs ==> h in m.freeFhs
    ensures forall h: nat :: h in s.freeDhs ==> h in m.freeDhs
    ensures forall h: nat :: h in m.freeFhs ==> h !in m.byFh
  {
    hide TreeOK, IndexOK, FdsOK;
    forall h: nat | h in s.freeFhs ensures h in m.freeFhs { assert FreeFile(s.tab, h); }
    forall h: nat | h in s.freeDhs ensures h in m.freeDhs { assert FreeDir(s.tab, h); }
    forall h: nat | h in m.freeFhs ensures h !in m.byFh {
      assert RebuiltFile(s, m, h);
      if h in s.byFh { LiveFileIsUsed(s, h); }
    }
  }

  lemma MountShape(s: State, m: State)
    requires Sound(s) && SlotsOK(s) && Persisted(s) && TempFree(s.tab.mem)
    requires MountImage(s.tab.mem, s.num, s.dev) == Some(m)
    ensures m.num == s.num && m.dev == s.dev && m.open == map[] && m.tab == s.tab
    ensures m.nextId == |s.tab.mem.files| && NoDup(m.freeFds)
  {
    hide Sound, SlotsOK, ScanDirs, ScanFiles, ScanBlocks, LinkDirs;
    var img := s.tab.mem;
    MountedParts(img, s.num, s.dev);
  }

  // ---------------------------------------------------------------- a rebuilt state is a good one

  lemma RebuiltIndexed(s: State, m: State, h: nat)
    requires Sound(s) && Rebuilt(s, m) && h in m.files
    ensures Indexed(m, h) && FhOK(m, h) && LinksOK(m, h)
  {
    hide DirsOK, NoDup;
    assert RebuiltFile(s, m, h) && FhOK(s, h);
    assert Indexed(s, s.byFh[h]);
    assert RebuiltName(s, m, Key(m.files[h])) && RebuiltItem(s, m, m.files[h].dh, h);
  }

  lemma KeyRebuilt(s: State, m: State, k: (nat, string))
    requires Sound(s) && Rebuilt(s, m) && k in m.byName
    ensures NameKeyOK(m, k)
  {
    hide DirsOK, NoDup;
    assert RebuiltName(s, m, k) && NameKeyOK(s, k) && Indexed(s, s.byName[k]);
    assert RebuiltFile(s, m, m.byName[k]);
  }

  lemma RebuiltIndex(s: State, m: State)
    requires Sound(s) && Rebuilt(s, m)
    ensures IndexOK(m) && FdsOK(m)
  {
    hide DirsOK, NoDup, Indexed, NameKeyOK, LinksOK;
    forall h | h in m.files ensures Indexed(m, h) && LinksOK(m, h) { RebuiltIndexed(s, m, h); }
    forall h | h in m.byFh ensures FhOK(m, h) {
      assert RebuiltFile(s, m, h) && FhOK(s, h);
      RebuiltIndexed(s, m, h);
    }
    forall k | k in m.byName ensures NameKeyOK(m, k) { KeyRebuilt(s, m, k); }
    forall d, h | d in m.inDir && h in m.inDir[d] ensures ItemOK(m, d, h) {
      assert RebuiltItem(s, m, d, h) && ItemOK(s, d, h) && RebuiltFile(s, m, h);
    }
  }

  lemma RebuiltBlocks(s: State, m: State)
    requires Inv(s) && NoneLost(s) && Rebuilt(s, m)
    ensures BlocksOK(m) && NoneLost(m) && (Conserved(s) ==> Conserved(m))
  {
    hide DirsOK, TreeOK, NoDup;
    forall h | h in m.files ensures HasBlocks(m, h) && (Conserved(s) ==> SizedRight(m, h)) {
      assert RebuiltFile(s, m, h) && HasBlocks(s, s.byFh[h]);
      assert Conserved(s) ==> SizedRight(s, s.byFh[h]);
    }
    forall g, h | g in m.files && h in m.files && g != h ensures FilesApart(m, g, h) {
      assert RebuiltFile(s, m, g) && RebuiltFile(s, m, h) && FhOK(s, g) && FhOK(s, h);
      assert FilesApart(s, s.byFh[g], s.byFh[h]);
    }
    forall b: nat | b < m.num && b !in m.pool ensures Owned(m, b) {
      assert Owned(s, b);
      var f :| f in s.files && b in s.files[f].ids;
      assert Indexed(s, f) && RebuiltFile(s, m, s.files[f].fh);
      assert b in m.files[s.files[f].fh].ids;
    }
  }

  /** Soundness survives a mount even when sizes and blocks do not match. */
  lemma RebuiltIsSound(s: State, m: State)
    requires Sound(s) && Rebuilt(s, m)
    ensures Sound(m)
  {
    hide TreeOK, IndexOK, FdsOK, NoDup;
    RebuiltIndex(s, m);
    forall h | h in m.files ensures HasLists(m, h) {
      assert RebuiltFile(s, m, h) && HasLists(s, s.byFh[h]);
    }
    forall g, h | g in m.files && h in m.files && g != h ensures FilesApart(m, g, h) {
      assert RebuiltFile(s, m, g) && RebuiltFile(s, m, h);
      HandleOf(s, g);
      HandleOf(s, h);
      assert FilesApart(s, s.byFh[g], s.byFh[h]);
    }
  }

  lemma HandleOf(s: State, h: nat)
    requires Sound(s) && h in s.byFh
    ensures s.byFh[h] in s.files && s.files[s.byFh[h]].fh == h
  {
    assert FhOK(s, h);
  }

  lemma RebuiltSlots(s: State, m: State)
    requires Inv(s) && SlotsOK(s) && Persisted(s) && Rebuilt(s, m)
    ensures SlotsOK(m) && Persisted(m)
  {
    hide TreeOK, BlocksOK, FdsOK, NoDup;
    forall h | h in m.files ensures Shown(m, h) {
      assert RebuiltFile(s, m, h) && Shown(s, s.byFh[h]);
    }
    forall h | h in m.tree.names ensures DirShown(m, h) { assert DirShown(s, h); }
    forall h | h in m.freeFhs ensures FreeFile(m.tab, h) { assert FileSlotOK(s, h); }
    forall i | i in m.freeFbs ensures FreeBlock(m.tab, i) { assert FreeBlock(s.tab, i); }
    forall h | h in m.freeDhs ensures FreeDir(m.tab, h) { assert DirSlotOK(s, h); }
    forall h: nat | h < |m.tab.mem.files| ensures FileSlotOK(m, h) { assert FileSlotOK(s, h) && RebuiltFile(s, m, h); }
    forall h: nat | h < |m.tab.mem.dirs| ensures DirSlotOK(m, h) { assert DirSlotOK(s, h); }
    forall i: nat | i < |m.tab.mem.blocks| ensures BlockSlotOK(m, i) {
      assert BlockSlotOK(s, i);
      if m.tab.mem.blocks[i].used {
        var f :| f in s.files && s.files[f].fb == Some(i);
        assert Indexed(s, f) && RebuiltFile(s, m, s.files[f].fh);
        assert m.files[s.files[f].fh].fb == Some(i);
      }
    }
  }

  /** A remounted file system satisfies every invariant again, so runs, unmounts
      and mounts can follow each other. */
  lemma RemountIsGood(s: State, m: State)
    requires Inv(s) && NoneLost(s) && SlotsOK(s) && Persisted(s) && MountImage(s.tab.disk, s.num, s.dev) == Some(m)
    ensures Inv(m) && NoneLost(m) && SlotsOK(m) && Persisted(m) && Named(m)
    ensures Conserved(s) ==> Conserved(m)
  {
    hide TreeOK, IndexOK, BlocksOK, FdsOK, Sound, SlotsOK, Persisted, RebuiltFiles, MountImage, NoDup, Named;
    InvIsSound(s);
    RemountRebuilds(s);
    RebuiltIndex(s, m);
    RebuiltBlocks(s, m);
    RebuiltSlots(s, m);
    RebuiltNames(s, m);
    assert m.inDir.Keys == s.inDir.Keys by { RebuiltDirs(s, m); }
  }

  lemma RebuiltNames(s: State, m: State)
    requires Rebuilt(s, m) && Named(s)
    ensures Named(m)
  {
    hide NoDup;
    forall h | h in m.files ensures m.files[h].name != "" { assert RebuiltFile(s, m, h); }
  }

  lemma RebuiltDirs(s: State, m: State)
    requires RebuiltFiles(s, m)
    ensures m.inDir.Keys == s.inDir.Keys
  { }

  /** Every file is found under its name again, with its size and its bytes. */
  lemma RemountKeepsContents(s: State, m: State, k: (nat, string))
    requires Sound(s) && NoneLost(s) && SlotsOK(s) && Persisted(s) && MountImage(s.tab.disk, s.num, s.dev) == Some(m)
    ensures k in m.byName <==> k in s.byName
    ensures k in s.byName ==>
      && s.byName[k] in s.files && m.byName[k] in m.files
      && m.files[m.byName[k]].size == s.files[s.byName[k]].size && m.files[m.byName[k]].ids == s.files[s.byName[k]].ids
      && ContentOf(m, m.byName[k]) == ContentOf(s, s.byName[k])
  {
    hide Sound, SlotsOK, Persisted, MountImage, NoDup, Bytes;
    RemountRebuilds(s);
    assert RebuiltName(s, m, k);
    if k in s.byName {
      NameIsLive(s, k);
      assert RebuiltFile(s, m, m.byName[k]);
    }
  }

  lemma NameIsLive(s: State, k: (nat, string))
    requires Sound(s) && k in s.byName
    ensures s.byName[k] in s.files && s.files[s.byName[k]].fh in s.byFh
    ensures s.byFh[s.files[s.byName[k]].fh] == s.byName[k]
  {
    hide TreeOK;
    assert NameKeyOK(s, k) && Indexed(s, s.byName[k]);
  }
}
