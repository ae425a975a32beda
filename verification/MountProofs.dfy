/** When a mount succeeds and what it then holds. */
module MountProofs {
  import opened Geometry
  import opened Slots
  import opened Paths
  import opened Store
  import opened Mount

  // ---------------------------------------------------------------- a consistent image

  ghost predicate DirUsed(img: Image, h: nat) { h < |img.dirs| && img.dirs[h].used }

  /** A file slot in use by a file that is not temporary. */
  ghost predicate FileUsed(img: Image, h: nat) { h < |img.files| && img.files[h].used && !img.files[h].isTemp }

  /** A temporary file's slot, which the mount clears. */
  ghost predicate TempSlot(img: Image, k: nat) { k < |img.files| && img.files[k].used && img.files[k].isTemp }

  /** One of the first `n` slots is a temporary file's and names slot `h`: clearing
      it seals slot `h`, whatever checksum that slot had. */
  ghost predicate MendedBefore(img: Image, n: nat, h: nat) {
    exists k: nat {:trigger TempSlot(img, k)} :: k < n && TempSlot(img, k) && img.files[k].fh == h
  }

  /** A file block slot in use by a file that is not temporary. */
  ghost predicate BlockUsed(img: Image, i: nat) { i < |img.blocks| && img.blocks[i].used && !img.blocks[i].isTemp }

  ghost predicate DirNamed(img: Image, p: string, n: nat) {
    exists k: nat {:trigger DirUsed(img, k)} :: k < n && DirUsed(img, k) && img.dirs[k].name == p
  }

  ghost predicate DirSlotGood(img: Image, h: nat) {
    h < |img.dirs| && var m := img.dirs[h];
    m == SealDir(m) && (m.used ==> m.name != "" && m.dh == h && !DirNamed(img, m.name, h))
  }

  ghost predicate DirHeld(img: Image, h: nat) {
    DirUsed(img, h) && |img.dirs[h].name| > 0 && !IsMountPoint(img.dirs[h].name) ==>
      var up := GetDirName(img.dirs[h].name); |up| < MAX_DIR_NAME && DirNamed(img, up, |img.dirs|)
  }

  /** The checksum of a slot that is mended before it is looked at does not count. */
  ghost predicate FileSlotGood(img: Image, h: nat) {
    h < |img.files| && var m := img.files[h];
    && (m == SealFile(m) || MendedBefore(img, h, h))
    && (FileUsed(img, h) ==> m.name != "" && m.fh == h && DirUsed(img, m.dh))
  }

  /** No earlier slot in use lists a block of slot `i`. */
  ghost predicate BlocksNew(img: Image, i: nat, j: nat) {
    i < |img.blocks| && j < i && BlockUsed(img, j) ==> forall b :: b in img.blocks[i].ids ==> b !in img.blocks[j].ids
  }

  ghost predicate BlockSlotGood(img: Image, num: nat, i: nat) {
    i < |img.blocks| && var m := img.blocks[i];
    m == SealBlock(m) &&
    (BlockUsed(img, i) ==>
      && 0 <= m.fh && FileUsed(img, m.fh)
      && |m.ids| <= C && NoDup(m.ids)
      && (forall b :: b in m.ids ==> b < num)
      && (forall j: nat {:trigger BlocksNew(img, i, j)} :: BlocksNew(img, i, j)))
  }

  ghost predicate DirsGood(img: Image, n: nat) {
    forall h: nat {:trigger DirSlotGood(img, h)} :: h < n ==> DirSlotGood(img, h)
  }

  ghost predicate ParentsGood(img: Image) {
    forall h: nat {:trigger DirHeld(img, h)} :: DirHeld(img, h)
  }

  ghost predicate FilesGood(img: Image, n: nat) {
    forall h: nat {:trigger FileSlotGood(img, h)} :: h < n ==> FileSlotGood(img, h)
  }

  ghost predicate BlocksGood(img: Image, num: nat, n: nat) {
    forall i: nat {:trigger BlockSlotGood(img, num, i)} :: i < n ==> BlockSlotGood(img, num, i)
  }

  /** Checksums match, names and handles are right, parents and owners exist, and
      no block is out of range or listed twice. */
  ghost predicate ImageOK(img: Image, num: nat) {
    DirsGood(img, |img.dirs|) && ParentsGood(img) && FilesGood(img, |img.files|) && BlocksGood(img, num, |img.blocks|)
  }

  ghost predicate TempFree(img: Image) {
    && (forall h: nat {:trigger TempSlot(img, h)} :: !TempSlot(img, h))
    && (forall i: nat {:trigger img.blocks[i]} :: i < |img.blocks| && img.blocks[i].used ==> !img.blocks[i].isTemp)
  }

  lemma NoneMended(img: Image, n: nat, h: nat)
    requires TempFree(img)
    ensures !MendedBefore(img, n, h)
    ensures h < |img.files| ==> (img.files[h].used <==> FileUsed(img, h))
  {
    assert !TempSlot(img, h);
  }

  // ---------------------------------------------------------------- directories

  /** What the scan of the first `n` slots says about directory slot `h`. */
  ghost predicate DirScanned(img: Image, n: nat, r: DirScan, h: nat) {
    && (h in r.names <==> h < n && DirUsed(img, h))
    && (h in r.names ==> r.names[h] == img.dirs[h].name && r.names[h] in r.byPath && r.byPath[r.names[h]] == h)
    && (h in r.free <==> h < n && h < |img.dirs| && !DirUsed(img, h))
  }

  ghost predicate PathScanned(r: DirScan, p: string) {
    p in r.byPath ==> r.byPath[p] in r.names && r.names[r.byPath[p]] == p
  }

  ghost predicate DirsScanned(img: Image, n: nat, r: DirScan) {
    && (forall h: nat {:trigger DirScanned(img, n, r, h)} :: DirScanned(img, n, r, h))
    && (forall p {:trigger PathScanned(r, p)} :: PathScanned(r, p))
    && NoDup(r.free)
  }

  lemma NamedIffPath(img: Image, n: nat, r: DirScan, p: string)
    requires DirsScanned(img, n, r)
    ensures p in r.byPath <==> DirNamed(img, p, n)
  {
    assert PathScanned(r, p);
    if p in r.byPath {
      assert DirScanned(img, n, r, r.byPath[p]);
      assert DirUsed(img, r.byPath[p]);
    }
    if DirNamed(img, p, n) {
      var k: nat :| k < n && DirUsed(img, k) && img.dirs[k].name == p;
      assert DirScanned(img, n, r, k);
    }
  }

  lemma ScanDirStep(img: Image, n: nat, r: DirScan)
    requires n < |img.dirs| && DirsScanned(img, n, r) && DirSlotGood(img, n)
    requires ScanDirs(img.dirs, n) == Some(r)
    ensures ScanDirs(img.dirs, n + 1).Some? && DirsScanned(img, n + 1, ScanDirs(img.dirs, n + 1).value)
  {
    var m := img.dirs[n];
    NamedIffPath(img, n, r, m.name);
    assert DirScanned(img, n, r, n);
    if !m.used { NoDupSnoc(r.free, n); }
    var t := ScanDirs(img.dirs, n + 1).value;
    var k := n + 1;
    forall h: nat ensures DirScanned(img, k, t, h) { assert DirScanned(img, n, r, h); }
    forall p ensures PathScanned(t, p) {
      assert PathScanned(r, p);
      if p in r.byPath { assert DirScanned(img, n, r, r.byPath[p]); }
    }
  }

  lemma {:induction false} ScanDirsIff(img: Image, n: nat)
    requires n <= |img.dirs|
    ensures ScanDirs(img.dirs, n).Some? <==> DirsGood(img, n)
    ensures ScanDirs(img.dirs, n).Some? ==> DirsScanned(img, n, ScanDirs(img.dirs, n).value)
  {
    if n == 0 {
      var r := ScanDirs(img.dirs, 0).value;
      forall h: nat ensures DirScanned(img, 0, r, h) { }
      forall p ensures PathScanned(r, p) { }
    } else {
      ScanDirsIff(img, n - 1);
      assert DirsGood(img, n) <==> DirsGood(img, n - 1) && DirSlotGood(img, n - 1);
      var r := ScanDirs(img.dirs, n - 1);
      if r.Some? {
        NamedIffPath(img, n - 1, r.value, img.dirs[n - 1].name);
        if DirSlotGood(img, n - 1) { ScanDirStep(img, n - 1, r.value); }
      }
    }
  }

  lemma LinkDirsIff(img: Image, r: DirScan)
    requires DirsScanned(img, |img.dirs|, r) && DirsGood(img, |img.dirs|)
    ensures LinkDirs(r).Some? <==> ParentsGood(img)
    ensures LinkDirs(r).Some? ==> LinkDirs(r).value.names == r.names && LinkDirs(r).value.byPath == r.byPath
  {
    hide GetDirName, IsMountPoint;
    forall h: nat ensures h in r.names ==> |r.names[h]| > 0 && (HasParent(r, r.names[h]) <==> DirHeld(img, h))
    {
      assert DirScanned(img, |img.dirs|, r, h);
      if h in r.names {
        assert DirSlotGood(img, h);
        NamedIffPath(img, |img.dirs|, r, GetDirName(r.names[h]));
      }
    }
    forall h: nat ensures h !in r.names ==> DirHeld(img, h) { assert DirScanned(img, |img.dirs|, r, h); }
  }

  // ---------------------------------------------------------------- files

  function FileOfSlot(img: Image, h: nat): File {
    if h < |img.files| then var m := img.files[h]; File(h, m.dh, m.name, m.size, None, [], 0, false)
    else File(h, 0, "", 0, None, [], 0, false)
  }

  /** What the scan of the first `n` slots says about file slot `h`. */
  ghost predicate FileScanned(img: Image, n: nat, r: FileScan, h: nat) {
    && (h in r.byFh <==> h < n && FileUsed(img, h))
    && (h in r.files <==> h in r.byFh)
    && (h in r.byFh ==>
          && r.byFh[h] == h && r.files[h] == FileOfSlot(img, h)
          && img.files[h].dh in r.inDir && h in r.inDir[img.files[h].dh]
          && (img.files[h].child <= 0 ==> Key(FileOfSlot(img, h)) in r.byName))
    && (h in r.free <==> h < n && h < |img.files| && !img.files[h].used)
  }

  ghost predicate NameScanned(r: FileScan, k: (nat, string)) {
    k in r.byName ==> r.byName[k] in r.files && Key(r.files[r.byName[k]]) == k
  }

  ghost predicate ItemScanned(img: Image, r: FileScan, d: nat, h: nat) {
    d in r.inDir && h in r.inDir[d] ==> h in r.byFh && r.inDir[d][h] == h && h < |img.files| && img.files[h].dh == d
  }

  /** A slot that the scan has not reached is as it was, or mended. */
  ghost predicate SlotAhead(img: Image, n: nat, tab: Tables, j: nat) {
    n <= j < |img.files| && j < |tab.mem.files| ==>
      tab.mem.files[j] == if MendedBefore(img, n, j) then SealFile(img.files[j]) else img.files[j]
  }

  ghost predicate FileTabScanned(img: Image, n: nat, tab: Tables) {
    && |tab.mem.files| == |img.files| && tab.mem.blocks == img.blocks
    && (forall j: nat {:trigger SlotAhead(img, n, tab, j)} :: SlotAhead(img, n, tab, j))
    && (TempFree(img) ==> tab == Tables(img, img))
  }

  ghost predicate FilesScanned(img: Image, dirs: set<nat>, n: nat, r: FileScan) {
    && FileTabScanned(img, n, r.tab) && r.inDir.Keys == dirs
    && (forall h: nat {:trigger FileScanned(img, n, r, h)} :: FileScanned(img, n, r, h))
    && (forall k {:trigger NameScanned(r, k)} :: NameScanned(r, k))
    && (forall d: nat, h: nat {:trigger ItemScanned(img, r, d, h)} :: ItemScanned(img, r, d, h))
    && NoDup(r.free)
  }

  ghost predicate FileAccepted(img: Image, dirs: set<nat>, h: nat) {
    h < |img.files| && var m := img.files[h];
    && (m == SealFile(m) || MendedBefore(img, h, h))
    && (FileUsed(img, h) ==> m.name != "" && m.fh == h && m.dh in dirs)
  }

  ghost predicate FilesAccepted(img: Image, dirs: set<nat>, n: nat) {
    forall h: nat {:trigger FileAccepted(img, dirs, h)} :: h < n ==> FileAccepted(img, dirs, h)
  }

  lemma OneMoreMended(img: Image, n: nat, j: nat)
    ensures MendedBefore(img, n + 1, j) <==> MendedBefore(img, n, j) || (TempSlot(img, n) && img.files[n].fh == j)
  {
    if MendedBefore(img, n, j) {
      var k: nat :| k < n && TempSlot(img, k) && img.files[k].fh == j;
      assert k < n + 1;
    }
    if TempSlot(img, n) && img.files[n].fh == j { assert n < n + 1; }
  }

  /** The slot that is not temporary leaves the tables as they are; a temporary
      one is cleared, and the slot that it names is sealed. */
  lemma FileTabStep(img: Image, n: nat, tab: Tables, after: Tables)
    requires FileTabScanned(img, n, tab) && n < |img.files|
    requires after == if TempSlot(img, n) then CleanTemp(tab, n) else tab
    ensures FileTabScanned(img, n + 1, after)
  {
    var k := n + 1;
    assert SlotAhead(img, n, tab, n);
    forall j: nat ensures SlotAhead(img, k, after, j) {
      assert SlotAhead(img, n, tab, j);
      OneMoreMended(img, n, j);
    }
  }

  lemma EnterFileScanned(img: Image, dirs: set<nat>, n: nat, r: FileScan)
    requires FilesScanned(img, dirs, n, r) && FileUsed(img, n) && img.files[n].dh in r.inDir
    ensures FilesScanned(img, dirs, n + 1, EnterFile(r, n, img.files[n]))
  {
    var t := EnterFile(r, n, img.files[n]);
    FileTabStep(img, n, r.tab, t.tab);
    assert FileScanned(img, n, r, n);
    var k := n + 1;
    forall h: nat ensures FileScanned(img, k, t, h) { assert FileScanned(img, n, r, h); }
    forall key ensures NameScanned(t, key) {
      assert NameScanned(r, key);
      if key in r.byName { assert FileScanned(img, n, r, r.byName[key]); }
    }
    forall d: nat, h: nat ensures ItemScanned(img, t, d, h) { assert ItemScanned(img, r, d, h); }
  }

  /** A slot that is free, or that a temporary file used and the mount clears. */
  lemma SkipFileScanned(img: Image, dirs: set<nat>, n: nat, r: FileScan, t: FileScan)
    requires FilesScanned(img, dirs, n, r) && n < |img.files| && !FileUsed(img, n)
    requires t == r.(free := t.free, tab := t.tab)
    requires if img.files[n].used then t.free == r.free && t.tab == CleanTemp(r.tab, n)
             else t.free == r.free + [n] && t.tab == r.tab
    ensures FilesScanned(img, dirs, n + 1, t)
  {
    hide CleanTemp;
    FileTabStep(img, n, r.tab, t.tab);
    assert FileScanned(img, n, r, n);
    if !img.files[n].used { NoDupSnoc(r.free, n); }
    var k := n + 1;
    forall h: nat ensures FileScanned(img, k, t, h) { assert FileScanned(img, n, r, h); }
    forall key ensures NameScanned(t, key) { assert NameScanned(r, key); }
    forall d: nat, h: nat ensures ItemScanned(img, t, d, h) { assert ItemScanned(img, r, d, h); }
  }

  lemma NoFileScanned(img: Image, dirs: set<nat>)
    ensures FilesScanned(img, dirs, 0, ScanFiles(Tables(img, img), dirs, 0).value)
  {
    var r := ScanFiles(Tables(img, img), dirs, 0).value;
    forall h: nat ensures FileScanned(img, 0, r, h) { }
    forall j: nat ensures SlotAhead(img, 0, r.tab, j) { }
    forall k ensures NameScanned(r, k) { }
    forall d: nat, h: nat ensures ItemScanned(img, r, d, h) { }
  }

  lemma ScanFileStep(img: Image, dirs: set<nat>, n: nat, r: FileScan)
    requires n < |img.files| && FilesScanned(img, dirs, n, r) && ScanFiles(Tables(img, img), dirs, n) == Some(r)
    ensures ScanFiles(Tables(img, img), dirs, n + 1).Some? <==> FileAccepted(img, dirs, n)
    ensures FileAccepted(img, dirs, n) ==>
      FilesScanned(img, dirs, n + 1, ScanFiles(Tables(img, img), dirs, n + 1).value)
  {
    hide FilesScanned, EnterFile, CleanTemp, MendedBefore;
    ScannedDirs(img, dirs, n, r);
    if FileAccepted(img, dirs, n) {
      var t := ScanFiles(Tables(img, img), dirs, n + 1).value;
      if FileUsed(img, n) {
        EnterFileScanned(img, dirs, n, r);
        SealedEnters(r, n, img.files[n]);
      } else {
        SkipFileScanned(img, dirs, n, r, t);
      }
    }
  }

  lemma SealedEnters(r: FileScan, i: nat, m: FileMeta)
    requires m.dh in r.inDir
    ensures EnterFile(r, i, SealFile(m)) == EnterFile(r, i, m)
  { }

  lemma ScannedDirs(img: Image, dirs: set<nat>, n: nat, r: FileScan)
    requires FilesScanned(img, dirs, n, r)
    ensures |r.tab.mem.files| == |img.files| && r.tab.mem.blocks == img.blocks && r.inDir.Keys == dirs
    ensures n < |img.files| ==>
      r.tab.mem.files[n] == if MendedBefore(img, n, n) then SealFile(img.files[n]) else img.files[n]
    ensures TempFree(img) ==> r.tab == Tables(img, img)
  {
    assert SlotAhead(img, n, r.tab, n);
  }

  lemma {:induction false} ScanFilesIff(img: Image, dirs: set<nat>, n: nat)
    requires n <= |img.files|
    ensures ScanFiles(Tables(img, img), dirs, n).Some? <==> FilesAccepted(img, dirs, n)
    ensures ScanFiles(Tables(img, img), dirs, n).Some? ==>
      FilesScanned(img, dirs, n, ScanFiles(Tables(img, img), dirs, n).value)
  {
    hide FilesScanned, FileAccepted, EnterFile, CleanTemp;
    if n == 0 {
      NoFileScanned(img, dirs);
    } else {
      ScanFilesIff(img, dirs, n - 1);
      assert FilesAccepted(img, dirs, n) <==> FilesAccepted(img, dirs, n - 1) && FileAccepted(img, dirs, n - 1);
      var r := ScanFiles(Tables(img, img), dirs, n - 1);
      if r.Some? { ScanFileStep(img, dirs, n - 1, r.value); }
    }
  }

  // ---------------------------------------------------------------- file blocks

  /** Taking the ids one by one works exactly when they are distinct and free. */
  lemma {:induction false} CarveIff(pool: set<nat>, ids: seq<nat>)
    ensures Carve(pool, ids).Some? <==> NoDup(ids) && forall b :: b in ids ==> b in pool
    ensures Carve(pool, ids).Some? ==> Carve(pool, ids).value == pool - Elems(ids)
    decreases |ids|
  {
    if ids != [] {
      CarveIff(pool - {ids[0]}, ids[1..]);
      assert ids == [ids[0]] + ids[1..];
      if NoDup(ids) && forall b :: b in ids ==> b in pool {
        assert forall b :: b in ids[1..] ==> b in pool - {ids[0]};
      }
      if NoDup(ids[1..]) && ids[0] !in ids[1..] { NoDupConcat([ids[0]], ids[1..]); }
    }
  }

  ghost predicate Listed(img: Image, n: nat, b: nat) {
    exists j: nat {:trigger BlockUsed(img, j)} :: j < n && BlockUsed(img, j) && b in img.blocks[j].ids
  }

  ghost predicate PoolScanned(img: Image, num: nat, n: nat, r: BlockScan, b: nat) {
    b in r.pool <==> b < num && !Listed(img, n, b)
  }

  /** The file block slot that file `f` has after `n` slots. */
  ghost predicate FbScanned(img: Image, n: nat, files: map<nat, File>, r: BlockScan, f: nat) {
    f in files ==>
      && f in r.files
      && r.files[f] == files[f].(fb := r.files[f].fb, ids := r.files[f].ids)
      && (match r.files[f].fb
          case None => r.files[f].ids == []
          case Some(i) =>
            && i < n && BlockUsed(img, i) && img.blocks[i].cut == 0
            && img.blocks[i].fh == f && img.blocks[i].ids == r.files[f].ids)
  }

  ghost predicate SlotScanned(img: Image, n: nat, r: BlockScan, j: nat) {
    && (j < n && BlockUsed(img, j) && img.blocks[j].cut == 0 && 0 <= img.blocks[j].fh && img.blocks[j].fh in r.files ==>
          r.files[img.blocks[j].fh].fb.Some?)
    && (j in r.free <==> j < n && j < |img.blocks| && !img.blocks[j].used)
  }

  /** The slots from `n` on are as they were; all are when none was temporary. */
  ghost predicate TabScanned(img: Image, tab: Tables, n: nat, r: BlockScan) {
    && tab.mem.blocks == img.blocks && |r.tab.mem.blocks| == |img.blocks|
    && (forall j :: n <= j < |img.blocks| ==> r.tab.mem.blocks[j] == img.blocks[j])
    && (TempFree(img) ==> r.tab == tab)
  }

  ghost predicate BlocksScanned(img: Image, tab: Tables, num: nat, n: nat, files: map<nat, File>, r: BlockScan) {
    && TabScanned(img, tab, n, r) && r.files.Keys == files.Keys
    && (forall b: nat {:trigger PoolScanned(img, num, n, r, b)} :: PoolScanned(img, num, n, r, b))
    && (forall f: nat {:trigger FbScanned(img, n, files, r, f)} :: FbScanned(img, n, files, r, f))
    && (forall j: nat {:trigger SlotScanned(img, n, r, j)} :: SlotScanned(img, n, r, j))
    && NoDup(r.free)
  }

  /** The file objects and fh map that the file scan left behind. */
  ghost predicate FilesKnown(img: Image, files: map<nat, File>, byFh: map<nat, nat>) {
    && files.Keys == byFh.Keys
    && (forall h: nat {:trigger FileUsed(img, h)} :: h in byFh <==> FileUsed(img, h))
    && (forall h :: h in byFh ==> byFh[h] == h && files[h].fb == None && files[h].ids == [])
  }

  lemma NewlyListed(img: Image, n: nat, b: nat)
    requires n < |img.blocks|
    ensures Listed(img, n + 1, b) <==> Listed(img, n, b) || (BlockUsed(img, n) && b in img.blocks[n].ids)
  {
    if BlockUsed(img, n) && b in img.blocks[n].ids { assert n < n + 1; }
    if Listed(img, n, b) {
      var j: nat :| j < n && BlockUsed(img, j) && b in img.blocks[j].ids;
      assert j < n + 1;
    }
  }

  /** The pool still holds a slot's blocks exactly when no earlier slot lists them. */
  lemma PoolHoldsNew(img: Image, tab: Tables, num: nat, n: nat, files: map<nat, File>, r: BlockScan)
    requires n < |img.blocks| && BlocksScanned(img, tab, num, n, files, r)
    ensures (forall b :: b in img.blocks[n].ids ==> b in r.pool) <==>
      && (forall b :: b in img.blocks[n].ids ==> b < num)
      && (forall j: nat {:trigger BlocksNew(img, n, j)} :: BlocksNew(img, n, j))
  {
    var ids := img.blocks[n].ids;
    if forall b :: b in ids ==> b in r.pool {
      forall b | b in ids ensures b < num { assert PoolScanned(img, num, n, r, b); }
      forall j: nat ensures BlocksNew(img, n, j) {
        if j < n && BlockUsed(img, j) {
          forall b | b in ids ensures b !in img.blocks[j].ids { assert PoolScanned(img, num, n, r, b); }
        }
      }
    } else {
      var b :| b in ids && b !in r.pool;
      assert PoolScanned(img, num, n, r, b);
      if b < num {
        var j: nat :| j < n && BlockUsed(img, j) && b in img.blocks[j].ids;
        assert !BlocksNew(img, n, j);
      }
    }
  }

  lemma EnterBlockScanned(img: Image, tab: Tables, num: nat, n: nat, files: map<nat, File>, byFh: map<nat, nat>,
      r: BlockScan)
    requires BlocksScanned(img, tab, num, n, files, r) && FilesKnown(img, files, byFh)
    requires BlockUsed(img, n) && 0 <= img.blocks[n].fh && FileUsed(img, img.blocks[n].fh)
    ensures img.blocks[n].fh in r.files
    ensures BlocksScanned(img, tab, num, n + 1, files,
      EnterBlock(r, img.blocks[n].fh, n, img.blocks[n], r.pool - Elems(img.blocks[n].ids)))
  {
    var m := img.blocks[n];
    var t := EnterBlock(r, m.fh, n, m, r.pool - Elems(m.ids));
    var k := n + 1;
    assert SlotScanned(img, n, r, n);
    forall b: nat ensures PoolScanned(img, num, k, t, b) {
      assert PoolScanned(img, num, n, r, b);
      NewlyListed(img, n, b);
    }
    forall f: nat ensures FbScanned(img, k, files, t, f) { assert FbScanned(img, n, files, r, f); }
    forall j: nat ensures SlotScanned(img, k, t, j) { assert SlotScanned(img, n, r, j); }
  }

  /** A slot that is free, or that a temporary file used and the mount clears. */
  lemma SkipBlockScanned(img: Image, tab: Tables, num: nat, n: nat, files: map<nat, File>, r: BlockScan, t: BlockScan)
    requires BlocksScanned(img, tab, num, n, files, r) && n < |img.blocks| && !BlockUsed(img, n)
    requires t == r.(free := t.free, tab := t.tab)
    requires if img.blocks[n].used then t.free == r.free && t.tab == WriteBlock(r.tab, n, ClearBlock(img.blocks[n]))
             else t.free == r.free + [n] && t.tab == r.tab
    ensures BlocksScanned(img, tab, num, n + 1, files, t)
  {
    var k := n + 1;
    assert SlotScanned(img, n, r, n);
    if !img.blocks[n].used { NoDupSnoc(r.free, n); }
    forall b: nat ensures PoolScanned(img, num, k, t, b) {
      assert PoolScanned(img, num, n, r, b);
      NewlyListed(img, n, b);
    }
    forall f: nat ensures FbScanned(img, k, files, t, f) { assert FbScanned(img, n, files, r, f); }
    forall j: nat ensures SlotScanned(img, k, t, j) { assert SlotScanned(img, n, r, j); }
  }

  lemma NoBlockScanned(img: Image, tab: Tables, num: nat, files: map<nat, File>, byFh: map<nat, nat>)
    requires tab.mem.blocks == img.blocks && FilesKnown(img, files, byFh)
    ensures BlocksScanned(img, tab, num, 0, files, BlockScan(tab, [], files, Below(num)))
  {
    var r := BlockScan(tab, [], files, Below(num));
    forall b: nat ensures PoolScanned(img, num, 0, r, b) { }
    forall f: nat ensures FbScanned(img, 0, files, r, f) { assert f in files ==> f in byFh; }
    forall j: nat ensures SlotScanned(img, 0, r, j) { }
  }

  lemma {:induction false} ScanBlocksIff(img: Image, tab: Tables, num: nat, n: nat, files: map<nat, File>,
      byFh: map<nat, nat>)
    requires n <= |img.blocks| && tab.mem.blocks == img.blocks && FilesKnown(img, files, byFh)
    ensures ScanBlocks(tab, files, byFh, num, n).Some? <==> BlocksGood(img, num, n)
    ensures ScanBlocks(tab, files, byFh, num, n).Some? ==>
      BlocksScanned(img, tab, num, n, files, ScanBlocks(tab, files, byFh, num, n).value)
  {
    hide BlocksScanned, BlockSlotGood, Carve, EnterBlock, WriteBlock;
    if n == 0 {
      NoBlockScanned(img, tab, num, files, byFh);
    } else {
      ScanBlocksIff(img, tab, num, n - 1, files, byFh);
      assert BlocksGood(img, num, n) <==> BlocksGood(img, num, n - 1) && BlockSlotGood(img, num, n - 1);
      var r := ScanBlocks(tab, files, byFh, num, n - 1);
      if r.Some? { ScanBlockStep(img, tab, num, n - 1, files, byFh, r.value); }
    }
  }

  lemma ScanBlockStep(img: Image, tab: Tables, num: nat, n: nat, files: map<nat, File>, byFh: map<nat, nat>,
      r: BlockScan)
    requires n < |img.blocks| && tab.mem.blocks == img.blocks && FilesKnown(img, files, byFh)
    requires BlocksScanned(img, tab, num, n, files, r)
    requires ScanBlocks(tab, files, byFh, num, n) == Some(r)
    ensures ScanBlocks(tab, files, byFh, num, n + 1).Some? <==> BlockSlotGood(img, num, n)
    ensures BlockSlotGood(img, num, n) ==>
      BlocksScanned(img, tab, num, n + 1, files, ScanBlocks(tab, files, byFh, num, n + 1).value)
  {
    hide BlocksScanned, NoDup, WriteBlock;
    var m := img.blocks[n];
    assert r.tab.mem.blocks[n] == m by { ScannedTab(img, tab, num, n, files, r); }
    CarveIff(r.pool, m.ids);
    PoolHoldsNew(img, tab, num, n, files, r);
    if m.fh >= 0 { assert m.fh in byFh <==> FileUsed(img, m.fh); }
    if BlockSlotGood(img, num, n) {
      if BlockUsed(img, n) { EnterBlockScanned(img, tab, num, n, files, byFh, r); }
      else { SkipBlockScanned(img, tab, num, n, files, r, ScanBlocks(tab, files, byFh, num, n + 1).value); }
    }
  }

  lemma ScannedTab(img: Image, tab: Tables, num: nat, n: nat, files: map<nat, File>, r: BlockScan)
    requires BlocksScanned(img, tab, num, n, files, r) && n < |img.blocks|
    ensures |r.tab.mem.blocks| == |img.blocks| && r.tab.mem.blocks[n] == img.blocks[n]
  { }

  // ---------------------------------------------------------------- the mount as a checker

  ghost predicate OwnedOnce(img: Image, byFh: map<nat, nat>, num: nat, i: nat) {
    BlockUsed(img, i) ==>
      && NoDup(img.blocks[i].ids) && 0 <= img.blocks[i].fh && img.blocks[i].fh in byFh
      && forall b :: b in img.blocks[i].ids ==> b < num
  }

  ghost predicate SlotsApart(img: Image, i: nat, j: nat) {
    BlockUsed(img, i) && BlockUsed(img, j) && i != j ==> forall b :: b in img.blocks[i].ids ==> b !in img.blocks[j].ids
  }

  ghost predicate PoolRest(img: Image, num: nat, n: nat, pool: set<nat>, b: nat) {
    b in pool <==> b < num && !Listed(img, n, b)
  }

  /** No block is listed twice, every list has an owner, the pool is the rest. */
  ghost predicate Checked(img: Image, byFh: map<nat, nat>, num: nat, n: nat, pool: set<nat>) {
    && (forall i: nat {:trigger OwnedOnce(img, byFh, num, i)} :: i < n ==> OwnedOnce(img, byFh, num, i))
    && (forall i: nat, j: nat {:trigger SlotsApart(img, i, j)} :: i < n && j < n ==> SlotsApart(img, i, j))
    && (forall b: nat {:trigger PoolRest(img, num, n, pool, b)} :: PoolRest(img, num, n, pool, b))
  }

  /** For any tables, files and fh map whatever: a scan that succeeds has checked
      the slots it has seen. */
  lemma {:induction false} ScanChecksBlocks(tab: Tables, files: map<nat, File>, byFh: map<nat, nat>, num: nat, n: nat)
    requires n <= |tab.mem.blocks| && (forall h :: h in byFh ==> byFh[h] in files)
    requires ScanBlocks(tab, files, byFh, num, n).Some?
    ensures var r := ScanBlocks(tab, files, byFh, num, n).value;
      Checked(tab.mem, byFh, num, n, r.pool) && forall j :: n <= j < |tab.mem.blocks| ==>
        r.tab.mem.blocks[j] == tab.mem.blocks[j]
  {
    hide WriteBlock, Carve, NoDup;
    if n == 0 {
      forall b: nat ensures PoolRest(tab.mem, num, 0, Below(num), b) { }
    } else {
      ScanChecksBlocks(tab, files, byFh, num, n - 1);
      var r := ScanBlocks(tab, files, byFh, num, n - 1).value;
      var t := ScanBlocks(tab, files, byFh, num, n).value;
      if BlockUsed(tab.mem, n - 1) {
        CarveIff(r.pool, tab.mem.blocks[n - 1].ids);
      } else {
        OtherSlots(r.tab, n - 1, ClearBlock(tab.mem.blocks[n - 1]));
      }
      CheckedOneMore(tab.mem, byFh, num, n - 1, r.pool, t.pool);
    }
  }

  lemma OtherSlots(tab: Tables, i: nat, m: FileBlockMeta)
    ensures |WriteBlock(tab, i, m).mem.blocks| == |tab.mem.blocks|
    ensures forall j :: 0 <= j < |tab.mem.blocks| && j != i ==> WriteBlock(tab, i, m).mem.blocks[j] == tab.mem.blocks[j]
  { }

  lemma CheckedOneMore(img: Image, byFh: map<nat, nat>, num: nat, n: nat, pool: set<nat>, after: set<nat>)
    requires n < |img.blocks| && Checked(img, byFh, num, n, pool)
    requires BlockUsed(img, n) ==>
      && NoDup(img.blocks[n].ids) && 0 <= img.blocks[n].fh && img.blocks[n].fh in byFh
      && (forall b :: b in img.blocks[n].ids ==> b in pool) && after == pool - Elems(img.blocks[n].ids)
    requires !BlockUsed(img, n) ==> after == pool
    ensures Checked(img, byFh, num, n + 1, after)
  {
    hide NoDup;
    var k := n + 1;
    forall b: nat ensures PoolRest(img, num, k, after, b) {
      assert PoolRest(img, num, n, pool, b);
      NewlyListed(img, n, b);
    }
    forall i: nat | i < k ensures OwnedOnce(img, byFh, num, i) {
      if i == n && BlockUsed(img, n) {
        forall b | b in img.blocks[n].ids ensures b < num { assert PoolRest(img, num, n, pool, b); }
      }
    }
    forall i: nat, j: nat | i < k && j < k ensures SlotsApart(img, i, j) {
      NewSlotApart(img, byFh, num, n, pool, i, j);
    }
  }

  lemma NewSlotApart(img: Image, byFh: map<nat, nat>, num: nat, n: nat, pool: set<nat>, i: nat, j: nat)
    requires n < |img.blocks| && Checked(img, byFh, num, n, pool) && i <= n && j <= n
    requires BlockUsed(img, n) ==> forall b :: b in img.blocks[n].ids ==> b in pool
    ensures SlotsApart(img, i, j)
  {
    if i < n && j < n {
      assert SlotsApart(img, i, j);
    } else if BlockUsed(img, i) && BlockUsed(img, j) && i != j {
      var other := if i == n then j else i;
      forall b | b in img.blocks[n].ids ensures b !in img.blocks[other].ids {
        assert PoolRest(img, num, n, pool, b);
        assert b in img.blocks[other].ids ==> Listed(img, n, b);
      }
    }
  }

  // ---------------------------------------------------------------- the whole mount

  lemma FilesKnownAfter(img: Image, dirs: set<nat>, r: FileScan)
    requires FilesScanned(img, dirs, |img.files|, r)
    ensures FilesKnown(img, r.files, r.byFh)
  {
    forall h: nat ensures h in r.files <==> h in r.byFh { assert FileScanned(img, |img.files|, r, h); }
    forall h: nat ensures h in r.byFh <==> FileUsed(img, h) { assert FileScanned(img, |img.files|, r, h); }
    forall h | h in r.byFh ensures r.byFh[h] == h && r.files[h].fb == None && r.files[h].ids == [] {
      assert FileScanned(img, |img.files|, r, h);
    }
  }

  lemma AcceptedIffGood(img: Image, d: DirScan)
    requires DirsScanned(img, |img.dirs|, d)
    ensures FilesAccepted(img, d.names.Keys, |img.files|) <==> FilesGood(img, |img.files|)
  {
    forall h: nat | h < |img.files| ensures FileAccepted(img, d.names.Keys, h) <==> FileSlotGood(img, h) {
      assert DirScanned(img, |img.dirs|, d, img.files[h].dh);
    }
  }

  /** Mounting succeeds exactly on consistent images. */
  lemma MountAcceptsIff(img: Image, num: nat, dev: seq<byte>)
    ensures MountImage(img, num, dev).Some? <==> ImageOK(img, num)
  {
    hide DirsScanned, FilesScanned, BlocksScanned, GetDirName, IsMountPoint;
    var tab := Tables(img, img);
    var d := ScanDirs(img.dirs, |img.dirs|);
    ScanDirsIff(img, |img.dirs|);
    if d.Some? {
      LinkDirsIff(img, d.value);
      AcceptedIffGood(img, d.value);
      if LinkDirs(d.value).Some? {
        ScanFilesIff(img, d.value.names.Keys, |img.files|);
        var r := ScanFiles(tab, d.value.names.Keys, |img.files|);
        if r.Some? {
          FilesKnownAfter(img, d.value.names.Keys, r.value);
          ScannedDirs(img, d.value.names.Keys, |img.files|, r.value);
          ScanFilesIndex(tab, d.value.names.Keys, |img.files|);
          ScanBlocksIff(img, r.value.tab, num, |img.blocks|, r.value.files, r.value.byFh);
        }
      }
    }
  }

  /** The same with the super block: checksum and magic number first. */
  lemma MountDeviceIff(super: SuperMeta, img: Image, dev: seq<byte>)
    ensures MountDevice(super, img, dev).Some? <==>
      super.crc == SuperCrc(super.(crc := 0)) && super.magic == MAGIC && ImageOK(img, super.num % U32)
  {
    hide MountImage, ImageOK;
    MountAcceptsIff(img, super.num % U32, dev);
  }

  /** Every mount starts with no descriptor in use and each of the 200000 free, in order. */
  lemma MountedFds(img: Image, num: nat, dev: seq<byte>)
    ensures var m := MountImage(img, num, dev);
      m.Some? ==>
        && m.value.open == map[] && m.value.dev == dev && m.value.num == num
        && |m.value.freeFds| == 200000 && forall i :: 0 <= i < 200000 ==> m.value.freeFds[i] == i
  {
    hide ScanDirs, LinkDirs, ScanFiles, ScanBlocks;
  }

  lemma MountedDirs(img: Image, num: nat, dev: seq<byte>)
    requires TempFree(img) && MountImage(img, num, dev).Some?
    ensures var d := ScanDirs(img.dirs, |img.dirs|);
      && d.Some? && DirsScanned(img, |img.dirs|, d.value)
      && DirsGood(img, |img.dirs|) && LinkDirs(d.value) == Some(MountImage(img, num, dev).value.tree)
      && d.value.free == MountImage(img, num, dev).value.freeDhs
  {
    hide DirsScanned, FilesScanned, BlocksScanned, GetDirName, IsMountPoint;
    ScanDirsIff(img, |img.dirs|);
  }

  lemma MountedParts(img: Image, num: nat, dev: seq<byte>)
    requires TempFree(img) && MountImage(img, num, dev).Some?
    ensures var m := MountImage(img, num, dev).value; var dirs := m.tree.names.Keys; var tab := Tables(img, img);
      && ScanFiles(tab, dirs, |img.files|).Some?
      && var r := ScanFiles(tab, dirs, |img.files|).value;
      && FilesScanned(img, dirs, |img.files|, r) && FilesKnown(img, r.files, r.byFh)
      && ScanBlocks(tab, r.files, r.byFh, num, |img.blocks|).Some?
      && var b := ScanBlocks(tab, r.files, r.byFh, num, |img.blocks|).value;
      && BlocksScanned(img, tab, num, |img.blocks|, r.files, b)
      && m.byFh == r.byFh && m.byName == r.byName && m.inDir == r.inDir && m.freeFhs == r.free
      && m.files == b.files && m.freeFbs == b.free && m.pool == b.pool && m.tab == b.tab
  {
    hide DirsScanned, FilesScanned, BlocksScanned, LinkDirs;
    var m := MountImage(img, num, dev).value;
    var tab := Tables(img, img);
    var dirs := m.tree.names.Keys;
    ScanFilesIff(img, dirs, |img.files|);
    var r := ScanFiles(tab, dirs, |img.files|).value;
    FilesKnownAfter(img, dirs, r);
    ScannedDirs(img, dirs, |img.files|, r);
    ScanBlocksIff(img, tab, num, |img.blocks|, r.files, r.byFh);
  }

  lemma {:induction false} FilesLeaveBlocks(tab: Tables, dirs: set<nat>, n: nat)
    requires n <= |tab.mem.files| && ScanFiles(tab, dirs, n).Some?
    ensures ScanFiles(tab, dirs, n).value.tab.mem.blocks == tab.mem.blocks
  {
    hide CleanTemp;
    if n > 0 {
      FilesLeaveBlocks(tab, dirs, n - 1);
      CleaningLeavesBlocks(ScanFiles(tab, dirs, n - 1).value.tab, n - 1);
    }
  }

  lemma CleaningLeavesBlocks(tab: Tables, i: nat)
    requires i < |tab.mem.files|
    ensures CleanTemp(tab, i).mem.blocks == tab.mem.blocks
  { }

  /** The mount as a checker, for an arbitrary image: when it succeeds, no block id
      occurs twice in the file block slots in use, all ids are in range, every slot
      has an owner, and the free pool is exactly the complement. */
  lemma MountChecksBlocks(img: Image, num: nat, dev: seq<byte>)
    requires MountImage(img, num, dev).Some?
    ensures var m := MountImage(img, num, dev).value;
      && (forall i: nat :: BlockUsed(img, i) ==>
           NoDup(img.blocks[i].ids) && 0 <= img.blocks[i].fh && img.blocks[i].fh in m.byFh)
      && (forall i: nat, b :: BlockUsed(img, i) && b in img.blocks[i].ids ==> b < num)
      && (forall i: nat, j: nat :: BlockUsed(img, i) && BlockUsed(img, j) && i != j ==>
           forall b :: b in img.blocks[i].ids ==> b !in img.blocks[j].ids)
      && (forall b: nat :: b in m.pool <==> b < num && !Listed(img, |img.blocks|, b))
  {
    hide ScanDirs, LinkDirs, ScanFiles, ScanBlocks, NoDup;
    var m := MountImage(img, num, dev).value;
    var tab := Tables(img, img);
    var r := ScanFiles(tab, m.tree.names.Keys, |img.files|).value;
    FilesLeaveBlocks(tab, m.tree.names.Keys, |img.files|);
    ScanFilesIndex(tab, m.tree.names.Keys, |img.files|);
    ScanChecksBlocks(r.tab, r.files, r.byFh, num, |img.blocks|);
    SameChecks(r.tab.mem, img, m.byFh, num, m.pool);
  }

  lemma SameChecks(a: Image, img: Image, byFh: map<nat, nat>, num: nat, pool: set<nat>)
    requires a.blocks == img.blocks && Checked(a, byFh, num, |a.blocks|, pool)
    ensures forall i: nat :: BlockUsed(img, i) ==>
      NoDup(img.blocks[i].ids) && 0 <= img.blocks[i].fh && img.blocks[i].fh in byFh
    ensures forall i: nat, b :: BlockUsed(img, i) && b in img.blocks[i].ids ==> b < num
    ensures forall i: nat, j: nat :: BlockUsed(img, i) && BlockUsed(img, j) && i != j ==>
      forall b :: b in img.blocks[i].ids ==> b !in img.blocks[j].ids
    ensures forall b: nat :: b in pool <==> b < num && !Listed(img, |img.blocks|, b)
  {
    hide NoDup;
    var n := |a.blocks|;
    forall i: nat ensures BlockUsed(img, i) ==> OwnedOnce(a, byFh, num, i) && BlockUsed(a, i) { }
    forall i: nat, j: nat | BlockUsed(img, i) && BlockUsed(img, j) && i != j
      ensures forall b :: b in img.blocks[i].ids ==> b !in img.blocks[j].ids
    {
      assert SlotsApart(a, i, j);
    }
    forall b: nat ensures b in pool <==> b < num && !Listed(img, n, b) {
      assert PoolRest(a, num, n, pool, b);
      SameListed(a, img, n, b);
    }
  }

  lemma SameListed(a: Image, img: Image, n: nat, b: nat)
    requires a.blocks == img.blocks
    ensures Listed(a, n, b) <==> Listed(img, n, b)
  {
    if Listed(a, n, b) {
      var j: nat :| j < n && BlockUsed(a, j) && b in a.blocks[j].ids;
      assert BlockUsed(img, j);
    }
    if Listed(img, n, b) {
      var j: nat :| j < n && BlockUsed(img, j) && b in img.blocks[j].ids;
      assert BlockUsed(a, j);
    }
  }
}
