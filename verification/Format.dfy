/** From a freshly formatted device: the theorems about all runs. */
module Format {
  import opened Geometry
  import opened Slots
  import opened Paths
  import opened DirTree
  import opened Store
  import opened Runs
  import opened Contents
  import opened Namespace
  import opened Persist
  import opened PersistCalls
  import opened Mount
  import opened Remount

  /** FormatAllMeta of the three handles: blank slots that know their number. */
  function FormatImage(dirs: nat, files: nat, blocks: nat): Image {
    Image(
      seq(dirs, h requires 0 <= h => SealDir(DirMeta(0, false, h, ""))),
      seq(files, h requires 0 <= h => SealFile(FileMeta(0, false, false, h, 0, "", 0, -1, -1))),
      seq(blocks, _ => SealBlock(FileBlockMeta(0, false, false, -1, 0, []))))
  }

  /** The state that shows a formatted device. */
  ghost function BlankState(img: Image, num: nat, dev: seq<byte>): State {
    State(Tree(map[], map[], map[]), [], map[], 0, map[], map[], map[], [], Upto(|img.blocks|), Below(num), num,
          map[], [], dev, Tables(img, img))
  }

  function Upto(n: nat): seq<nat> { seq(n, i requires 0 <= i => i) }

  lemma BlankIsGood(dirs: nat, files: nat, blocks: nat, num: nat, dev: seq<byte>)
    requires DATA_START + num * B <= |dev|
    ensures var s := BlankState(FormatImage(dirs, files, blocks), num, dev);
      Inv(s) && Conserved(s) && SlotsOK(s) && Persisted(s) && Named(s)
  {
    hide GetDirName, IsMountPoint;
    var s := BlankState(FormatImage(dirs, files, blocks), num, dev);
    forall h: nat | h < |s.tab.mem.files| ensures FileSlotOK(s, h) { }
    forall h: nat | h < |s.tab.mem.dirs| ensures DirSlotOK(s, h) { }
    forall i: nat | i < |s.tab.mem.blocks| ensures BlockSlotOK(s, i) { assert s.freeFbs[i] == i; }
    forall i | i in s.freeFbs ensures FreeBlock(s.tab, i) { }
  }

  /** The state after Format and a first mount. */
  function Mounted(dirs: nat, files: nat, blocks: nat, num: nat, dev: seq<byte>): Option<State> {
    MountImage(FormatImage(dirs, files, blocks), num, dev)
  }

  lemma FormatMounts(dirs: nat, files: nat, blocks: nat, num: nat, dev: seq<byte>)
    requires DATA_START + num * B <= |dev|
    ensures Mounted(dirs, files, blocks, num, dev).Some?
    ensures var m := Mounted(dirs, files, blocks, num, dev).value;
      && Inv(m) && Conserved(m) && SlotsOK(m) && Persisted(m) && Named(m)
      && m.files == map[] && m.tree.names == map[]
  {
    hide Inv, Sound, Conserved, SlotsOK, Persisted, MountImage, FormatImage, Named;
    var s := BlankState(FormatImage(dirs, files, blocks), num, dev);
    BlankIsGood(dirs, files, blocks, num, dev);
    InvIsSound(s);
    assert NoneLost(s) by { ConservedParts(s); }
    PersistedMounts(s);
    var m := MountImage(s.tab.disk, s.num, s.dev).value;
    RemountIsGood(s, m);
    RemountRebuilds(s);
    forall h: nat ensures h !in m.files { assert RebuiltFile(s, m, h); }
  }

  lemma ConservedParts(s: State)
    requires Conserved(s)
    ensures NoneLost(s)
  { }

  /** What FormatMounts finds, field by field. */
  function Fresh(dirs: nat, files: nat, blocks: nat, num: nat, dev: seq<byte>): State {
    var img := FormatImage(dirs, files, blocks);
    State(Tree(map[], map[], map[]), Upto(dirs), map[], files, map[], map[], map[], Upto(files), Upto(blocks),
          Below(num), num, map[], seq(MAX_FD, i => i), dev, Tables(img, img))
  }

  lemma {:induction false} BlankDirs(img: Image, dirs: nat, files: nat, blocks: nat, n: nat)
    requires img == FormatImage(dirs, files, blocks) && n <= dirs
    ensures ScanDirs(img.dirs, n) == Some(DirScan(Upto(n), map[], map[]))
  {
    assert Upto(0) == [];
    if n > 0 {
      BlankDirs(img, dirs, files, blocks, n - 1);
      assert img.dirs[n - 1].(crc := 0) == DirMeta(0, false, n - 1, "");
      assert Upto(n) == Upto(n - 1) + [n - 1];
    }
  }

  lemma {:induction false} BlankFiles(img: Image, dirs: nat, files: nat, blocks: nat, n: nat)
    requires img == FormatImage(dirs, files, blocks) && n <= files
    ensures ScanFiles(Tables(img, img), {}, n) == Some(FileScan(Tables(img, img), Upto(n), map[], map[], map[], map[]))
  {
    assert Upto(0) == [];
    if n > 0 {
      BlankFiles(img, dirs, files, blocks, n - 1);
      assert img.files[n - 1].(crc := 0) == FileMeta(0, false, false, n - 1, 0, "", 0, -1, -1);
      assert Upto(n) == Upto(n - 1) + [n - 1];
    }
  }

  lemma {:induction false} BlankBlocks(img: Image, dirs: nat, files: nat, blocks: nat, num: nat, n: nat)
    requires img == FormatImage(dirs, files, blocks) && n <= blocks
    ensures ScanBlocks(Tables(img, img), map[], map[], num, n) ==
      Some(BlockScan(Tables(img, img), Upto(n), map[], Below(num)))
  {
    assert Upto(0) == [];
    if n > 0 {
      BlankBlocks(img, dirs, files, blocks, num, n - 1);
      assert img.blocks[n - 1].(crc := 0) == FileBlockMeta(0, false, false, -1, 0, []);
      assert Upto(n) == Upto(n - 1) + [n - 1];
    }
  }

  lemma MountedIsFresh(dirs: nat, files: nat, blocks: nat, num: nat, dev: seq<byte>)
    ensures Mounted(dirs, files, blocks, num, dev) == Some(Fresh(dirs, files, blocks, num, dev))
  {
    var img := FormatImage(dirs, files, blocks);
    BlankDirs(img, dirs, files, blocks, dirs);
    var tree := Tree(map[], map[], map[]);
    assert LinkDirs(DirScan(Upto(dirs), map[], map[])) == Some(tree);
    assert tree.names.Keys == {};
    BlankFiles(img, dirs, files, blocks, files);
    BlankBlocks(img, dirs, files, blocks, num, blocks);
  }

  /** What is known of every state that a run from a formatted device reaches. */
  ghost predicate Reached(s: State, leaked: bool) {
    && Inv(s) && SlotsOK(s)
    && (!leaked ==> Conserved(s) && Persisted(s))
  }

  /** Ownership, indexes, link counts and slot tables over all runs; without a
      leak also conservation of blocks and agreement of the device. */
  lemma AllRuns(dirs: nat, files: nat, blocks: nat, num: nat, dev: seq<byte>, ops: seq<Op>)
    requires DATA_START + num * B <= |dev|
    ensures Mounted(dirs, files, blocks, num, dev).Some?
    ensures var m := Mounted(dirs, files, blocks, num, dev).value;
      PermittedRun(m, ops) ==> Reached(Run(m, ops), LeakingRun(m, ops)) && Refines(m, ops) && NamesFollow(m, ops)
  {
    hide Inv, Conserved, SlotsOK, Persisted, MountImage, FormatImage, Refines, NamesFollow;
    FormatMounts(dirs, files, blocks, num, dev);
    var m := Mounted(dirs, files, blocks, num, dev).value;
    if PermittedRun(m, ops) {
      RunKeeps(m, ops);
      RunKeepsTables(m, ops);
      RunRefines(m, ops);
      RunNames(m, ops);
    }
  }

  /** After any leak-free run the device can be mounted again exactly when every
      file has a name, as it has unless the run renamed a file to a path that ends
      in a separator; the mount gives the run's state back, and every file under
      its name with its bytes. */
  lemma AllRunsRemount(dirs: nat, files: nat, blocks: nat, num: nat, dev: seq<byte>, ops: seq<Op>)
    requires DATA_START + num * B <= |dev|
    ensures Mounted(dirs, files, blocks, num, dev).Some?
    ensures var m := Mounted(dirs, files, blocks, num, dev).value;
      PermittedRun(m, ops) && !LeakingRun(m, ops) ==>
        (var s := Run(m, ops); var again := MountImage(s.tab.disk, s.num, s.dev);
         && (again.Some? <==> Named(s))
         && (!NamelessRun(m, ops) ==> Named(s))
         && (Named(s) ==> Rebuilt(s, again.value) && Reached(again.value, false) && Named(again.value))
         && forall k :: Named(s) && k in s.byName ==>
              && k in again.value.byName && again.value.byName[k] in again.value.files && s.byName[k] in s.files
              && ContentOf(again.value, again.value.byName[k]) == ContentOf(s, s.byName[k]))
  {
    hide Inv, Sound, Conserved, SlotsOK, Persisted, MountImage, FormatImage, Rebuilt, ContentOf, Named;
    AllRuns(dirs, files, blocks, num, dev, ops);
    var m := Mounted(dirs, files, blocks, num, dev).value;
    if PermittedRun(m, ops) && !LeakingRun(m, ops) {
      var s := Run(m, ops);
      InvIsSound(s);
      ConservedParts(s);
      RemountRebuilds(s);
      FormatMounts(dirs, files, blocks, num, dev);
      if !NamelessRun(m, ops) { RunKeepsNames(m, ops); }
      if Named(s) {
        var again := MountImage(s.tab.disk, s.num, s.dev).value;
        RemountIsGood(s, again);
        forall k | k in s.byName
          ensures k in again.byName && again.byName[k] in again.files && s.byName[k] in s.files
          ensures ContentOf(again, again.byName[k]) == ContentOf(s, s.byName[k])
        {
          RemountKeepsContents(s, again, k);
        }
      }
    }
  }
}
