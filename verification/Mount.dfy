/** Mounting: the scans that rebuild every index and the free block pool from
    the slot tables (InitializeMeta of the block, directory, file and file
    block handles, in that order). */
module Mount {
  import opened Geometry
  import opened Slots
  import opened Paths
  import opened DirTree
  import opened Store

  const MAGIC: nat := 0xA5201314       // kBlockFsMagic
  const U32: nat := 0x1_0000_0000
  const MAX_FD: nat := 200000          // FdHandle::max_fd_num_

  // ---------------------------------------------------------------- directories

  datatype DirScan = DirScan(free: seq<nat>, names: map<nat, string>, byPath: map<string, nat>)

  /** The first `n` directory slots. */
  function ScanDirs(dirs: seq<DirMeta>, n: nat): Option<DirScan>
    requires n <= |dirs|
  {
    if n == 0 then Some(DirScan([], map[], map[]))
    else
      var r := ScanDirs(dirs, n - 1);
      var m := dirs[n - 1];
      if r.None? || m != SealDir(m) then None
      else if !m.used then Some(r.value.(free := r.value.free + [n - 1]))
      else if m.name == "" || m.dh != n - 1 || m.name in r.value.byPath then None
      else Some(r.value.(names := r.value.names[n - 1 := m.name], byPath := r.value.byPath[m.name := n - 1]))
  }

  predicate HasParent(r: DirScan, name: string)
    requires |name| > 0
  {
    IsMountPoint(name) || (|GetDirName(name)| < MAX_DIR_NAME && GetDirName(name) in r.byPath)
  }

  /** Parents are linked once all directories are known. */
  function LinkDirs(r: DirScan): Option<Tree> {
    if forall h :: h in r.names ==> |r.names[h]| > 0 && HasParent(r, r.names[h]) then
      Some(Tree(r.names, r.byPath, map h | h in r.names :: set c | c in r.names && Parents(r, c, h)))
    else None
  }

  /** Directory `h` has the path in which `c` lies. */
  predicate Parents(r: DirScan, c: nat, h: nat)
    requires c in r.names && h in r.names
  {
    |r.names[c]| > 0 && !IsMountPoint(r.names[c]) && GetDirName(r.names[c]) == r.names[h]
  }

  // ---------------------------------------------------------------- files

  datatype FileScan = FileScan(tab: Tables, free: seq<nat>, files: map<nat, File>,
                               byFh: map<nat, nat>, byName: map<(nat, string), nat>, inDir: map<nat, map<nat, nat>>)

  /** A temporary file's slot is cleared, and the slot it names is written. */
  function CleanTemp(tab: Tables, i: nat): Tables
    requires i < |tab.mem.files|
  {
    var m := tab.mem.files[i];
    var t1 := SetFile(tab, i, ClearFile(m));
    WriteFile(t1, m.fh, FileAt(t1, m.fh))
  }

  /** A file in use becomes object `i`; one with a child is not entered by name. */
  function EnterFile(r: FileScan, i: nat, m: FileMeta): FileScan
    requires m.dh in r.inDir
  {
    var items: map<nat, nat> := r.inDir[m.dh][i := i];
    r.(files := r.files[i := File(i, m.dh, m.name, m.size, None, [], 0, false)],
       byFh := r.byFh[i := i],
       byName := if m.child > 0 then r.byName else r.byName[(m.dh, m.name) := i],
       inDir := r.inDir[m.dh := items])
  }

  function ScanFiles(tab: Tables, dirs: set<nat>, n: nat): (r: Option<FileScan>)
    requires n <= |tab.mem.files|
    ensures r.Some? ==> |r.value.tab.mem.files| == |tab.mem.files| && r.value.inDir.Keys == dirs
  {
    if n == 0 then Some(FileScan(tab, [], map[], map[], map[], map d | d in dirs :: map[]))
    else
      var r := ScanFiles(tab, dirs, n - 1);
      if r.None? then None
      else
        var m := r.value.tab.mem.files[n - 1];
        if m != SealFile(m) then None
        else if !m.used then Some(r.value.(free := r.value.free + [n - 1]))
        else if m.isTemp then Some(r.value.(tab := CleanTemp(r.value.tab, n - 1)))
        else if m.name == "" || m.fh != n - 1 || m.dh !in dirs then None
        else Some(EnterFile(r.value, n - 1, m))
  }

  // ---------------------------------------------------------------- file blocks

  datatype BlockScan = BlockScan(tab: Tables, free: seq<nat>, files: map<nat, File>, pool: set<nat>)

  /** BlockHandle::InitializeMeta: the ids that exist. */
  function Below(n: nat): (r: set<nat>)
    ensures forall b: nat :: b in r <==> b < n
  {
    if n == 0 then {} else Below(n - 1) + {n - 1}
  }

  /** GetSpecificBlockId for each id in turn. */
  function Carve(pool: set<nat>, ids: seq<nat>): Option<set<nat>>
    decreases |ids|
  {
    if ids == [] then Some(pool)
    else if ids[0] !in pool then None
    else Carve(pool - {ids[0]}, ids[1..])
  }

  /** A file block slot of a file: its blocks leave the pool, and the file gets
      it unless it has one already. */
  function EnterBlock(r: BlockScan, f: nat, i: nat, m: FileBlockMeta, pool: set<nat>): BlockScan
    requires f in r.files
  {
    var x := r.files[f];
    r.(pool := pool,
       files := if m.cut == 0 && x.fb.None? then r.files[f := x.(fb := Some(i), ids := m.ids)] else r.files)
  }

  function ScanBlocks(tab: Tables, files: map<nat, File>, byFh: map<nat, nat>, num: nat, n: nat): (r: Option<BlockScan>)
    requires n <= |tab.mem.blocks| && forall h :: h in byFh ==> byFh[h] in files
    ensures r.Some? ==> |r.value.tab.mem.blocks| == |tab.mem.blocks| && r.value.files.Keys == files.Keys
  {
    if n == 0 then Some(BlockScan(tab, [], files, Below(num)))
    else
      var r := ScanBlocks(tab, files, byFh, num, n - 1);
      if r.None? then None
      else
        var m := r.value.tab.mem.blocks[n - 1];
        if m != SealBlock(m) then None
        else if !m.used then Some(r.value.(free := r.value.free + [n - 1]))
        else if m.isTemp then Some(r.value.(tab := WriteBlock(r.value.tab, n - 1, ClearBlock(m))))
        else if m.fh < 0 || m.fh !in byFh || |m.ids| > C || Carve(r.value.pool, m.ids).None? then None
        else Some(EnterBlock(r.value, byFh[m.fh], n - 1, m, Carve(r.value.pool, m.ids).value))
  }

  // ---------------------------------------------------------------- all of it

  lemma ScanFilesIndex(tab: Tables, dirs: set<nat>, n: nat)
    requires n <= |tab.mem.files| && ScanFiles(tab, dirs, n).Some?
    ensures var r := ScanFiles(tab, dirs, n).value; forall h :: h in r.byFh ==> r.byFh[h] in r.files
  {
    if n > 0 { ScanFilesIndex(tab, dirs, n - 1); }
  }

  function MountImage(img: Image, num: nat, dev: seq<byte>): Option<State> {
    var tab := Tables(img, img);
    var d := ScanDirs(img.dirs, |img.dirs|);
    var tree := if d.None? then None else LinkDirs(d.value);
    if tree.None? then None
    else
      var r := ScanFiles(tab, tree.value.names.Keys, |img.files|);
      if r.None? then None
      else
        ScanFilesIndex(tab, tree.value.names.Keys, |img.files|);
        MountBlocks(d.value, tree.value, r.value, |img.files|, num, dev)
  }

  predicate SuperOK(super: SuperMeta) {
    super == SealSuper(super) && super.magic == MAGIC
  }

  /** FileSystem::InitializeMeta: the super block first, then the four handles. The
      block handle keeps the block count in 32 bits. */
  function MountDevice(super: SuperMeta, img: Image, dev: seq<byte>): Option<State> {
    if SuperOK(super) then MountImage(img, super.num % U32, dev) else None
  }

  function MountBlocks(d: DirScan, tree: Tree, r: FileScan, nextId: nat, num: nat, dev: seq<byte>): Option<State>
    requires forall h :: h in r.byFh ==> r.byFh[h] in r.files
  {
    var b := ScanBlocks(r.tab, r.files, r.byFh, num, |r.tab.mem.blocks|);
    if b.None? then None
    else Some(State(tree, d.free, b.value.files, nextId, r.byFh, r.byName, r.inDir, r.free,
                    b.value.free, b.value.pool, num, map[], seq(MAX_FD, i => i), dev, b.value.tab))
  }
}
