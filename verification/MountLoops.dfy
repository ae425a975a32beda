/** The InitializeMeta loops of the four handles, each proved to compute the scan
    that module Mount specifies. */
module MountLoops {
  import opened Geometry
  import opened Slots
  import opened Paths
  import opened DirTree
  import opened Store
  import opened Mount

  // ---------------------------------------------------------------- a failed scan stays failed

  lemma {:induction false} DirsStayFailed(dirs: seq<DirMeta>, i: nat, n: nat)
    requires i <= n <= |dirs| && ScanDirs(dirs, i).None?
    ensures ScanDirs(dirs, n).None?
    decreases n - i
  {
    if i < n { DirsStayFailed(dirs, i + 1, n); }
  }

  lemma {:induction false} FilesStayFailed(tab: Tables, dirs: set<nat>, i: nat, n: nat)
    requires i <= n <= |tab.mem.files| && ScanFiles(tab, dirs, i).None?
    ensures ScanFiles(tab, dirs, n).None?
    decreases n - i
  {
    if i < n { FilesStayFailed(tab, dirs, i + 1, n); }
  }

  lemma {:induction false} BlocksStayFailed(tab: Tables, files: map<nat, File>, byFh: map<nat, nat>, num: nat,
      i: nat, n: nat)
    requires i <= n <= |tab.mem.blocks| && (forall h :: h in byFh ==> byFh[h] in files)
    requires ScanBlocks(tab, files, byFh, num, i).None?
    ensures ScanBlocks(tab, files, byFh, num, n).None?
    decreases n - i
  {
    if i < n { BlocksStayFailed(tab, files, byFh, num, i + 1, n); }
  }

  // ---------------------------------------------------------------- directories

  /** Handles and paths of the scanned directories are inverse to each other. */
  ghost predicate Inverse(r: DirScan) {
    && (forall h :: h in r.names ==> |r.names[h]| > 0 && r.names[h] in r.byPath && r.byPath[r.names[h]] == h)
    && (forall p :: p in r.byPath ==> r.byPath[p] in r.names && r.names[r.byPath[p]] == p)
  }

  /** The slot loop of DirHandle::InitializeMeta. */
  method InitializeDirs(dirs: seq<DirMeta>) returns (r: Option<DirScan>)
    ensures r == ScanDirs(dirs, |dirs|)
    ensures r.Some? ==> Inverse(r.value)
  {
    var free: seq<nat>, names: map<nat, string>, byPath: map<string, nat> := [], map[], map[];
    for dh := 0 to |dirs|
      invariant ScanDirs(dirs, dh) == Some(DirScan(free, names, byPath)) && Inverse(DirScan(free, names, byPath))
      invariant forall h :: h in names ==> h < dh
    {
      var m := dirs[dh];
      if m.crc != DirCrc(m.(crc := 0)) {
        DirsStayFailed(dirs, dh + 1, |dirs|);
        return None;
      }
      if m.used {
        if |m.name| == 0 || m.dh != dh || m.name in byPath || dh in names {
          DirsStayFailed(dirs, dh + 1, |dirs|);
          return None;
        }
        byPath := byPath[m.name := dh];
        names := names[dh := m.name];
      } else {
        free := free + [dh];
      }
    }
    r := Some(DirScan(free, names, byPath));
  }

  /** The children of `h` among the directories already visited. */
  ghost function KidsSeen(r: DirScan, todo: set<string>, h: nat): set<nat>
    requires h in r.names
  {
    set c | c in r.names && r.names[c] !in todo && Parents(r, c, h)
  }

  ghost predicate Linked(r: DirScan, todo: set<string>, kids: map<nat, set<nat>>, h: nat) {
    && h in r.names && h in kids && kids[h] == KidsSeen(r, todo, h)
    && (r.names[h] !in todo ==> |r.names[h]| > 0 && HasParent(r, r.names[h]))
  }

  /** One visit: directory `c` joins the children of its parent. */
  lemma LinkOne(r: DirScan, todo: set<string>, kids: map<nat, set<nat>>, p: string, h: nat)
    requires Inverse(r) && p in todo && todo <= r.byPath.Keys && Linked(r, todo, kids, h)
    requires !IsMountPoint(p) ==> HasParent(r, p)
    ensures var c := r.byPath[p];
      var kids2 := if IsMountPoint(p) || r.byPath[GetDirName(p)] !in kids then kids
                   else kids[r.byPath[GetDirName(p)] := kids[r.byPath[GetDirName(p)]] + {c}];
      r.byPath[GetDirName(p)] in kids || IsMountPoint(p) ==> Linked(r, todo - {p}, kids2, h)
  {
    hide GetDirName;
    var c := r.byPath[p];
    assert KidsSeen(r, todo - {p}, h) ==
      KidsSeen(r, todo, h) + if !IsMountPoint(p) && GetDirName(p) == r.names[h] then {c} else {};
  }

  lemma LinkedAll(r: DirScan, kids: map<nat, set<nat>>)
    requires kids.Keys == r.names.Keys
    requires forall h {:trigger Linked(r, {}, kids, h)} :: h in r.names ==> Linked(r, {}, kids, h)
    ensures LinkDirs(r) == Some(Tree(r.names, r.byPath, kids))
  {
    hide GetDirName;
    forall h | h in r.names ensures |r.names[h]| > 0 && HasParent(r, r.names[h]) && kids[h] == KidsSeen(r, {}, h) {
      assert Linked(r, {}, kids, h);
    }
    forall h | h in r.names ensures kids[h] == LinkDirs(r).value.kids[h] {
      assert kids[h] == KidsSeen(r, {}, h);
    }
    assert kids == LinkDirs(r).value.kids;
  }

  /** The second loop: every directory but the mount point joins its parent. */
  method LinkChildren(r: DirScan) returns (t: Option<Tree>)
    requires Inverse(r)
    ensures t == LinkDirs(r)
  {
    hide GetDirName;
    var kids: map<nat, set<nat>> := map h | h in r.names :: {};
    var todo := r.byPath.Keys;
    while todo != {}
      invariant todo <= r.byPath.Keys && kids.Keys == r.names.Keys
      invariant forall h {:trigger Linked(r, todo, kids, h)} :: h in r.names ==> Linked(r, todo, kids, h)
    {
      var p :| p in todo;
      ghost var before, was := kids, todo;
      if !IsMountPoint(p) {
        var up := GetDirName(p);
        if |up| >= MAX_DIR_NAME || up !in r.byPath {
          assert !HasParent(r, r.names[r.byPath[p]]);
          return None;
        }
        kids := kids[r.byPath[up] := kids[r.byPath[up]] + {r.byPath[p]}];
      }
      todo := todo - {p};
      forall h | h in r.names ensures Linked(r, todo, kids, h) {
        assert Linked(r, was, before, h);
        LinkOne(r, was, before, p, h);
      }
    }
    LinkedAll(r, kids);
    t := Some(Tree(r.names, r.byPath, kids));
  }

  // ---------------------------------------------------------------- files

  /** FileHandle::InitializeMeta. */
  method InitializeFiles(tab: Tables, dirs: set<nat>) returns (r: Option<FileScan>)
    ensures r == ScanFiles(tab, dirs, |tab.mem.files|)
  {
    hide CleanTemp;
    var n := |tab.mem.files|;
    var slots, free: seq<nat>, files: map<nat, File> := tab, [], map[];
    var byFh: map<nat, nat>, byName: map<(nat, string), nat> := map[], map[];
    var inDir: map<nat, map<nat, nat>> := map d | d in dirs :: map[];
    for fh := 0 to n
      invariant ScanFiles(tab, dirs, fh) == Some(FileScan(slots, free, files, byFh, byName, inDir))
      invariant |slots.mem.files| == n
    {
      var m := slots.mem.files[fh];
      if m.crc != FileCrc(m.(crc := 0)) {
        FilesStayFailed(tab, dirs, fh + 1, n);
        return None;
      }
      if m.used {
        if m.isTemp {
          CleanedShape(slots, fh);
          slots := CleanTemp(slots, fh);
          continue;
        }
        if |m.name| == 0 || m.fh != fh || m.dh !in dirs {
          FilesStayFailed(tab, dirs, fh + 1, n);
          return None;
        }
        files := files[fh := File(fh, m.dh, m.name, m.size, None, [], 0, false)];
        byFh := byFh[fh := fh];
        if m.child <= 0 { byName := byName[(m.dh, m.name) := fh]; }
        var items: map<nat, nat> := inDir[m.dh][fh := fh];
        inDir := inDir[m.dh := items];
      } else {
        free := free + [fh];
      }
    }
    r := Some(FileScan(slots, free, files, byFh, byName, inDir));
  }

  lemma CleanedShape(tab: Tables, i: nat)
    requires i < |tab.mem.files|
    ensures |CleanTemp(tab, i).mem.files| == |tab.mem.files|
  { }

  // ---------------------------------------------------------------- blocks

  /** BlockHandle::InitializeMeta on the fresh handle. */
  method InitializePool(num: nat) returns (pool: set<nat>)
    ensures pool == Below(num)
  {
    pool := {};
    for i := 0 to num
      invariant pool == Below(i)
    {
      pool := pool + {i};
    }
  }

  /** The ids of one file block leave the pool one by one. */
  method TakeIds(pool: set<nat>, ids: seq<nat>) returns (rest: Option<set<nat>>)
    ensures rest == Carve(pool, ids)
  {
    var left := pool;
    for i := 0 to |ids|
      invariant Carve(pool, ids) == Carve(left, ids[i..])
    {
      if ids[i] !in left { return None; }
      assert ids[i..][1..] == ids[i + 1..];
      left := left - {ids[i]};
    }
    rest := Some(left);
  }

  /** FileBlockHandle::InitializeMeta. */
  method InitializeFileBlocks(tab: Tables, files: map<nat, File>, byFh: map<nat, nat>,
      num: nat) returns (r: Option<BlockScan>)
    requires forall h :: h in byFh ==> byFh[h] in files
    ensures r == ScanBlocks(tab, files, byFh, num, |tab.mem.blocks|)
  {
    hide WriteBlock, Carve, Below;
    var n := |tab.mem.blocks|;
    var slots, free: seq<nat>, objects := tab, [], files;
    var pool := InitializePool(num);
    assert ScanBlocks(tab, files, byFh, num, 0) == Some(BlockScan(slots, free, objects, pool));
    for i := 0 to n
      invariant ScanBlocks(tab, files, byFh, num, i) == Some(BlockScan(slots, free, objects, pool))
      invariant |slots.mem.blocks| == n && objects.Keys == files.Keys
    {
      var m := slots.mem.blocks[i];
      if m.crc != BlockCrc(m.(crc := 0)) {
        BlocksStayFailed(tab, files, byFh, num, i + 1, n);
        return None;
      }
      if m.used {
        if m.isTemp {
          SlotShape(slots, i, ClearBlock(m));
          slots := WriteBlock(slots, i, ClearBlock(m));
          continue;
        }
        if m.fh < 0 || m.fh !in byFh || |m.ids| > C {
          BlocksStayFailed(tab, files, byFh, num, i + 1, n);
          return None;
        }
        var rest := TakeIds(pool, m.ids);
        if rest.None? {
          BlocksStayFailed(tab, files, byFh, num, i + 1, n);
          return None;
        }
        pool := rest.value;
        var f := byFh[m.fh];
        if m.cut == 0 && objects[f].fb.None? {
          objects := objects[f := objects[f].(fb := Some(i), ids := m.ids)];
        }
      } else {
        free := free + [i];
      }
    }
    r := Some(BlockScan(slots, free, objects, pool));
  }

  lemma SlotShape(tab: Tables, i: nat, m: FileBlockMeta)
    ensures |WriteBlock(tab, i, m).mem.blocks| == |tab.mem.blocks|
  { }

  // ---------------------------------------------------------------- all of it

  /** SuperBlock::InitializeMeta. */
  method InitializeSuper(super: SuperMeta) returns (ok: bool)
    ensures ok == SuperOK(super)
  {
    if super.crc != SuperCrc(super.(crc := 0)) { return false; }
    if super.magic != MAGIC { return false; }
    ok := true;
  }

  /** The initialisations in the order in which the file system runs them. */
  method Initialize(super: SuperMeta, img: Image, dev: seq<byte>) returns (s: Option<State>)
    ensures s == MountDevice(super, img, dev)
  {
    hide ScanDirs, LinkDirs, ScanFiles, ScanBlocks;
    var sealed := InitializeSuper(super);
    if !sealed { return None; }
    var num := super.num % U32;
    var d := InitializeDirs(img.dirs);
    if d.None? { return None; }
    var tree := LinkChildren(d.value);
    if tree.None? { return None; }
    var r := InitializeFiles(Tables(img, img), tree.value.names.Keys);
    if r.None? { return None; }
    ScanFilesIndex(Tables(img, img), tree.value.names.Keys, |img.files|);
    var b := InitializeFileBlocks(r.value.tab, r.value.files, r.value.byFh, num);
    if b.None? { return None; }
    var fds := seq(MAX_FD, i => i);
    s := Some(State(tree.value, d.value.free, b.value.files, |img.files|,
                    r.value.byFh, r.value.byName, r.value.inDir, r.value.free,
                    b.value.free, b.value.pool, num, map[], fds, dev, b.value.tab));
  }
}
