/** When each call does its work, fails, or fails after taking slots: in terms of
    names, directory paths, sizes, free lists and descriptors. */
module Answers {
  import opened Geometry
  import opened Slots
  import opened Paths
  import opened PathProofs
  import opened DirTree
  import opened Store
  import opened StoreProofs
  import opened Calls
  import opened CallProofs
  import opened Runs
  import opened Contents
  import opened Namespace
  import opened DeferredDelete

  // ---------------------------------------------------------------- what a path names

  /** The file of a path: a name that fits, in a directory that exists. */
  function FileAtPath(s: State, path: string): Option<nat>
    requires |path| > 0
  {
    if EndsWithSlash(path) || |GetFileName(path)| >= MAX_FILE_NAME || |GetDirName(path)| >= MAX_DIR_NAME then None
    else Find(s, Place(GetDirName(path), GetFileName(path)))
  }

  /** A path as that of a directory: with a separator at its end. */
  function Closed(path: string): string {
    if path != "" && path[|path| - 1] == '/' then path else path + ['/']
  }

  predicate DirAtPath(s: State, path: string) {
    |Closed(path)| < MAX_DIR_NAME && Closed(path) in Dirs(s)
  }

  /** A file has the path, one separator at its end apart. */
  predicate FileOnPath(s: State, path: string)
    requires |path| > 0
  {
    var p := if path[|path| - 1] == '/' then path[..|path| - 1] else path;
    p != "" && FileAtPath(s, p).Some?
  }

  /** A file has the path of a directory that is to be made, or of its parent. */
  predicate FileInTheWay(s: State, path: string)
    requires |path| > 0
  {
    path != "/" && (FileOnPath(s, path) || (GetDirName(path) != "/" && FileOnPath(s, GetDirName(path))))
  }

  lemma LookupFileIs(s: State, path: string)
    requires |path| > 0
    ensures LookupFile(s, path) == FileAtPath(s, path)
  {
    hide GetDirName, GetFileName;
  }

  lemma LookupDirIs(s: State, path: string)
    ensures LookupDir(s, path).Some? <==> DirAtPath(s, path)
    ensures AsDir(path) == Closed(path)
  { }

  lemma NameClashIs(s: State, path: string)
    requires |path| > 0
    ensures NameClash(s, path, true) <==> FileInTheWay(s, path)
    ensures NameClash(s, path, false) <==> path != "/" && FileOnPath(s, path)
  {
    hide GetDirName, FileAtPath, LookupFile;
    forall p: string | p != "" ensures LookupFile(s, p) == FileAtPath(s, p) { LookupFileIs(s, p); }
  }

  // ---------------------------------------------------------------- conditions

  /** A file can grow: the device is large enough, there are the blocks, and they
      fit its one file block slot, which must not be full before. */
  predicate CanGrow(s: State, f: nat, off: nat)
    requires f in s.files && s.files[f].size < off
  {
    var x := s.files[f];
    var more := Ceil(off) - Ceil(x.size);
    && off <= |s.dev| && more <= |s.pool| && |x.ids| + more <= C
    && (if x.size == 0 then s.freeFbs != [] else |x.ids| < C)
  }

  /** And it can shrink: there is a slot for the heir, and unless it is empty a file
      block slot and, for a partial last block, a block. */
  predicate CanShrinkTo(s: State, off: nat) {
    s.freeFhs != [] && (off == 0 || (s.freeFbs != [] && (off % B == 0 || s.pool != {})))
  }

  predicate CanResize(s: State, f: nat, size: nat)
    requires f in s.files
  {
    if size > s.files[f].size then CanGrow(s, f, size) else size == s.files[f].size || CanShrinkTo(s, size)
  }

  predicate CanWrite(s: State, f: nat, data: seq<byte>, off: nat)
    requires f in s.files
  {
    data == [] || off + |data| <= s.files[f].size || CanGrow(s, f, off + |data|)
  }

  predicate CanCreate(s: State, path: string)
    requires |path| > 0
  {
    && !EndsWithSlash(path) && |GetFileName(path)| < MAX_FILE_NAME && DirAtPath(s, GetDirName(path))
    && FileAtPath(s, path).None? && s.freeFhs != []
  }

  predicate CanRenameDir(s: State, from: string, to: string)
    requires |from| > 0 && |to| > 0
  {
    && DirAtPath(s, from) && from != "/" && to != "/" && !FileInTheWay(s, to)
    && |Closed(to)| < MAX_DIR_NAME && GetDirName(Closed(to)) in Dirs(s)
  }

  /** The condition for each call to be done. */
  ghost predicate CanBeDone(s: State, op: Op)
    requires Callable(s, op)
  {
    match op
    case OpCreate(path) => CanCreate(s, path)
    case OpTruncate(path, size, _) =>
      var f := FileAtPath(s, path); f.Some? && f.value in s.files && CanResize(s, f.value, size)
    case OpFtruncate(fd, size, _) => fd in s.open && s.open[fd] in s.files && CanResize(s, s.open[fd], size)
    case OpPwrite(fd, data, off, _) => fd in s.open && s.open[fd] in s.files && CanWrite(s, s.open[fd], data, off)
    case OpOpen(path, create) =>
      !DirAtPath(s, path) && (FileAtPath(s, path).Some? || (create && CanCreate(s, path)))
    case OpDup(fd) => fd in s.open
    case OpClose(fd) => fd in s.open
    case OpUnlink(path) => FileAtPath(s, path).Some? && !DirAtPath(s, path)
    case OpRename(from, to) =>
      FileAtPath(s, to).None?
      && (if FileAtPath(s, from).Some? then DirAtPath(s, GetDirName(to)) else CanRenameDir(s, from, to))
    case OpMkdir(path) =>
      && !FileInTheWay(s, path) && |Closed(path)| < MAX_DIR_NAME && Closed(path) !in Dirs(s) && s.freeDhs != []
      && (Closed(path) == "/" || GetDirName(Closed(path)) in Dirs(s))
    case OpRmdir(path) =>
      && path != "/" && !FileOnPath(s, path) && DirAtPath(s, path)
      && (forall d :: d in Dirs(s) && d != "/" && |d| > 0 ==> GetDirName(d) != Closed(path))
      && (forall name :: Find(s, Place(Closed(path), name)).None?)
  }

  // ---------------------------------------------------------------- files

  lemma ExtendOutcome(s: State, f: nat, off: nat, ids: seq<nat>)
    requires Inv(s) && f in s.files && s.files[f].size < off
    ensures Extend(s, f, off, ids).1 == Done <==> CanGrow(s, f, off)
  {
    hide ExtendDone, ExtendOverflow, ExtendGiveBack, DirsOK, IndexOK, FdsOK, NoDup;
    assert HasBlocks(s, f);
  }

  lemma TruncateOutcome(s: State, f: nat, size: nat, ids: seq<nat>)
    requires Inv(s) && f in s.files && TruncatePick(s, f, size, ids)
    ensures Truncate(s, f, size, ids).1 == Done <==> CanResize(s, f, size)
  {
    hide Inv, Extend, ExtendRefused, ShrinkDone, ShrinkLeak, ShrinkReady, PickOK;
    var x := s.files[f];
    if size > x.size {
      ExtendOutcome(s, f, size, ids);
    } else if size < x.size && !ShrinkRefused(s) && !ShrinkLeaks(s, size) {
      PickIsTail(s, f, size, ids);
      ShrinkIsReady(s, f, size, if ids == [] then 0 else ids[0]);
    }
  }

  lemma PwriteOutcome(s: State, f: nat, data: seq<byte>, off: nat, ids: seq<nat>)
    requires Inv(s) && f in s.files
    ensures Pwrite(s, f, data, off, ids).1 == Done <==> CanWrite(s, f, data, off)
  {
    hide Inv, Extend, Put;
    if data != [] && off + |data| > s.files[f].size {
      ExtendOutcome(s, f, off + |data|, ids);
      ExtendShape(s, f, off + |data|, ids);
    }
  }

  /** A write is done exactly when it is empty, lies inside the file, or the file can
      grow: when no block is lost, that is a matter of sizes and free lists. */
  lemma PwriteDoneIff(s: State, f: nat, data: seq<byte>, off: nat, ids: seq<nat>)
    requires Inv(s) && Conserved(s) && f in s.files
    ensures Pwrite(s, f, data, off, ids).1 == Done <==>
      || data == []
      || off + |data| <= s.files[f].size
      || (&& off + |data| <= |s.dev| && off + |data| <= C * B && s.files[f].size <= (C - 1) * B
          && Ceil(off + |data|) - Ceil(s.files[f].size) <= |s.pool|
          && (s.files[f].size == 0 ==> s.freeFbs != []))
  {
    hide Inv, Conserved, Extend, Put, AlignUp;
    PwriteOutcome(s, f, data, off, ids);
    if data != [] && off + |data| > s.files[f].size {
      ExtendOutcome(s, f, off + |data|, ids);
      ExtendSucceedsIff(s, f, off + |data|, ids);
    }
  }

  lemma CreateOutcome(s: State, path: string)
    requires Inv(s) && |path| > 0
    ensures Create(s, path).1 == Done <==> CanCreate(s, path)
  {
    hide IndexOK, BlocksOK, FdsOK, AddFile, GetDirName, GetFileName, LookupDir, TreeOK;
    LookupDirIs(s, GetDirName(path));
    LookupFileIs(s, path);
    DirHasItems(s, GetDirName(path));
    assert |GetDirName(path)| < MAX_DIR_NAME || !DirAtPath(s, GetDirName(path));
  }

  /** A directory that is found has a map of its files. */
  lemma DirHasItems(s: State, path: string)
    requires Inv(s)
    ensures LookupDir(s, path).Some? ==> LookupDir(s, path).value in s.inDir && LookupDir(s, path).value in s.tree.names
    ensures LookupDir(s, path).Some? ==> s.tree.names[LookupDir(s, path).value] == AsDir(path)
  {
    hide IndexOK, BlocksOK, FdsOK;
    if LookupDir(s, path).Some? { assert PathOK(s.tree, AsDir(path)); }
  }

  lemma FoundIsLive(s: State, path: string)
    requires Inv(s) && |path| > 0
    ensures LookupFile(s, path) == FileAtPath(s, path)
    ensures FileAtPath(s, path).Some? ==>
      FileAtPath(s, path).value in s.files && s.files[FileAtPath(s, path).value].dh in s.inDir
  {
    hide Inv, LookupFile, FileAtPath;
    LookupFileIs(s, path);
    if LookupFile(s, path).Some? {
      FileIsLive(s, path);
      HomeKnown(s, LookupFile(s, path).value);
    }
  }

  lemma UnlinkOutcome(s: State, path: string)
    requires Inv(s) && |path| > 0
    ensures Unlink(s, path).1 == Done <==> FileAtPath(s, path).Some? && !DirAtPath(s, path)
  {
    hide Inv, LookupFile, LookupDir, FileAtPath, DirAtPath, DropFile;
    FoundIsLive(s, path);
    LookupDirIs(s, path);
  }

  lemma OpenOutcome(s: State, path: string, create: bool)
    requires Inv(s) && |path| > 0
    ensures Open(s, path, create).1 == Done <==>
      !DirAtPath(s, path) && (FileAtPath(s, path).Some? || (create && CanCreate(s, path)))
  {
    hide Inv, LookupFile, LookupDir, FileAtPath, DirAtPath, Create, CanCreate, AddOpen;
    FoundIsLive(s, path);
    LookupDirIs(s, path);
    CreateOutcome(s, path);
    QuietCreate(s, path);
  }

  lemma DescriptorOutcome(s: State, fd: nat)
    requires Inv(s)
    ensures Dup(s, fd).1 == Done <==> fd in s.open
    ensures Close(s, fd).1 == Done <==> fd in s.open
    ensures fd in s.open ==> s.open[fd] in s.files
  {
    hide Inv, AddOpen, DropFile;
    if fd in s.open { OpenMeansLinked(s, fd); }
  }

  // ---------------------------------------------------------------- directories

  lemma AskedDirIs(s: State, from: string, to: string)
    requires Inv(s) && |from| > 0 && |to| > 0
    ensures AskedDir(s, from, to).Some? && LookupDir(s, GetDirName(AsDir(to))).Some? <==> CanRenameDir(s, from, to)
  {
    hide IndexOK, BlocksOK, FdsOK, NameClash, FileInTheWay, GetDirName;
    LookupDirIs(s, from);
    LookupDirIs(s, to);
    NameClashIs(s, to);
    LookupDirIs(s, GetDirName(AsDir(to)));
    DirHasItems(s, from);
    if LookupDir(s, from).Some? { PathMeans(s.tree, AsDir(from)); }
    ShorterParent(from);
    ShorterParent(to);
  }

  lemma ShorterParent(path: string)
    requires |path| > 0
    ensures AsDir(GetDirName(AsDir(path))) == GetDirName(AsDir(path))
    ensures path != "/" ==> |GetDirName(AsDir(path))| < |AsDir(path)| && AsDir(path) != "/"
  { }

  lemma RenameOutcome(s: State, from: string, to: string)
    requires Inv(s) && |from| > 0 && |to| > 0
    ensures Rename(s, from, to).1 == Done <==>
      FileAtPath(s, to).None?
      && (if FileAtPath(s, from).Some? then DirAtPath(s, GetDirName(to)) else CanRenameDir(s, from, to))
  {
    hide Inv, LookupFile, LookupDir, FileAtPath, DirAtPath, GetDirName, GetFileName, MoveFile, Move, AskedDir, WriteDir;
    hide CanRenameDir;
    FoundIsLive(s, to);
    FoundIsLive(s, from);
    LookupDirIs(s, GetDirName(to));
    DirHasItems(s, GetDirName(to));
    AskedDirIs(s, from, to);
  }

  lemma MkdirOutcome(s: State, path: string)
    requires Inv(s) && |path| > 0
    ensures Mkdir(s, path).1 == Done <==>
      && !FileInTheWay(s, path) && |Closed(path)| < MAX_DIR_NAME && Closed(path) !in Dirs(s) && s.freeDhs != []
      && (Closed(path) == "/" || GetDirName(Closed(path)) in Dirs(s))
  {
    hide Inv, NameClash, FileInTheWay, GetDirName, WriteDir, Add;
    NameClashIs(s, path);
    LookupDirIs(s, path);
  }

  /** No directory has this one as its parent. */
  lemma NoChildren(s: State, h: nat)
    requires Inv(s) && h in s.tree.names
    ensures KidsOf(s.tree, h) == {} <==>
      forall d :: d in Dirs(s) && d != "/" && |d| > 0 ==> GetDirName(d) != s.tree.names[h]
  {
    hide IndexOK, BlocksOK, FdsOK, GetDirName;
    assert KidOK(s.tree, h, h);
    if KidsOf(s.tree, h) == {} {
      forall d | d in Dirs(s) && d != "/" && |d| > 0 ensures GetDirName(d) != s.tree.names[h] {
        assert PathOK(s.tree, d);
        assert KidOK(s.tree, h, s.tree.byPath[d]);
      }
    } else {
      var c :| c in KidsOf(s.tree, h);
      assert KidOK(s.tree, h, c);
      assert NameOK(s.tree, c);
    }
  }

  /** No file is in it. */
  lemma NoItems(s: State, h: nat)
    requires Inv(s) && h in s.tree.names
    ensures h in s.inDir
    ensures s.inDir[h] == map[] <==> forall name :: Find(s, Place(s.tree.names[h], name)).None?
  {
    hide TreeOK, BlocksOK, FdsOK;
    DirPathKnown(s, h);
    if s.inDir[h] == map[] {
      forall name ensures Find(s, Place(s.tree.names[h], name)).None? { NoFilesIn(s, h, name); }
    } else {
      var g :| g in s.inDir[h];
      assert ItemOK(s, h, g) && FhOK(s, g) && Indexed(s, s.byFh[g]);
      assert Find(s, Place(s.tree.names[h], s.files[s.byFh[g]].name)).Some?;
    }
  }

  lemma DirPathKnown(s: State, h: nat)
    requires Inv(s) && h in s.tree.names
    ensures s.tree.names[h] in s.tree.byPath && s.tree.byPath[s.tree.names[h]] == h
  {
    hide IndexOK, BlocksOK, FdsOK;
    assert NameOK(s.tree, h);
  }

  lemma RmdirOutcome(s: State, path: string)
    requires Inv(s) && |path| > 0
    ensures Rmdir(s, path).1 == Done <==>
      && path != "/" && !FileOnPath(s, path) && DirAtPath(s, path)
      && (forall d :: d in Dirs(s) && d != "/" && |d| > 0 ==> GetDirName(d) != Closed(path))
      && (forall name :: Find(s, Place(Closed(path), name)).None?)
  {
    hide Inv, NameClash, FileOnPath, GetDirName, WriteDir, Remove, KidsOf, Find;
    NameClashIs(s, path);
    LookupDirIs(s, path);
    DirHasItems(s, path);
    if path != "/" && DirAtPath(s, path) {
      var h := s.tree.byPath[Closed(path)];
      NoChildren(s, h);
      NoItems(s, h);
      ParentIsLive(s, path);
    }
  }

  lemma ParentIsLive(s: State, path: string)
    requires Inv(s) && path != "" && path != "/" && Closed(path) in Dirs(s)
    ensures GetDirName(Closed(path)) in Dirs(s)
  {
    hide IndexOK, BlocksOK, FdsOK, GetDirName;
    PathMeans(s.tree, Closed(path));
    ShorterParent(path);
  }

  // ---------------------------------------------------------------- every call

  /** Every call is done exactly when its condition holds. */
  lemma StepDoneIff(s: State, op: Op)
    requires Inv(s) && Callable(s, op)
    ensures Step(s, op).1 == Done <==> CanBeDone(s, op)
  {
    hide Inv, TruncatePick, PwritePick, LookupFile, FileAtPath, DirAtPath, FileOnPath, FileInTheWay, CanResize,
         CanWrite;
    hide CanCreate, CanRenameDir, GetDirName, Create, Truncate, Pwrite, Open, Close, Unlink, Rename, Mkdir, Rmdir,
         Dup, Find;
    var f := FileOf(s, op);
    match op
    case OpCreate(path) => CreateOutcome(s, path);
    case OpTruncate(path, size, ids) =>
      FoundIsLive(s, path);
      if f.Some? { TruncateOutcome(s, f.value, size, ids); }
    case OpFtruncate(fd, size, ids) => if f.Some? { TruncateOutcome(s, f.value, size, ids); }
    case OpPwrite(fd, data, off, ids) => if f.Some? { PwriteOutcome(s, f.value, data, off, ids); }
    case OpOpen(path, create) => OpenOutcome(s, path, create);
    case OpDup(fd) => DescriptorOutcome(s, fd);
    case OpClose(fd) => DescriptorOutcome(s, fd);
    case OpUnlink(path) => UnlinkOutcome(s, path);
    case OpRename(from, to) => RenameOutcome(s, from, to);
    case OpMkdir(path) => MkdirOutcome(s, path);
    case OpRmdir(path) => RmdirOutcome(s, path);
  }

  // ---------------------------------------------------------------- calls that leak

  /** The blocks are there and do not fit the file's file block slot. */
  predicate GrowthLeaks(s: State, f: nat, off: nat)
    requires f in s.files && s.files[f].size < off
  {
    var x := s.files[f];
    var more := Ceil(off) - Ceil(x.size);
    && off <= |s.dev| && more <= |s.pool| && |x.ids| + more > C
    && (if x.size == 0 then s.freeFbs != [] else |x.ids| < C)
  }

  /** There is a slot for the heir, and then something is missing. */
  predicate ShrinkingLeaks(s: State, off: nat) {
    s.freeFhs != [] && off > 0 && (s.freeFbs == [] || (off % B > 0 && s.pool == {}))
  }

  predicate ResizeLeaks(s: State, f: nat, size: nat)
    requires f in s.files
  {
    if size > s.files[f].size then GrowthLeaks(s, f, size) else size < s.files[f].size && ShrinkingLeaks(s, size)
  }

  ghost predicate CanLeak(s: State, op: Op)
    requires Callable(s, op)
  {
    match op
    case OpTruncate(path, size, _) =>
      var f := FileAtPath(s, path); f.Some? && f.value in s.files && ResizeLeaks(s, f.value, size)
    case OpFtruncate(fd, size, _) => fd in s.open && s.open[fd] in s.files && ResizeLeaks(s, s.open[fd], size)
    case OpPwrite(fd, data, off, _) =>
      && fd in s.open && s.open[fd] in s.files && data != []
      && off + |data| > s.files[s.open[fd]].size && GrowthLeaks(s, s.open[fd], off + |data|)
    case _ => false
  }

  lemma ExtendLeaks(s: State, f: nat, off: nat, ids: seq<nat>)
    requires Inv(s) && f in s.files && s.files[f].size < off
    ensures Extend(s, f, off, ids).1 == Leaked <==> GrowthLeaks(s, f, off)
  {
    hide ExtendDone, ExtendOverflow, ExtendGiveBack, DirsOK, IndexOK, FdsOK, NoDup;
    assert HasBlocks(s, f);
  }

  lemma TruncateLeaks(s: State, f: nat, size: nat, ids: seq<nat>)
    requires Inv(s) && f in s.files && TruncatePick(s, f, size, ids)
    ensures Truncate(s, f, size, ids).1 == Leaked <==> ResizeLeaks(s, f, size)
  {
    hide Inv, Extend, ExtendRefused, ShrinkDone, ShrinkLeak, ShrinkReady, PickOK;
    if size > s.files[f].size { ExtendLeaks(s, f, size, ids); }
  }

  lemma PwriteLeaks(s: State, f: nat, data: seq<byte>, off: nat, ids: seq<nat>)
    requires Inv(s) && f in s.files
    ensures Pwrite(s, f, data, off, ids).1 == Leaked <==>
      data != [] && off + |data| > s.files[f].size && GrowthLeaks(s, f, off + |data|)
  {
    hide Inv, Extend, Put;
    if data != [] && off + |data| > s.files[f].size {
      ExtendLeaks(s, f, off + |data|, ids);
      ExtendShape(s, f, off + |data|, ids);
    }
  }

  lemma OthersNeverLeak(s: State, op: Op)
    requires Callable(s, op) && !op.OpTruncate? && !op.OpFtruncate? && !op.OpPwrite?
    ensures Step(s, op).1 != Leaked
  {
    hide TruncatePick, PwritePick, LookupFile, LookupDir, NameClash, GetDirName, GetFileName, RenamedDir, Move,
         MoveFile;
  }

  /** A call leaks exactly when its condition for that holds. */
  lemma StepLeaksIff(s: State, op: Op)
    requires Inv(s) && Callable(s, op)
    ensures Step(s, op).1 == Leaked <==> CanLeak(s, op)
  {
    hide Inv, TruncatePick, PwritePick, LookupFile, FileAtPath, ResizeLeaks, GrowthLeaks, Create, Truncate, Pwrite,
         Open;
    hide Close, Unlink, Rename, Mkdir, Rmdir, Dup;
    var f := FileOf(s, op);
    match op
    case OpTruncate(path, size, ids) =>
      FoundIsLive(s, path);
      if f.Some? { TruncateLeaks(s, f.value, size, ids); }
    case OpFtruncate(fd, size, ids) => if f.Some? { TruncateLeaks(s, f.value, size, ids); }
    case OpPwrite(fd, data, off, ids) => if f.Some? { PwriteLeaks(s, f.value, data, off, ids); }
    case _ => OthersNeverLeak(s, op);
  }

  /** The blocks that a leaking growth has taken are in no file and not free: at least
      one is lost to all further calls. */
  lemma GrowthLoses(s: State, f: nat, off: nat, ids: seq<nat>) returns (lost: nat)
    requires Inv(s) && f in s.files && s.files[f].size < off && Extend(s, f, off, ids).1 == Leaked
    requires PickOK(s.pool, ids, Needed(s.files[f].size, off))
    ensures var t := Extend(s, f, off, ids).0;
      && (forall b :: b in t.pool <==> b in s.pool && b !in ids)
      && lost in s.pool && lost < s.num && lost !in t.pool && !Owned(t, lost) && !NoneLost(t)
  {
    hide ExtendDone, ExtendGiveBack, DirsOK, IndexOK, FdsOK, OverflowWrites;
    var x := s.files[f];
    assert HasBlocks(s, f);
    assert ids != [];
    lost := ids[|ids| - 1];
    var t := Extend(s, f, off, ids).0;
    forall g | g in t.files ensures lost !in t.files[g].ids {
      assert HasBlocks(s, g);
      if g == f && x.size > 0 { LastIsCut(x.ids, ids); }
    }
    assert lost in ids && lost !in t.pool && !Owned(t, lost);
  }

  lemma LastIsCut(a: seq<nat>, b: seq<nat>)
    requires b != [] && |a| <= C && |a| + |b| > C && NoDup(b) && b[|b| - 1] !in a
    ensures b[|b| - 1] !in Capped(a + b)
  { }

  /** A leaking shrink has taken a file slot that no file has, and keeps every block. */
  lemma ShrinkLoses(s: State, f: nat, off: nat, ids: seq<nat>)
    requires Inv(s) && f in s.files && off < s.files[f].size && Truncate(s, f, off, ids).1 == Leaked
    ensures var t := Truncate(s, f, off, ids).0;
      && s.freeFhs != [] && t.freeFhs == s.freeFhs[1..] && s.freeFhs[0] !in t.freeFhs && s.freeFhs[0] !in t.byFh
      && (s.freeFbs != [] ==> t.freeFbs == s.freeFbs[1..] && s.freeFbs[0] !in t.freeFbs)
      && t.pool == s.pool && t.files == s.files && t.dev == s.dev
  {
    hide DirsOK, BlocksOK, FdsOK, LeakWrites, ShrinkDone;
    InvFreeLists(s);
  }

  // ---------------------------------------------------------------- calls that are refused

  /** Nothing but the order of the free file block slots is changed. */
  ghost predicate Untouched(s: State, t: State) {
    && t == s.(freeFbs := t.freeFbs)
    && (t.freeFbs == s.freeFbs || (s.freeFbs != [] && t.freeFbs == s.freeFbs[1..] + [s.freeFbs[0]]))
  }

  lemma RefusedTruncate(s: State, f: nat, size: nat, ids: seq<nat>)
    requires f in s.files && Truncate(s, f, size, ids).1 == Refused
    ensures Untouched(s, Truncate(s, f, size, ids).0)
  {
    hide ExtendRefused, ExtendOverflows, ExtendDone, ExtendOverflow, ShrinkLeaks, ShrinkReady, ShrinkDone, ShrinkLeak;
  }

  lemma RefusedPwrite(s: State, f: nat, data: seq<byte>, off: nat, ids: seq<nat>)
    requires f in s.files && Pwrite(s, f, data, off, ids).1 == Refused
    ensures Untouched(s, Pwrite(s, f, data, off, ids).0)
  {
    hide ExtendRefused, ExtendOverflows, ExtendDone, ExtendOverflow, Put;
    if data != [] && off + |data| > s.files[f].size { ExtendShape(s, f, off + |data|, ids); }
  }

  lemma RefusedOther(s: State, op: Op)
    requires Callable(s, op) && !op.OpTruncate? && !op.OpFtruncate? && !op.OpPwrite? && Step(s, op).1 == Refused
    ensures Step(s, op).0 == s
  {
    hide TruncatePick, PwritePick, LookupFile, LookupDir, NameClash, GetDirName, GetFileName, RenamedDir, Move,
         MoveFile;
    hide AddFile, DropFile, AddOpen;
  }

  /** A call that is refused changes nothing. */
  lemma RefusedIsQuiet(s: State, op: Op)
    requires Callable(s, op) && Step(s, op).1 == Refused
    ensures Untouched(s, Step(s, op).0)
  {
    hide TruncatePick, PwritePick, LookupFile, Create, Truncate, Pwrite, Open, Close, Unlink, Rename, Mkdir, Rmdir, Dup;
    var f := FileOf(s, op);
    match op
    case OpTruncate(_, size, ids) => if f.Some? { RefusedTruncate(s, f.value, size, ids); }
    case OpFtruncate(_, size, ids) => if f.Some? { RefusedTruncate(s, f.value, size, ids); }
    case OpPwrite(_, data, off, ids) => if f.Some? { RefusedPwrite(s, f.value, data, off, ids); }
    case _ => RefusedOther(s, op);
  }

  // ---------------------------------------------------------------- marks and free descriptors

  /** The files that are marked as deleted after a call: those that were, and the
      file of an unlink that is done. */
  ghost predicate MarkedAs(s: State, op: Op, t: State, g: nat)
    requires Callable(s, op)
  {
    g in t.files ==>
      (t.files[g].deleted <==>
         || (g in s.files && s.files[g].deleted)
         || (op.OpUnlink? && Step(s, op).1 == Done && FileAtPath(s, op.path) == Some(g)))
  }

  lemma CreateMark(s: State, path: string, g: nat)
    requires Inv(s) && |path| > 0
    ensures var t := Create(s, path).0; g in t.files ==> (t.files[g].deleted <==> g in s.files && s.files[g].deleted)
  {
    hide Inv, LookupDir, GetDirName, GetFileName, AddWrites;
    NextIdIsNew(s);
  }

  lemma ResizeMark(s: State, f: nat, size: nat, data: seq<byte>, off: nat, ids: seq<nat>, g: nat)
    requires f in s.files
    ensures var t := Truncate(s, f, size, ids).0;
      g in t.files ==> g in s.files && t.files[g].deleted == s.files[g].deleted
    ensures var t := Pwrite(s, f, data, off, ids).0;
      g in t.files ==> g in s.files && t.files[g].deleted == s.files[g].deleted
  {
    hide Truncate, Pwrite;
    TruncateMarks(s, f, size, ids);
    PwriteMarks(s, f, data, off, ids);
  }

  lemma UnlinkMark(s: State, path: string, g: nat)
    requires |path| > 0
    ensures var (t, out) := Unlink(s, path);
      g in t.files ==>
        (t.files[g].deleted <==>
           (g in s.files && s.files[g].deleted) || (out == Done && LookupFile(s, path) == Some(g)))
  {
    hide LookupFile, LookupDir, DropWrites;
  }

  lemma OpenMark(s: State, path: string, create: bool, g: nat)
    requires Inv(s) && |path| > 0
    ensures var t := Open(s, path, create).0;
      g in t.files ==> (t.files[g].deleted <==> g in s.files && s.files[g].deleted)
  {
    hide Inv, LookupDir, LookupFile, Create;
    CreateMark(s, path, g);
  }

  lemma CloseMark(s: State, fd: nat, g: nat)
    ensures var t := Close(s, fd).0; g in t.files ==> g in s.files && t.files[g].deleted == s.files[g].deleted
  {
    hide DropWrites;
  }

  lemma StepMarks(s: State, op: Op, g: nat)
    requires Inv(s) && Callable(s, op)
    ensures MarkedAs(s, op, Step(s, op).0, g)
  {
    hide Inv, TruncatePick, PwritePick, LookupFile, FileAtPath, Create, Truncate, Pwrite, Open, Close, Unlink,
         Rename, Mkdir;
    hide Rmdir;
    var f := FileOf(s, op);
    match op
    case OpCreate(path) => CreateMark(s, path, g);
    case OpTruncate(_, size, ids) => if f.Some? { ResizeMark(s, f.value, size, [], 0, ids, g); }
    case OpFtruncate(_, size, ids) => if f.Some? { ResizeMark(s, f.value, size, [], 0, ids, g); }
    case OpPwrite(_, data, off, ids) => if f.Some? { ResizeMark(s, f.value, 0, data, off, ids, g); }
    case OpOpen(path, create) => OpenMark(s, path, create, g);
    case OpDup(fd) =>
    case OpClose(fd) => CloseMark(s, fd, g);
    case OpUnlink(path) =>
      LookupFileIs(s, path);
      UnlinkMark(s, path, g);
    case OpRename(path, to) => RenameMarks(s, path, to);
    case OpMkdir(path) => MkdirSame(s, path);
    case OpRmdir(path) => RmdirSame(s, path);
  }

  /** The pool of descriptors is a queue: open and dup take from its head, close puts
      its own at the end. */
  lemma StepFds(s: State, op: Op)
    requires Callable(s, op)
    ensures var (t, out) := Step(s, op);
      t.freeFds ==
        if out != Done then s.freeFds
        else if op.OpClose? then s.freeFds + [op.fd]
        else if (op.OpOpen? || op.OpDup?) && s.freeFds != [] then s.freeFds[1..]
        else s.freeFds
  {
    hide TruncatePick, PwritePick, LookupFile, Create, Truncate, Pwrite, Rename, Mkdir, Rmdir, DropFile, LookupDir;
    var f := FileOf(s, op);
    match op
    case OpCreate(path) => QuietCreate(s, path);
    case OpTruncate(_, size, ids) => if f.Some? { TruncateFds(s, f.value, size, ids); }
    case OpFtruncate(_, size, ids) => if f.Some? { TruncateFds(s, f.value, size, ids); }
    case OpPwrite(_, data, off, ids) => if f.Some? { PwriteFds(s, f.value, data, off, ids); }
    case OpOpen(path, create) => QuietCreate(s, path);
    case OpDup(fd) =>
    case OpClose(fd) => CloseFds(s, fd);
    case OpUnlink(path) => UnlinkFds(s, path);
    case OpRename(path, to) => RenameFds(s, path, to);
    case OpMkdir(path) => DirFds(s, path);
    case OpRmdir(path) => DirFds(s, path);
  }

  lemma TruncateFds(s: State, f: nat, size: nat, ids: seq<nat>)
    requires f in s.files
    ensures Truncate(s, f, size, ids).0.freeFds == s.freeFds
  {
    hide Extend, ShrinkWrites, LeakWrites, CopyPrefix, ShrinkReady, ShrinkLeaks;
    if size > s.files[f].size { ExtendShape(s, f, size, ids); }
  }

  lemma PwriteFds(s: State, f: nat, data: seq<byte>, off: nat, ids: seq<nat>)
    requires f in s.files
    ensures Pwrite(s, f, data, off, ids).0.freeFds == s.freeFds
  {
    hide Extend, Put;
    if data != [] && off + |data| > s.files[f].size { ExtendShape(s, f, off + |data|, ids); }
  }

  lemma CloseFds(s: State, fd: nat)
    ensures Close(s, fd).0.freeFds == if Close(s, fd).1 == Done then s.freeFds + [fd] else s.freeFds
  {
    hide DropWrites;
  }

  lemma UnlinkFds(s: State, path: string)
    requires |path| > 0
    ensures Unlink(s, path).0.freeFds == s.freeFds
  {
    hide LookupFile, LookupDir, DropWrites;
  }

  lemma RenameFds(s: State, from: string, to: string)
    requires |from| > 0 && |to| > 0
    ensures Rename(s, from, to).0.freeFds == s.freeFds
  {
    hide LookupFile, LookupDir, GetDirName, GetFileName, RenamedDir, Move, MoveWrites;
  }

  lemma DirFds(s: State, path: string)
    requires |path| > 0
    ensures Mkdir(s, path).0.freeFds == s.freeFds && Rmdir(s, path).0.freeFds == s.freeFds
  {
    hide GetDirName, NameClash, Add, Remove;
  }

  // ---------------------------------------------------------------- the number that open and dup hand out

  /** The caller gets the head of the descriptor pool, which was free before, and the
      entry under it stands for the file `f`. With an empty pool he gets -1. */
  ghost predicate HandedOut(s: State, t: State, f: nat, fd: int) {
    && f in t.files
    && if s.freeFds != [] && s.freeFds[0] != NO_FD then
         && fd == s.freeFds[0] && s.freeFds[0] !in s.open
         && t.open == s.open[s.freeFds[0] := f] && t.freeFds == s.freeFds[1..]
       else fd == -1
  }

  /** The file that open finds, or the number of the one it makes. */
  function FoundOrNew(s: State, path: string): nat
    requires |path| > 0
  {
    if FileAtPath(s, path).Some? then FileAtPath(s, path).value else s.nextId
  }

  predicate CanOpen(s: State, path: string, create: bool)
    requires |path| > 0
  {
    !DirAtPath(s, path) && (FileAtPath(s, path).Some? || (create && CanCreate(s, path)))
  }

  lemma OpenHandsOut(s: State, path: string, create: bool)
    requires Inv(s) && |path| > 0
    ensures var (t, out) := Open(s, path, create);
      && (out == Done <==> CanOpen(s, path, create))
      && (out == Done ==>
            && HandedOut(s, t, FoundOrNew(s, path), FdAnswer(NextFd(s)))
            && (s.freeFds != [] ==> FdLeft(s)))
      && (out != Done ==> t == s)
  {
    hide Inv, LookupFile, LookupDir, FileAtPath, DirAtPath, Create, CanCreate;
    FoundIsLive(s, path);
    OpenOutcome(s, path, create);
    QuietCreate(s, path);
    FdLeftMeans(s);
  }

  lemma DupHandsOut(s: State, fd: nat)
    requires Inv(s)
    ensures var (t, out) := Dup(s, fd);
      && (out == Done <==> fd in s.open)
      && (out == Done ==>
            && HandedOut(s, t, s.open[fd], FdAnswer(NextFd(s)))
            && (s.freeFds != [] ==> FdLeft(s)))
      && (out != Done ==> t == s)
  {
    hide Inv;
    DescriptorOutcome(s, fd);
    FdLeftMeans(s);
  }

  lemma FdLeftMeans(s: State)
    requires Inv(s)
    ensures s.freeFds != [] ==> s.freeFds[0] !in s.open && FdLeft(s)
  {
    hide DirsOK, IndexOK, BlocksOK, LinksOK;
    FdLeftIff(s);
  }

  /** What is read through the number that open answers is the file of the path, as it
      was before, and nothing when the file is new. */
  lemma OpenThenRead(s: State, path: string, create: bool, size: nat, off: nat)
    requires Inv(s) && |path| > 0 && CanOpen(s, path, create) && s.freeFds != [] && s.freeFds[0] != NO_FD
    ensures var (t, fd) := (Open(s, path, create).0, FdAnswer(NextFd(s)));
      && fd in t.open && t.open[fd] in t.files
      && var was := if FileAtPath(s, path).Some? && FileAtPath(s, path).value in s.files
                      then ContentOf(s, FileAtPath(s, path).value) else [];
      ContentOf(t, t.open[fd]) == was
      && Pread(t, t.open[fd], size, off) == if off >= |was| then [] else was[off..Contents.Min(off + size, |was|)]
  {
    hide Inv, Open, NextFd, FdAnswer, FileAtPath, DirAtPath, CanCreate, CanOpen, Pread, Bytes;
    OpenHandsOut(s, path, create);
    OpenContents(s, path, create);
    OpenKeeps(s, path, create);
    FoundIsLive(s, path);
    NextIdIsNew(s);
    var t := Open(s, path, create).0;
    var f := FoundOrNew(s, path);
    assert t.open[FdAnswer(NextFd(s))] == f;
    assert f in s.files ==> Contents.Contents(t)[f] == Contents.Contents(s)[f];
    assert f !in s.files ==> Contents.Contents(t)[f] == [];
    assert |ContentOf(t, f)| == t.files[f].size;
    PreadReadsContents(t, f, size, off);
  }
}
