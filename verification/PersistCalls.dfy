/** Every call keeps the slot tables in line with the state. */
module PersistCalls {
  import opened Geometry
  import opened Slots
  import opened Paths
  import opened DirTree
  import opened Store
  import opened StoreProofs
  import opened Persist
  import opened Calls
  import opened CallProofs
  import opened Runs
  import opened Contents
  import opened Namespace

  ghost predicate KeepsTables(s: State, t: State, out: Outcome) {
    SlotsOK(t) && (Persisted(s) && out != Leaked ==> Persisted(t))
  }

  // ---------------------------------------------------------------- what fails

  /** Slots taken off the free lists and changed in memory only. */
  lemma LeakSlots(s: State, t: State, f: nat)
    requires Inv(s) && Inv(t) && SlotsOK(s) && SameShape(t.tab) && f in s.files && f in t.files && Shown(t, f)
    requires t.tree == s.tree && t.freeDhs == s.freeDhs && t.tab.mem.dirs == s.tab.mem.dirs
    requires t.files.Keys == s.files.Keys && (forall g :: g in s.files && g != f ==> t.files[g] == s.files[g])
    requires |t.tab.mem.files| == |s.tab.mem.files| && |t.tab.mem.blocks| == |s.tab.mem.blocks|
    requires forall h :: h in t.freeFhs ==> h in s.freeFhs
    requires forall i :: i in t.freeFbs ==> i in s.freeFbs
    requires forall h: nat :: h !in s.freeFhs || h in t.freeFhs ==> FileAt(t.tab, h) == FileAt(s.tab, h)
    requires forall i: nat :: (i !in s.freeFbs || i in t.freeFbs) && s.files[f].fb != Some(i) ==>
      BlockAt(t.tab, i) == BlockAt(s.tab, i)
    ensures SlotsOK(t)
  {
    hide Inv;
    forall g | g in s.files && g != f
      ensures s.files[g].fh !in s.freeFhs
      ensures s.files[g].fb.Some? ==> s.files[g].fb.value !in s.freeFbs && s.files[f].fb != s.files[g].fb
    {
      OthersElsewhere(s, f, g);
    }
    SelfElsewhere(s, f);
    SlotsFrame(s, t, f);
  }

  lemma OverflowSlots(s: State, f: nat, off: nat, ids: seq<nat>)
    requires Inv(s) && SlotsOK(s) && f in s.files && s.files[f].size < off && Extend(s, f, off, ids).1 == Leaked
    requires PickOK(s.pool, ids, Needed(s.files[f].size, off))
    ensures SlotsOK(Extend(s, f, off, ids).0)
  {
    hide Inv, ExtendOverflows, PickOK, TreeOK;
    var t := Extend(s, f, off, ids).0;
    ExtendKeepsInv(s, f, off, ids);
    assert Shown(s, f);
    SelfElsewhere(s, f);
    InvFreeLists(s);
    if s.freeFbs != [] { NoDupRotate(s.freeFbs); assert FreeBlock(s.tab, s.freeFbs[0]); }
    LeakSlots(s, t, f);
  }

  lemma ShrinkLeakSlots(s: State, f: nat, off: nat)
    requires Inv(s) && SlotsOK(s) && f in s.files && !ShrinkRefused(s)
    ensures SlotsOK(ShrinkLeak(s, f, off))
  {
    hide Inv, TreeOK;
    var t := ShrinkLeak(s, f, off);
    ShrinkLeakKeepsInv(s, f, off);
    assert Shown(s, f);
    SelfElsewhere(s, f);
    InvFreeLists(s);
    NoDupRotate(s.freeFhs);
    assert FreeFile(s.tab, s.freeFhs[0]);
    if s.freeFbs != [] { NoDupRotate(s.freeFbs); assert FreeBlock(s.tab, s.freeFbs[0]); }
    LeakSlots(s, t, f);
  }

  // ---------------------------------------------------------------- what changes no slot

  lemma SlotsSame(s: State, t: State)
    requires SlotsOK(s) && t.tab == s.tab && t.tree == s.tree && t.freeDhs == s.freeDhs && t.freeFhs == s.freeFhs
    requires forall i :: i in t.freeFbs <==> i in s.freeFbs
    requires t.files.Keys == s.files.Keys && t.byFh == s.byFh
    requires forall f :: f in s.files ==>
      t.files[f].(nlink := 0, deleted := false) == s.files[f].(nlink := 0, deleted := false)
    ensures KeepsTables(s, t, Done)
  {
    forall f | f in t.files ensures Shown(t, f) { assert Shown(s, f); }
    forall h | h in t.tree.names ensures DirShown(t, h) { assert DirShown(s, h); }
    forall h | h in t.freeFhs ensures FreeFile(t.tab, h) { assert FreeFile(s.tab, h); }
    forall i | i in t.freeFbs ensures FreeBlock(t.tab, i) { assert FreeBlock(s.tab, i); }
    forall h | h in t.freeDhs ensures FreeDir(t.tab, h) { assert FreeDir(s.tab, h); }
    if Persisted(s) {
      forall h: nat | h < |t.tab.mem.files| ensures FileSlotOK(t, h) { assert FileSlotOK(s, h); }
      forall h: nat | h < |t.tab.mem.dirs| ensures DirSlotOK(t, h) { assert DirSlotOK(s, h); }
      forall i: nat | i < |t.tab.mem.blocks| ensures BlockSlotOK(t, i) {
        assert BlockSlotOK(s, i);
        if s.tab.mem.blocks[i].used {
          var g :| g in s.files && s.files[g].fb == Some(i);
          assert t.files[g].fb == Some(i);
        }
      }
    }
  }

  // ---------------------------------------------------------------- files

  lemma ExtendTables(s: State, f: nat, off: nat, ids: seq<nat>)
    requires Inv(s) && SlotsOK(s) && f in s.files && s.files[f].size < off
    requires ExtendRefused(s, f, off) || PickOK(s.pool, ids, Needed(s.files[f].size, off))
    ensures KeepsTables(s, Extend(s, f, off, ids).0, Extend(s, f, off, ids).1)
  {
    hide Inv, SlotsOK, Persisted, ExtendOverflows, PickOK, ExtendWrites, OverflowWrites;
    var (t, out) := Extend(s, f, off, ids);
    match out
    case Refused => SlotsSame(s, t);
    case Leaked => OverflowSlots(s, f, off, ids);
    case Done =>
      ExtendDoneSlots(s, f, off, ids);
      if Persisted(s) { ExtendDonePersists(s, f, off, ids); }
  }

  lemma TruncateTables(s: State, f: nat, size: nat, ids: seq<nat>)
    requires Inv(s) && SlotsOK(s) && f in s.files && TruncatePick(s, f, size, ids)
    ensures KeepsTables(s, Truncate(s, f, size, ids).0, Truncate(s, f, size, ids).1)
  {
    hide Inv, SlotsOK, Persisted, Extend, ShrinkDone, ShrinkLeak, ShrinkReady, ExtendRefused;
    var x := s.files[f];
    if size > x.size {
      ExtendTables(s, f, size, ids);
    } else if size < x.size && !ShrinkRefused(s) {
      if ShrinkLeaks(s, size) {
        ShrinkLeakSlots(s, f, size);
      } else {
        var tail := if ids == [] then 0 else ids[0];
        ShrinkIsReady(s, f, size, tail);
        ShrinkSlots(s, f, size, tail);
        if Persisted(s) { ShrinkPersists(s, f, size, tail); }
      }
    }
  }

  lemma DevTables(s: State, dev: seq<byte>)
    requires SlotsOK(s)
    ensures KeepsTables(s, s.(dev := dev), Done)
  {
    hide SlotsOK, Persisted;
    SlotsSame(s, s.(dev := dev));
  }

  lemma PwriteTables(s: State, f: nat, data: seq<byte>, off: nat, ids: seq<nat>)
    requires Inv(s) && SlotsOK(s) && f in s.files && PwritePick(s, f, data, off, ids)
    ensures KeepsTables(s, Pwrite(s, f, data, off, ids).0, Pwrite(s, f, data, off, ids).1)
  {
    hide Inv, SlotsOK, Persisted, Extend, ExtendRefused, Put;
    var end := off + |data|;
    if data != [] {
      if end > s.files[f].size { ExtendTables(s, f, end, ids); }
      var (t, out) := if end > s.files[f].size then Extend(s, f, end, ids) else (s, Done);
      if out == Done && f in t.files {
        DevTables(t, Put(t.dev, t.files[f].ids, off, data));
      }
    }
  }

  lemma CreateTables(s: State, path: string)
    requires Inv(s) && SlotsOK(s) && |path| > 0
    ensures KeepsTables(s, Create(s, path).0, Create(s, path).1)
  {
    hide Inv, SlotsOK, Persisted, AddFile, GetDirName, GetFileName, LookupDir;
    var (t, out) := Create(s, path);
    if out == Done {
      AddFileSlots(s, LookupDir(s, GetDirName(path)).value, GetFileName(path));
    }
  }

  lemma UnlinkTables(s: State, path: string)
    requires Inv(s) && SlotsOK(s) && |path| > 0
    ensures KeepsTables(s, Unlink(s, path).0, Unlink(s, path).1)
  {
    hide Inv, SlotsOK, Persisted, DropFile, LookupDir, LookupFile;
    var who := LookupFile(s, path);
    if who.Some? && who.value in s.files {
      if s.files[who.value].nlink > 0 {
        SlotsSame(s, s.(files := s.files[who.value := s.files[who.value].(deleted := true)]));
      } else {
        DropFileSlots(s, who.value);
      }
    }
  }

  lemma AddOpenTables(s: State, f: nat)
    requires SlotsOK(s) && f in s.files
    ensures KeepsTables(s, AddOpen(s, f), Done)
  {
    hide SlotsOK, Persisted;
    SlotsSame(s, AddOpen(s, f));
  }

  lemma OpenTables(s: State, path: string, create: bool)
    requires Inv(s) && SlotsOK(s) && |path| > 0
    ensures KeepsTables(s, Open(s, path, create).0, Open(s, path, create).1)
  {
    hide Inv, SlotsOK, Persisted, AddOpen, Create, LookupDir, LookupFile;
    var who := LookupFile(s, path);
    if who.Some? && who.value in s.files {
      AddOpenTables(s, who.value);
    } else {
      CreateTables(s, path);
      var (t, out) := Create(s, path);
      if out == Done && s.nextId in t.files { AddOpenTables(t, s.nextId); }
    }
  }

  lemma CloseTables(s: State, fd: nat)
    requires Inv(s) && SlotsOK(s)
    ensures KeepsTables(s, Close(s, fd).0, Close(s, fd).1)
  {
    hide Inv, SlotsOK, Persisted, DropFile;
    if fd in s.open {
      OpenMeansLinked(s, fd);
      DropLinkKeeps(s, fd);
      var f := s.open[fd];
      var t := DropLink(s, fd);
      SlotsSame(s, t);
      if t.files[f].nlink == 0 && t.files[f].deleted { DropFileSlots(t, f); }
    }
  }

  // ---------------------------------------------------------------- directories and names

  /** One directory slot changes, to or from use by `h`. */
  lemma DirTables(s: State, t: State, h: nat, m: DirMeta)
    requires SlotsOK(s) && h < |s.tab.mem.dirs| && t.tab == WriteDir(s.tab, h, m)
    requires t.files == s.files && t.byFh == s.byFh && t.freeFhs == s.freeFhs && t.freeFbs == s.freeFbs
    requires h in t.tree.names ==>
      m.(crc := 0) == DirMeta(0, true, h, t.tree.names[h]) && |t.tree.names[h]| < MAX_DIR_NAME
    requires h !in t.tree.names ==> !m.used && m.dh == h
    requires forall k :: k in t.tree.names && k != h ==> k in s.tree.names && t.tree.names[k] == s.tree.names[k]
    requires forall k :: k in s.tree.names && k != h ==> k in t.tree.names
    requires forall k :: k in t.freeDhs ==> k in s.freeDhs && k != h
    ensures KeepsTables(s, t, Done)
  {
    hide WriteDir;
    WriteDirEffect(s.tab, h, m);
    forall f | f in t.files ensures Shown(t, f) { assert Shown(s, f); }
    forall k | k in t.tree.names ensures DirShown(t, k) { assert k != h ==> DirShown(s, k); }
    forall k | k in t.freeFhs ensures FreeFile(t.tab, k) { assert FreeFile(s.tab, k); }
    forall i | i in t.freeFbs ensures FreeBlock(t.tab, i) { assert FreeBlock(s.tab, i); }
    forall k | k in t.freeDhs ensures FreeDir(t.tab, k) { assert FreeDir(s.tab, k); }
    if Persisted(s) {
      forall k: nat | k < |t.tab.mem.files| ensures FileSlotOK(t, k) { assert FileSlotOK(s, k); }
      forall k: nat | k < |t.tab.mem.dirs| ensures DirSlotOK(t, k) { assert DirSlotOK(s, k); }
      forall i: nat | i < |t.tab.mem.blocks| ensures BlockSlotOK(t, i) {
        assert BlockSlotOK(s, i);
        assert FbOwned(s, i) ==> FbOwned(t, i);
      }
    }
  }

  lemma MkdirTables(s: State, path: string)
    requires Inv(s) && SlotsOK(s) && |path| > 0
    ensures KeepsTables(s, Mkdir(s, path).0, Mkdir(s, path).1)
  {
    hide IndexOK, BlocksOK, FdsOK, TreeOK, Persisted, GetDirName, IsMountPoint, NameClash, WriteDir;
    var (t, out) := Mkdir(s, path);
    if out == Done {
      var h := s.freeDhs[0];
      NoDupRotate(s.freeDhs);
      assert FreeDir(s.tab, h);
      DirTables(s, t, h, DirAt(s.tab, h).(used := true, dh := h, name := AsDir(path)));
    }
  }

  lemma RmdirTables(s: State, path: string)
    requires Inv(s) && SlotsOK(s) && |path| > 0
    ensures KeepsTables(s, Rmdir(s, path).0, Rmdir(s, path).1)
  {
    hide IndexOK, BlocksOK, FdsOK, TreeOK, Persisted, GetDirName, IsMountPoint, NameClash, WriteDir;
    var (t, out) := Rmdir(s, path);
    if out == Done {
      var h := s.tree.byPath[AsDir(path)];
      assert DirShown(s, h);
      DirTables(s, t, h, ClearDir(DirAt(s.tab, h)));
    }
  }

  lemma RenameDirTables(s: State, h: nat, to: string)
    requires Inv(s) && SlotsOK(s) && CanMove(s.tree, h, to) && MoveIsSafe(s.tree, h, to) && |to| < MAX_DIR_NAME
    ensures KeepsTables(s, s.(tree := Move(s.tree, h, to), tab := WriteDir(s.tab, h, DirAt(s.tab, h).(name := to))),
      Done)
  {
    hide IndexOK, BlocksOK, FdsOK, TreeOK, Persisted, GetDirName, IsMountPoint, WriteDir;
    var t := s.(tree := Move(s.tree, h, to), tab := WriteDir(s.tab, h, DirAt(s.tab, h).(name := to)));
    MoveNames(s.tree, h, to);
    assert DirShown(s, h);
    DirTables(s, t, h, DirAt(s.tab, h).(name := to));
  }

  lemma RenamedDirFits(s: State, from: string, to: string)
    requires |from| > 0 && |to| > 0 && RenamedDir(s, from, to).Some?
    ensures |AsDir(to)| < MAX_DIR_NAME
  {
    hide LookupDir, GetDirName, NameClash;
  }

  lemma RenameTables(s: State, from: string, to: string)
    requires Inv(s) && SlotsOK(s) && |from| > 0 && |to| > 0 && RenameIsSafe(s, from, to)
    ensures KeepsTables(s, Rename(s, from, to).0, Rename(s, from, to).1)
  {
    hide Inv, SlotsOK, Persisted, LookupDir, GetDirName, GetFileName, MoveFile, Move, RenamedDir, MoveIsSafe,
         CanMove, WriteDir;
    if Rename(s, from, to).1 == Done {
      var who := LookupFile(s, from);
      if who.Some? && who.value in s.files {
        MoveFileSlots(s, who.value, LookupDir(s, GetDirName(to)).value, StoredName(GetFileName(to)));
      } else {
        RenamedDirCanMove(s, from, to);
        RenamedDirFits(s, from, to);
        RenameDirTables(s, RenamedDir(s, from, to).value, AsDir(to));
      }
    }
  }

  // ---------------------------------------------------------------- file names

  ghost predicate KeepsFileNames(s: State, t: State) {
    forall f :: f in t.files ==> f in s.files && t.files[f].name == s.files[f].name
  }

  lemma KeptNames(s: State, t: State)
    requires KeepsFileNames(s, t) && Named(s)
    ensures Named(t)
  { }

  /** A file was renamed to a path that ends in a separator. */
  predicate RenamedToNothing(s: State, op: Op)
    requires (HasPath(op) ==> |op.path| > 0) && (op.OpRename? ==> |op.to| > 0)
  {
    op.OpRename? && Step(s, op).1 == Done && LookupFile(s, op.path).Some? && EndsWithSlash(op.to)
  }

  lemma CreateNamed(s: State, path: string)
    requires Named(s) && |path| > 0
    ensures Named(Create(s, path).0)
  {
    hide LookupDir, GetDirName, AddWrites;
  }

  lemma OpenNamed(s: State, path: string, create: bool)
    requires Named(s) && |path| > 0
    ensures Named(Open(s, path, create).0)
  {
    hide LookupDir, LookupFile, Create;
    CreateNamed(s, path);
  }

  lemma TruncateFileNames(s: State, f: nat, size: nat, ids: seq<nat>)
    requires f in s.files
    ensures KeepsFileNames(s, Truncate(s, f, size, ids).0)
  {
    hide Extend, ShrinkLeaks, ShrinkReady, ShrinkWrites, LeakWrites, CopyPrefix;
    if size > s.files[f].size { ExtendShape(s, f, size, ids); }
  }

  lemma PwriteFileNames(s: State, f: nat, data: seq<byte>, off: nat, ids: seq<nat>)
    requires f in s.files
    ensures KeepsFileNames(s, Pwrite(s, f, data, off, ids).0)
  {
    hide Extend, Put;
    if data != [] && off + |data| > s.files[f].size { ExtendShape(s, f, off + |data|, ids); }
  }

  lemma RemovalFileNames(s: State, path: string, fd: nat)
    requires |path| > 0
    ensures KeepsFileNames(s, Unlink(s, path).0) && KeepsFileNames(s, Close(s, fd).0)
  {
    hide LookupDir, LookupFile, DropWrites;
  }

  lemma RenameNamed(s: State, from: string, to: string)
    requires Inv(s) && Named(s) && |from| > 0 && |to| > 0
    ensures Named(Rename(s, from, to).0) <==> !RenamedToNothing(s, OpRename(from, to))
  {
    hide Inv, LookupDir, LookupFile, GetDirName, Move, RenamedDir, MoveWrites;
    if LookupFile(s, from).Some? { FileIsLive(s, from); }
    if Rename(s, from, to).1 == Done && LookupFile(s, from).Some? {
      assert StoredName(GetFileName(to)) == "" <==> EndsWithSlash(to);
      assert Rename(s, from, to).0.files[LookupFile(s, from).value].name == StoredName(GetFileName(to));
    }
  }

  /** Only a file rename to a path that ends in a separator leaves a file that
      has no name. */
  lemma StepNamed(s: State, op: Op)
    requires Inv(s) && Named(s) && Callable(s, op)
    ensures Named(Step(s, op).0) <==> !RenamedToNothing(s, op)
  {
    hide Inv, Named, TruncatePick, PwritePick, LookupFile, Create, Truncate, Pwrite, Open, Close, Unlink, Rename,
         Mkdir, Rmdir;
    var f := FileOf(s, op);
    var t := Step(s, op).0;
    match op
    case OpCreate(path) => CreateNamed(s, path);
    case OpTruncate(_, size, ids) => if f.Some? { TruncateFileNames(s, f.value, size, ids); KeptNames(s, t); }
    case OpFtruncate(_, size, ids) => if f.Some? { TruncateFileNames(s, f.value, size, ids); KeptNames(s, t); }
    case OpPwrite(_, data, off, ids) => if f.Some? { PwriteFileNames(s, f.value, data, off, ids); KeptNames(s, t); }
    case OpOpen(path, create) => OpenNamed(s, path, create);
    case OpDup(fd) => KeptNames(s, t);
    case OpClose(fd) => RemovalFileNames(s, "/", fd); KeptNames(s, t);
    case OpUnlink(path) => RemovalFileNames(s, path, 0); KeptNames(s, t);
    case OpRename(path, to) => RenameNamed(s, path, to);
    case OpMkdir(path) => MkdirSame(s, path); KeptNames(s, t);
    case OpRmdir(path) => RmdirSame(s, path); KeptNames(s, t);
  }

  // ---------------------------------------------------------------- runs

  /** Some call of the run renamed a file to a path that ends in a separator. */
  ghost predicate NamelessRun(s: State, ops: seq<Op>)
    requires PermittedRun(s, ops)
    decreases |ops|
  {
    ops != [] && (RenamedToNothing(s, ops[0]) || NamelessRun(Step(s, ops[0]).0, ops[1..]))
  }

  lemma {:induction false} RunKeepsNames(s: State, ops: seq<Op>)
    requires Inv(s) && Named(s) && PermittedRun(s, ops) && !NamelessRun(s, ops)
    ensures Named(Run(s, ops))
    decreases |ops|
  {
    hide Inv, Conserved, Named, Step, RenamedToNothing;
    if ops != [] {
      StepKeeps(s, ops[0]);
      StepNamed(s, ops[0]);
      RunKeepsNames(Step(s, ops[0]).0, ops[1..]);
    }
  }

  lemma StepTables(s: State, op: Op)
    requires Inv(s) && SlotsOK(s) && Permitted(s, op)
    ensures KeepsTables(s, Step(s, op).0, Step(s, op).1)
  {
    hide Inv, SlotsOK, Persisted, TruncatePick, PwritePick, RenameIsSafe, LookupFile, Create, Truncate, Pwrite,
         Open, Close, Unlink, Rename, Mkdir, Rmdir, AddOpen;
    var f := FileOf(s, op);
    match op
    case OpCreate(path) => CreateTables(s, path);
    case OpTruncate(_, size, ids) => if f.Some? { TruncateTables(s, f.value, size, ids); }
    case OpFtruncate(_, size, ids) => if f.Some? { TruncateTables(s, f.value, size, ids); }
    case OpPwrite(_, data, off, ids) => if f.Some? { PwriteTables(s, f.value, data, off, ids); }
    case OpOpen(path, create) => OpenTables(s, path, create);
    case OpDup(fd) => if f.Some? { AddOpenTables(s, f.value); }
    case OpClose(fd) => CloseTables(s, fd);
    case OpUnlink(path) => UnlinkTables(s, path);
    case OpRename(path, to) => RenameTables(s, path, to);
    case OpMkdir(path) => MkdirTables(s, path);
    case OpRmdir(path) => RmdirTables(s, path);
  }

  /** Memory shows the state after every run; so does the device, with matching
      checksums, after every run that does not leak. */
  lemma {:induction false} RunKeepsTables(s: State, ops: seq<Op>)
    requires Inv(s) && SlotsOK(s) && PermittedRun(s, ops)
    ensures SlotsOK(Run(s, ops))
    ensures Persisted(s) && !LeakingRun(s, ops) ==> Persisted(Run(s, ops))
    decreases |ops|
  {
    hide Inv, Conserved, SlotsOK, Persisted, Step;
    if ops != [] {
      StepKeeps(s, ops[0]);
      StepTables(s, ops[0]);
      RunKeepsTables(Step(s, ops[0]).0, ops[1..]);
    }
  }
}
