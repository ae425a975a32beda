/** What every call does to the names: which directories exist, and which file is
    found at a place, a directory path and a name in it. */
module Namespace {
  import opened Geometry
  import opened Slots
  import opened Paths
  import opened DirTree
  import opened Store
  import opened StoreProofs
  import opened Calls
  import opened CallProofs
  import opened Runs
  import opened Contents

  datatype Place = Place(dir: string, name: string)

  function PlaceOf(path: string): Place
    requires |path| > 0
  {
    Place(AsDir(GetDirName(path)), GetFileName(path))
  }

  /** Where a file is found after a rename to `path`. */
  function TargetOf(path: string): Place
    requires |path| > 0
  {
    Place(AsDir(GetDirName(path)), StoredName(GetFileName(path)))
  }

  /** The file at a place. */
  function Find(s: State, p: Place): Option<nat> {
    if p.dir in s.tree.byPath && (s.tree.byPath[p.dir], p.name) in s.byName
    then Some(s.byName[(s.tree.byPath[p.dir], p.name)]) else None
  }

  function Dirs(s: State): set<string> { s.tree.byPath.Keys }

  // ---------------------------------------------------------------- the simple specification

  /** Where a successful call leaves a file at place `p`. */
  function FindAfter(s: State, op: Op, p: Place): Option<nat>
    requires (HasPath(op) ==> |op.path| > 0) && (op.OpRename? ==> |op.to| > 0)
  {
    var was := Find(s, p);
    match op
    case OpCreate(path) => if p == PlaceOf(path) then Some(s.nextId) else was
    case OpOpen(path, _) => if LookupFile(s, path).None? && p == PlaceOf(path) then Some(s.nextId) else was
    case OpUnlink(path) =>
      var f := LookupFile(s, path);
      if f.Some? && p == PlaceOf(path) && (forall fd :: fd in s.open ==> s.open[fd] != f.value) then None else was
    case OpClose(fd) =>
      if fd in s.open && was == Some(s.open[fd]) && was.value in s.files && s.files[was.value].deleted
         && (forall e :: e in s.open && e != fd ==> s.open[e] != was.value) then None else was
    case OpRename(from, to) =>
      if LookupFile(s, from).Some? then
        if p == TargetOf(to) then LookupFile(s, from) else if p == PlaceOf(from) then None else was
      else if p.dir == AsDir(to) && !Taken(s, from, to) then Find(s, Place(AsDir(from), p.name))
      else if p.dir == AsDir(from) then None
      else was
    case _ => was
  }

  /** Another directory has the new path: the renamed one is lost. */
  predicate Taken(s: State, from: string, to: string) {
    AsDir(to) != AsDir(from) && AsDir(to) in s.tree.byPath
  }

  function DirsAfter(s: State, op: Op): set<string>
    requires (HasPath(op) ==> |op.path| > 0) && (op.OpRename? ==> |op.to| > 0)
  {
    match op
    case OpMkdir(path) => Dirs(s) + {AsDir(path)}
    case OpRmdir(path) => Dirs(s) - {AsDir(path)}
    case OpRename(from, to) =>
      if LookupFile(s, from).Some? then Dirs(s)
      else if Taken(s, from, to) then Dirs(s) - {AsDir(from)}
      else Dirs(s) - {AsDir(from)} + {AsDir(to)}
    case _ => Dirs(s)
  }

  ghost predicate FoundAs(s: State, op: Op, t: State, p: Place)
    requires (HasPath(op) ==> |op.path| > 0) && (op.OpRename? ==> |op.to| > 0)
  {
    Find(t, p) == FindAfter(s, op, p)
  }

  ghost predicate SameNames(s: State, t: State) { t.tree.byPath == s.tree.byPath && t.byName == s.byName }

  ghost predicate NamesStep(s: State, op: Op, t: State, out: Outcome)
    requires (HasPath(op) ==> |op.path| > 0) && (op.OpRename? ==> |op.to| > 0)
  {
    if out != Done then SameNames(s, t)
    else Dirs(t) == DirsAfter(s, op) && forall p {:trigger FoundAs(s, op, t, p)} :: FoundAs(s, op, t, p)
  }

  // ---------------------------------------------------------------- files

  /** A file's place is where it is found. */
  lemma LookupIsFind(s: State, path: string)
    requires |path| > 0
    ensures LookupFile(s, path).Some? ==> LookupFile(s, path) == Find(s, PlaceOf(path))
  {
    hide GetDirName, GetFileName;
  }

  /** Two live directories have two paths, so two places are two keys. */
  lemma PlacesDiffer(s: State, p: Place, q: Place)
    requires Inv(s) && p != q && p.dir in s.tree.byPath && q.dir in s.tree.byPath
    ensures (s.tree.byPath[p.dir], p.name) != (s.tree.byPath[q.dir], q.name)
  {
    hide IndexOK, BlocksOK, FdsOK;
    assert PathOK(s.tree, p.dir) && PathOK(s.tree, q.dir);
  }

  lemma CreateNames(s: State, path: string)
    requires Inv(s) && |path| > 0
    ensures NamesStep(s, OpCreate(path), Create(s, path).0, Create(s, path).1)
  {
    hide Inv, GetDirName, GetFileName, AddWrites;
    var t := Create(s, path).0;
    if Create(s, path).1 == Done {
      var here := PlaceOf(path);
      forall p ensures FoundAs(s, OpCreate(path), t, p) {
        if p != here && p.dir in s.tree.byPath { PlacesDiffer(s, p, here); }
      }
    }
  }

  lemma OpenNames(s: State, path: string, create: bool)
    requires Inv(s) && |path| > 0
    ensures NamesStep(s, OpOpen(path, create), Open(s, path, create).0, Open(s, path, create).1)
  {
    hide Inv, Create, LookupFile, LookupDir, GetDirName, GetFileName;
    var (t, out) := Open(s, path, create);
    if out == Done {
      if LookupFile(s, path).Some? {
        LookupStays(s, path, create);
        forall p ensures FoundAs(s, OpOpen(path, create), t, p) { }
      } else {
        CreateNames(s, path);
        var u := Create(s, path).0;
        forall p ensures FoundAs(s, OpOpen(path, create), t, p) { assert FoundAs(s, OpCreate(path), u, p); }
      }
    }
  }

  lemma LookupStays(s: State, path: string, create: bool)
    requires Inv(s) && |path| > 0 && LookupFile(s, path).Some?
    ensures SameNames(s, Open(s, path, create).0)
  {
    hide GetDirName, GetFileName, LookupDir, BlocksOK, FdsOK, DirsOK;
    assert NameKeyOK(s, (LookupDir(s, GetDirName(path)).value, GetFileName(path)));
  }

  lemma DropNames(s: State, f: nat, p: Place)
    requires Inv(s) && f in s.files && s.files[f].dh in s.inDir
    ensures Find(DropFile(s, f), p) == if Find(s, p) == Some(f) then None else Find(s, p)
  {
    hide DirsOK, BlocksOK, FdsOK, DropWrites;
    assert Indexed(s, f);
    if p.dir in s.tree.byPath && (s.tree.byPath[p.dir], p.name) in s.byName {
      assert NameKeyOK(s, (s.tree.byPath[p.dir], p.name));
    }
  }

  lemma OnlyPlace(s: State, f: nat, p: Place, q: Place)
    requires Inv(s) && Find(s, p) == Some(f) && Find(s, q) == Some(f)
    ensures p == q
  {
    hide BlocksOK, FdsOK;
    assert PathOK(s.tree, p.dir) && PathOK(s.tree, q.dir);
    assert NameKeyOK(s, (s.tree.byPath[p.dir], p.name)) && NameKeyOK(s, (s.tree.byPath[q.dir], q.name));
  }

  lemma OpenEntries(s: State, f: nat)
    requires Inv(s) && f in s.files
    ensures s.files[f].nlink == 0 <==> forall fd :: fd in s.open ==> s.open[fd] != f
  {
    hide DirsOK, IndexOK, BlocksOK;
    assert LinksOK(s, f);
    if s.files[f].nlink == 0 {
      forall fd | fd in s.open ensures s.open[fd] != f { assert fd !in Opens(s.open, f); }
    }
    if forall fd :: fd in s.open ==> s.open[fd] != f {
      assert Opens(s.open, f) == {};
    }
  }

  lemma UnlinkNames(s: State, path: string)
    requires Inv(s) && |path| > 0
    ensures NamesStep(s, OpUnlink(path), Unlink(s, path).0, Unlink(s, path).1)
  {
    hide Inv, LookupFile, LookupDir, GetDirName, GetFileName, DropFile, Find;
    var (t, out) := Unlink(s, path);
    if out == Done {
      var f := LookupFile(s, path).value;
      LookupIsFind(s, path);
      OpenEntries(s, f);
      if s.files[f].nlink > 0 {
        forall p ensures FoundAs(s, OpUnlink(path), t, p) { FindFrame(s, t, p); }
      } else {
        DropKeepsPaths(s, f);
        forall p ensures FoundAs(s, OpUnlink(path), t, p) {
          DropNames(s, f, p);
          if Find(s, p) == Some(f) { OnlyPlace(s, f, p, PlaceOf(path)); }
        }
      }
    }
  }

  lemma FindFrame(s: State, t: State, p: Place)
    requires SameNames(s, t)
    ensures Find(t, p) == Find(s, p)
  { }

  lemma DropKeepsPaths(s: State, f: nat)
    requires f in s.files && s.files[f].dh in s.inDir
    ensures DropFile(s, f).tree == s.tree
  {
    hide DropWrites;
  }

  lemma LastOpen(s: State, fd: nat)
    requires Inv(s) && fd in s.open
    ensures s.open[fd] in s.files && s.files[s.open[fd]].nlink > 0
    ensures s.files[s.open[fd]].nlink == 1 <==> forall e :: e in s.open && e != fd ==> s.open[e] != s.open[fd]
  {
    hide DirsOK, IndexOK, BlocksOK;
    OpenMeansLinked(s, fd);
    var f := s.open[fd];
    assert LinksOK(s, f);
    var o := Opens(s.open, f);
    assert fd in o;
    assert |o - {fd}| == |o| - 1;
    if forall e :: e in s.open && e != fd ==> s.open[e] != f {
      assert o == {fd};
    } else {
      var e :| e in s.open && e != fd && s.open[e] == f;
      assert e in o - {fd};
    }
  }

  lemma CloseNames(s: State, fd: nat)
    requires Inv(s)
    ensures NamesStep(s, OpClose(fd), Close(s, fd).0, Close(s, fd).1)
  {
    hide Inv, DropFile, Find;
    var (t, out) := Close(s, fd);
    if out == Done {
      var f := s.open[fd];
      LastOpen(s, fd);
      var u := DropLink(s, fd);
      DropLinkKeeps(s, fd);
      HomeKnown(s, f);
      var gone := s.files[f].nlink == 1 && s.files[f].deleted;
      assert t == if gone then DropFile(u, f) else u;
      if gone { DropKeepsPaths(u, f); }
      forall p ensures FoundAs(s, OpClose(fd), t, p) {
        FindFrame(s, u, p);
        if gone { DropNames(u, f, p); }
      }
    }
  }

  lemma HomeKnown(s: State, f: nat)
    requires Inv(s) && f in s.files
    ensures s.files[f].dh in s.inDir
  {
    InvHasBlocks(s, f);
  }

  // ---------------------------------------------------------------- directories

  lemma HomeOfName(s: State, h: nat, name: string)
    requires Inv(s) && (h, name) in s.byName
    ensures h in s.inDir && s.inDir[h] != map[]
  {
    hide DirsOK, BlocksOK, FdsOK;
    assert NameKeyOK(s, (h, name)) && Indexed(s, s.byName[(h, name)]);
  }

  lemma NoFilesIn(s: State, h: nat, name: string)
    requires Inv(s) && (h !in s.inDir || s.inDir[h] == map[])
    ensures (h, name) !in s.byName
  {
    if (h, name) in s.byName { HomeOfName(s, h, name); }
  }

  lemma MkdirNames(s: State, path: string)
    requires Inv(s) && |path| > 0
    ensures NamesStep(s, OpMkdir(path), Mkdir(s, path).0, Mkdir(s, path).1)
  {
    hide Inv, NameClash, GetDirName, WriteDir;
    var (t, out) := Mkdir(s, path);
    if out == Done {
      var h := s.freeDhs[0];
      FreeDirHasNone(s);
      forall p ensures FoundAs(s, OpMkdir(path), t, p) { NoFilesIn(s, h, p.name); }
    }
  }

  lemma FreeDirHasNone(s: State)
    requires Inv(s) && s.freeDhs != []
    ensures s.freeDhs[0] !in s.inDir
  { }

  lemma RmdirNames(s: State, path: string)
    requires Inv(s) && |path| > 0
    ensures NamesStep(s, OpRmdir(path), Rmdir(s, path).0, Rmdir(s, path).1)
  {
    hide Inv, NameClash, GetDirName, WriteDir;
    var (t, out) := Rmdir(s, path);
    if out == Done {
      var q := AsDir(path);
      var h := s.tree.byPath[q];
      DirKnownAs(s, q);
      forall p ensures FoundAs(s, OpRmdir(path), t, p) { NoFilesIn(s, h, p.name); }
    }
  }

  lemma DirKnownAs(s: State, p: string)
    requires Inv(s) && p in s.tree.byPath
    ensures s.tree.byPath[p] in s.tree.names && s.tree.names[s.tree.byPath[p]] == p
  {
    hide IndexOK, BlocksOK, FdsOK;
    assert PathOK(s.tree, p);
  }

  // ---------------------------------------------------------------- renaming

  lemma RenameFileNames(s: State, from: string, to: string)
    requires Inv(s) && |from| > 0 && |to| > 0 && LookupFile(s, from).Some?
    ensures NamesStep(s, OpRename(from, to), Rename(s, from, to).0, Rename(s, from, to).1)
  {
    hide Inv, LookupFile, LookupDir, GetDirName, GetFileName, MoveFile, Move, RenamedDir;
    var (t, out) := Rename(s, from, to);
    if out == Done {
      var f := LookupFile(s, from).value;
      FileIsLive(s, from);
      var up := LookupDir(s, GetDirName(to)).value;
      LookupIsFind(s, from);
      MovedNames(s, f, up, StoredName(GetFileName(to)));
      forall p ensures FoundAs(s, OpRename(from, to), t, p) { MovedFind(s, from, to, p); }
    }
  }

  lemma FileIsLive(s: State, path: string)
    requires Inv(s) && |path| > 0 && LookupFile(s, path).Some?
    ensures LookupFile(s, path).value in s.files
  {
    hide GetDirName, GetFileName, LookupDir, BlocksOK, FdsOK, DirsOK;
    assert NameKeyOK(s, (LookupDir(s, GetDirName(path)).value, GetFileName(path)));
  }

  lemma TargetIsKnown(s: State, to: string)
    requires |to| > 0 && LookupDir(s, GetDirName(to)).Some?
    ensures TargetOf(to).dir in s.tree.byPath
    ensures s.tree.byPath[TargetOf(to).dir] == LookupDir(s, GetDirName(to)).value
  {
    hide GetDirName, GetFileName;
  }

  lemma MovedNames(s: State, f: nat, dh: nat, name: string)
    requires f in s.files && s.files[f].dh in s.inDir && dh in s.inDir
    ensures MoveFile(s, f, dh, name).tree == s.tree
    ensures MoveFile(s, f, dh, name).byName == (s.byName - {Key(s.files[f])})[(dh, name) := f]
  {
    hide MoveWrites;
  }

  lemma MovedFind(s: State, from: string, to: string, p: Place)
    requires Inv(s) && |from| > 0 && |to| > 0 && LookupFile(s, from).Some? && Rename(s, from, to).1 == Done
    ensures FoundAs(s, OpRename(from, to), Rename(s, from, to).0, p)
  {
    hide Inv, LookupFile, LookupDir, GetDirName, GetFileName, MoveFile, Move, RenamedDir, FindAfter;
    var f := LookupFile(s, from).value;
    FileIsLive(s, from);
    var up := LookupDir(s, GetDirName(to)).value;
    LookupIsFind(s, from);
    MovedNames(s, f, up, StoredName(GetFileName(to)));
    FileKey(s, PlaceOf(from));
    TargetIsKnown(s, to);
    var here, there := PlaceOf(from), TargetOf(to);
    if p != here && p.dir in s.tree.byPath { PlacesDiffer(s, p, here); }
    if p != there && p.dir in s.tree.byPath { PlacesDiffer(s, p, there); }
    MovedMeans(s, from, to, p);
  }

  lemma MovedMeans(s: State, from: string, to: string, p: Place)
    requires |from| > 0 && |to| > 0 && LookupFile(s, from).Some?
    ensures FindAfter(s, OpRename(from, to), p) ==
      if p == TargetOf(to) then LookupFile(s, from) else if p == PlaceOf(from) then None else Find(s, p)
  {
    hide Find, PlaceOf, TargetOf, LookupFile;
  }

  lemma FileKey(s: State, p: Place)
    requires Inv(s) && Find(s, p).Some?
    ensures Find(s, p).value in s.files && Key(s.files[Find(s, p).value]) == (s.tree.byPath[p.dir], p.name)
  {
    hide DirsOK, BlocksOK, FdsOK;
    assert NameKeyOK(s, (s.tree.byPath[p.dir], p.name));
  }

  lemma RenameDirNames(s: State, from: string, to: string)
    requires Inv(s) && |from| > 0 && |to| > 0 && LookupFile(s, from).None?
    ensures NamesStep(s, OpRename(from, to), Rename(s, from, to).0, Rename(s, from, to).1)
  {
    hide Inv, LookupFile, LookupDir, GetDirName, GetFileName, MoveFile, RenamedDir, WriteDir, FindAfter;
    var (t, out) := Rename(s, from, to);
    if out == Done {
      var h := RenamedDir(s, from, to).value;
      RenamedDirIs(s, from, to);
      DirKnownAs(s, AsDir(from));
      var rest := s.tree.byPath - {AsDir(from)};
      assert t.tree.byPath == if Taken(s, from, to) then rest else rest[AsDir(to) := h];
      forall p ensures FoundAs(s, OpRename(from, to), t, p) { RenamedMeans(s, from, to, p); }
    }
  }

  lemma RenamedMeans(s: State, from: string, to: string, p: Place)
    requires |from| > 0 && |to| > 0 && LookupFile(s, from).None?
    ensures FindAfter(s, OpRename(from, to), p) ==
      if p.dir == AsDir(to) && !Taken(s, from, to) then Find(s, Place(AsDir(from), p.name))
      else if p.dir == AsDir(from) then None else Find(s, p)
  { }

  lemma RenamedDirIs(s: State, from: string, to: string)
    requires |from| > 0 && |to| > 0 && RenamedDir(s, from, to).Some?
    ensures AsDir(from) in s.tree.byPath && RenamedDir(s, from, to).value == s.tree.byPath[AsDir(from)]
  {
    hide GetDirName, NameClash, LookupDir;
  }

  // ---------------------------------------------------------------- every call

  lemma QuietNames(s: State, op: Op, t: State, out: Outcome)
    requires (HasPath(op) ==> |op.path| > 0) && (op.OpTruncate? || op.OpFtruncate? || op.OpPwrite? || op.OpDup?)
    requires SameNames(s, t)
    ensures NamesStep(s, op, t, out)
  {
    forall p ensures FoundAs(s, op, t, p) { }
  }

  lemma TruncateNames(s: State, f: nat, size: nat, ids: seq<nat>)
    requires f in s.files
    ensures SameNames(s, Truncate(s, f, size, ids).0)
  {
    hide Extend, ShrinkWrites, LeakWrites, CopyPrefix, ShrinkReady, ShrinkLeaks;
    if size > s.files[f].size { ExtendShape(s, f, size, ids); }
  }

  lemma PwriteNames(s: State, f: nat, data: seq<byte>, off: nat, ids: seq<nat>)
    requires f in s.files
    ensures SameNames(s, Pwrite(s, f, data, off, ids).0)
  {
    hide Extend, Put;
    if data != [] && off + |data| > s.files[f].size { ExtendShape(s, f, off + |data|, ids); }
  }

  /** Every successful call changes the names as the simple specification says,
      at every place at once; a call that fails changes none. */
  lemma StepNames(s: State, op: Op)
    requires Inv(s) && Callable(s, op)
    ensures NamesStep(s, op, Step(s, op).0, Step(s, op).1)
  {
    hide Inv, NamesStep, TruncatePick, PwritePick, LookupFile, Create, Truncate, Pwrite, Open, Close, Unlink,
         Rename, Mkdir, Rmdir, AddOpen;
    var f := FileOf(s, op);
    var (t, out) := Step(s, op);
    match op
    case OpCreate(path) => CreateNames(s, path);
    case OpTruncate(_, size, ids) =>
      if f.Some? { TruncateNames(s, f.value, size, ids); }
      QuietNames(s, op, t, out);
    case OpFtruncate(_, size, ids) =>
      if f.Some? { TruncateNames(s, f.value, size, ids); }
      QuietNames(s, op, t, out);
    case OpPwrite(_, data, off, ids) =>
      if f.Some? { PwriteNames(s, f.value, data, off, ids); }
      QuietNames(s, op, t, out);
    case OpOpen(path, create) => OpenNames(s, path, create);
    case OpDup(fd) =>
      if f.Some? { DupNames(s, f.value); }
      QuietNames(s, op, t, out);
    case OpClose(fd) => CloseNames(s, fd);
    case OpUnlink(path) => UnlinkNames(s, path);
    case OpRename(path, to) =>
      if LookupFile(s, path).Some? { RenameFileNames(s, path, to); } else { RenameDirNames(s, path, to); }
    case OpMkdir(path) => MkdirNames(s, path);
    case OpRmdir(path) => RmdirNames(s, path);
  }

  lemma DupNames(s: State, f: nat)
    requires f in s.files
    ensures SameNames(s, AddOpen(s, f))
  { }

  // ---------------------------------------------------------------- descriptors

  /** What a successful call does to the descriptors: open and dup add the next
      one, close takes its own away. */
  function OpensAfter(s: State, op: Op): map<nat, nat>
    requires HasPath(op) ==> |op.path| > 0
  {
    match op
    case OpOpen(path, _) =>
      var who := LookupFile(s, path);
      s.open[NextFd(s) := if who.Some? then who.value else s.nextId]
    case OpDup(fd) => if fd in s.open then s.open[NextFd(s) := s.open[fd]] else s.open
    case OpClose(fd) => s.open - {fd}
    case _ => s.open
  }

  lemma StepOpens(s: State, op: Op)
    requires Inv(s) && Callable(s, op)
    ensures NextFd(s) !in s.open <==> s.freeFds != [] || NO_FD !in s.open
    ensures Step(s, op).0.open == if Step(s, op).1 == Done then OpensAfter(s, op) else s.open
  {
    hide DirsOK, IndexOK, BlocksOK, LinksOK, TruncatePick, PwritePick, LookupFile, LookupDir, Create, Truncate,
         Pwrite, Rename, Mkdir, Rmdir, DropFile;
    var f := FileOf(s, op);
    FdLeftIff(s);
    match op
    case OpCreate(path) => QuietCreate(s, path);
    case OpTruncate(_, size, ids) => if f.Some? { QuietTruncate(s, f.value, size, ids); }
    case OpFtruncate(_, size, ids) => if f.Some? { QuietTruncate(s, f.value, size, ids); }
    case OpPwrite(_, data, off, ids) => if f.Some? { QuietPwrite(s, f.value, data, off, ids); }
    case OpOpen(path, create) => QuietCreate(s, path); OpenFound(s, path);
    case OpDup(fd) =>
    case OpClose(fd) => CloseOpens(s, fd);
    case OpUnlink(path) => UnlinkOpens(s, path);
    case OpRename(path, to) => QuietRename(s, path, to);
    case OpMkdir(path) => QuietDirs(s, path);
    case OpRmdir(path) => QuietDirs(s, path);
  }

  lemma OpenFound(s: State, path: string)
    requires Inv(s) && |path| > 0
    ensures LookupFile(s, path).Some? ==> LookupFile(s, path).value in s.files
  {
    hide Inv;
    if LookupFile(s, path).Some? { FileIsLive(s, path); }
  }

  lemma QuietCreate(s: State, path: string)
    requires |path| > 0
    ensures Create(s, path).0.open == s.open && Create(s, path).0.freeFds == s.freeFds
    ensures Create(s, path).1 == Done ==> s.nextId in Create(s, path).0.files
  {
    hide LookupDir, GetDirName, GetFileName, AddWrites;
  }

  lemma QuietTruncate(s: State, f: nat, size: nat, ids: seq<nat>)
    requires f in s.files
    ensures Truncate(s, f, size, ids).0.open == s.open
  {
    hide Extend, ShrinkWrites, LeakWrites, CopyPrefix, ShrinkReady, ShrinkLeaks;
    if size > s.files[f].size { ExtendShape(s, f, size, ids); }
  }

  lemma QuietPwrite(s: State, f: nat, data: seq<byte>, off: nat, ids: seq<nat>)
    requires f in s.files
    ensures Pwrite(s, f, data, off, ids).0.open == s.open
  {
    hide Extend, Put;
    if data != [] && off + |data| > s.files[f].size { ExtendShape(s, f, off + |data|, ids); }
  }

  lemma CloseOpens(s: State, fd: nat)
    ensures Close(s, fd).0.open == if Close(s, fd).1 == Done then s.open - {fd} else s.open
  {
    hide DropWrites;
  }

  lemma UnlinkOpens(s: State, path: string)
    requires |path| > 0
    ensures Unlink(s, path).0.open == s.open
  {
    hide LookupFile, LookupDir, DropWrites;
  }

  lemma QuietRename(s: State, from: string, to: string)
    requires |from| > 0 && |to| > 0
    ensures Rename(s, from, to).0.open == s.open
  {
    hide LookupFile, LookupDir, GetDirName, GetFileName, RenamedDir, Move, MoveWrites;
  }

  lemma QuietDirs(s: State, path: string)
    requires |path| > 0
    ensures Mkdir(s, path).0.open == s.open && Rmdir(s, path).0.open == s.open
  {
    hide GetDirName, NameClash, Add, Remove;
  }

  // ---------------------------------------------------------------- over runs

  /** Call by call, names and descriptors follow the simple specification. */
  ghost predicate NamesFollow(s: State, ops: seq<Op>)
    requires PermittedRun(s, ops)
    decreases |ops|
  {
    ops != [] ==>
      && NamesStep(s, ops[0], Step(s, ops[0]).0, Step(s, ops[0]).1)
      && Step(s, ops[0]).0.open == (if Step(s, ops[0]).1 == Done then OpensAfter(s, ops[0]) else s.open)
      && NamesFollow(Step(s, ops[0]).0, ops[1..])
  }

  lemma {:induction false} RunNames(s: State, ops: seq<Op>)
    requires Inv(s) && PermittedRun(s, ops)
    ensures NamesFollow(s, ops)
    decreases |ops|
  {
    hide Inv, Conserved, Step, NamesStep, OpensAfter, Keeps;
    if ops != [] {
      StepNames(s, ops[0]);
      StepOpens(s, ops[0]);
      StepKeepsInv(s, ops[0]);
      RunNames(Step(s, ops[0]).0, ops[1..]);
    }
  }
}
