/** Every call keeps the invariant; a call that does not leak loses no block. */
module CallProofs {
  import opened Geometry
  import opened Slots
  import opened Paths
  import opened DirTree
  import opened Store
  import opened StoreProofs
  import opened Calls

  /** What each call is shown to do to the invariant. */
  ghost predicate Keeps(s: State, t: State, out: Outcome) {
    Inv(t) && (Conserved(s) && out != Leaked ==> Conserved(t))
  }

  lemma CreateKeeps(s: State, path: string)
    requires Inv(s) && |path| > 0
    ensures Keeps(s, Create(s, path).0, Create(s, path).1)
  {
    hide Inv, Conserved, AddFile, GetDirName, GetFileName, LookupDir;
    var (t, out) := Create(s, path);
    if out == Done {
      AddFileKeepsInv(s, LookupDir(s, GetDirName(path)).value, GetFileName(path));
    }
  }

  lemma TruncateKeeps(s: State, f: nat, size: nat, ids: seq<nat>)
    requires Inv(s) && f in s.files && TruncatePick(s, f, size, ids)
    ensures Keeps(s, Truncate(s, f, size, ids).0, Truncate(s, f, size, ids).1)
  {
    hide Inv, Conserved, Extend, ShrinkDone, ShrinkLeak, ShrinkReady, ExtendRefused;
    var x := s.files[f];
    if size > x.size {
      ExtendKeepsInv(s, f, size, ids);
      if Conserved(s) { ExtendKeepsConserved(s, f, size, ids); }
    } else if size < x.size && !ShrinkRefused(s) {
      if ShrinkLeaks(s, size) {
        ShrinkLeakKeepsInv(s, f, size);
      } else {
        var tail := if ids == [] then 0 else ids[0];
        ShrinkIsReady(s, f, size, tail);
        ShrinkKeepsInv(s, f, size, tail);
        if Conserved(s) { ShrinkKeepsConserved(s, f, size, tail); }
      }
    }
  }

  lemma DevFrame(s: State, dev: seq<byte>)
    requires Inv(s) && |dev| == |s.dev|
    ensures Inv(s.(dev := dev)) && (Conserved(s) ==> Conserved(s.(dev := dev)))
  {
    hide DirsOK, IndexOK, BlocksOK, FdsOK;
    var t := s.(dev := dev);
    InvFreeLists(s);
    DirsFrame(s, t);
    IndexFrame(s, t);
    BlocksSame(s, t);
    FdsFrame(s, t);
    if Conserved(s) { ConservedSame(s, t); }
  }

  lemma PwriteKeeps(s: State, f: nat, data: seq<byte>, off: nat, ids: seq<nat>)
    requires Inv(s) && f in s.files && PwritePick(s, f, data, off, ids)
    ensures Keeps(s, Pwrite(s, f, data, off, ids).0, Pwrite(s, f, data, off, ids).1)
  {
    hide Inv, Conserved, Extend, ExtendRefused, Put;
    var end := off + |data|;
    if data != [] {
      if end > s.files[f].size {
        ExtendKeepsInv(s, f, end, ids);
        if Conserved(s) { ExtendKeepsConserved(s, f, end, ids); }
      }
      var (t, out) := if end > s.files[f].size then Extend(s, f, end, ids) else (s, Done);
      if out == Done && f in t.files {
        DevFrame(t, Put(t.dev, t.files[f].ids, off, data));
      }
    }
  }

  lemma UnlinkKeeps(s: State, path: string)
    requires Inv(s) && |path| > 0
    ensures Keeps(s, Unlink(s, path).0, Unlink(s, path).1)
  {
    hide DirsOK, IndexOK, BlocksOK, FdsOK, Conserved, DropFile, LookupDir, LookupFile;
    var who := LookupFile(s, path);
    if who.Some? && who.value in s.files {
      if s.files[who.value].nlink > 0 {
        var t := s.(files := s.files[who.value := s.files[who.value].(deleted := true)]);
        InvFreeLists(s);
        DirsFrame(s, t);
        IndexFrame(s, t);
        BlocksSame(s, t);
        FdsFrame(s, t);
        if Conserved(s) { ConservedSame(s, t); }
      } else {
        DropFileKeepsInv(s, who.value);
      }
    }
  }

  // ---------------------------------------------------------------- descriptors

  lemma OpensAdd(open: map<nat, nat>, fd: nat, f: nat, g: nat)
    requires fd !in open
    ensures Opens(open[fd := f], g) == Opens(open, g) + (if g == f then {fd} else {})
    ensures |Opens(open[fd := f], g)| == |Opens(open, g)| + (if g == f then 1 else 0)
  {
    assert Opens(open[fd := f], g) == Opens(open, g) + (if g == f then {fd} else {});
  }

  lemma OpensRemove(open: map<nat, nat>, fd: nat, g: nat)
    requires fd in open
    ensures |Opens(open - {fd}, g)| == |Opens(open, g)| - (if g == open[fd] then 1 else 0)
  {
    var rest := open - {fd};
    assert Opens(open, g) == Opens(rest, g) + (if g == open[fd] then {fd} else {});
  }

  /** The next descriptor is not in use; it is whenever the pool has one left, and
      once more when the pool is empty. */
  predicate FdLeft(s: State) { NextFd(s) !in s.open }

  lemma FdLeftIff(s: State)
    requires Inv(s)
    ensures FdLeft(s) <==> s.freeFds != [] || NO_FD !in s.open
  {
    hide DirsOK, IndexOK, BlocksOK, LinksOK, NoDup;
    assert NextFd(s) in s.open ==> FdOK(s, NextFd(s));
  }

  lemma AddOpenFds(s: State, f: nat)
    requires Inv(s) && f in s.files && FdLeft(s)
    ensures FdsOK(AddOpen(s, f))
  {
    hide DirsOK, IndexOK, BlocksOK, Opens;
    var t := AddOpen(s, f);
    var fd := NextFd(s);
    if s.freeFds != [] { NoDupRotate(s.freeFds); }
    forall e | e in t.open ensures FdOK(t, e) { assert e in s.open ==> FdOK(s, e); }
    forall g | g in t.files ensures LinksOK(t, g) {
      assert LinksOK(s, g);
      OpensAdd(s.open, fd, f, g);
    }
  }

  /** An entry that is replaced is still counted in its file's links. */
  lemma ReplacedEntry(s: State, f: nat)
    requires Inv(s) && f in s.files && !FdLeft(s)
    ensures !FdsOK(AddOpen(s, f))
  {
    hide DirsOK, IndexOK, BlocksOK;
    var t := AddOpen(s, f);
    var fd := NextFd(s);
    assert LinksOK(s, f);
    if s.open[fd] == f {
      assert Opens(t.open, f) == Opens(s.open, f);
      assert !LinksOK(t, f);
    } else {
      var g := s.open[fd];
      assert FdOK(s, fd) && LinksOK(s, g);
      assert Opens(s.open, g) == Opens(t.open, g) + {fd};
      assert !LinksOK(t, g);
    }
  }

  lemma AddOpenKeeps(s: State, f: nat)
    requires Inv(s) && f in s.files
    ensures Inv(AddOpen(s, f)) <==> FdLeft(s)
    ensures FdLeft(s) ==> Keeps(s, AddOpen(s, f), Done)
  {
    hide DirsOK, IndexOK, BlocksOK, FdsOK, Conserved, FdLeft;
    var t := AddOpen(s, f);
    if FdLeft(s) {
      InvFreeLists(s);
      AddOpenFds(s, f);
      DirsFrame(s, t);
      IndexFrame(s, t);
      BlocksSame(s, t);
      if Conserved(s) { ConservedSame(s, t); }
    } else {
      ReplacedEntry(s, f);
    }
  }

  lemma OpenKeeps(s: State, path: string, create: bool)
    requires Inv(s) && |path| > 0
    ensures var (t, out) := Open(s, path, create);
      && (Inv(t) <==> (out == Done ==> FdLeft(s)))
      && ((out == Done ==> FdLeft(s)) ==> Keeps(s, t, out))
  {
    hide Inv, Conserved, AddOpen, Create, LookupDir, LookupFile, FdLeft;
    var who := LookupFile(s, path);
    if who.Some? && who.value in s.files {
      AddOpenKeeps(s, who.value);
    } else {
      CreateKeeps(s, path);
      var (t, out) := Create(s, path);
      if out == Done && s.nextId in t.files {
        CreateLeavesFds(s, path);
        AddOpenKeeps(t, s.nextId);
      }
    }
  }

  lemma CreateLeavesFds(s: State, path: string)
    requires |path| > 0
    ensures FdLeft(Create(s, path).0) <==> FdLeft(s)
  {
    hide LookupDir, GetDirName, GetFileName, AddWrites;
  }

  lemma DropLinkFds(s: State, fd: nat)
    requires Inv(s) && fd in s.open && s.open[fd] in s.files && s.files[s.open[fd]].nlink > 0
    ensures FdsOK(DropLink(s, fd))
  {
    hide DirsOK, IndexOK, BlocksOK, Opens;
    var t := DropLink(s, fd);
    assert FdOK(s, fd);
    NoDupSnoc(s.freeFds, fd);
    forall e | e in t.open ensures FdOK(t, e) { assert FdOK(s, e); }
    forall g | g in t.files ensures LinksOK(t, g) {
      assert LinksOK(s, g);
      OpensRemove(s.open, fd, g);
    }
  }

  lemma DropLinkKeeps(s: State, fd: nat)
    requires Inv(s) && fd in s.open && s.open[fd] in s.files && s.files[s.open[fd]].nlink > 0
    ensures Keeps(s, DropLink(s, fd), Done)
  {
    hide DirsOK, IndexOK, BlocksOK, FdsOK, Conserved;
    var t := DropLink(s, fd);
    InvFreeLists(s);
    DropLinkFds(s, fd);
    DirsFrame(s, t);
    IndexFrame(s, t);
    BlocksSame(s, t);
    if Conserved(s) { ConservedSame(s, t); }
  }

  /** An open entry always counts as a link, so close never underflows. */
  lemma OpenMeansLinked(s: State, fd: nat)
    requires Inv(s) && fd in s.open
    ensures s.open[fd] in s.files && s.files[s.open[fd]].nlink > 0
  {
    assert FdOK(s, fd) && LinksOK(s, s.open[fd]);
    assert fd in Opens(s.open, s.open[fd]);
  }

  lemma CloseKeeps(s: State, fd: nat)
    requires Inv(s)
    ensures Keeps(s, Close(s, fd).0, Close(s, fd).1)
  {
    hide Inv, Conserved, DropFile;
    if fd in s.open {
      OpenMeansLinked(s, fd);
      DropLinkKeeps(s, fd);
      var f := s.open[fd];
      var t := DropLink(s, fd);
      if t.files[f].nlink == 0 && t.files[f].deleted { DropFileKeepsInv(t, f); }
    }
  }

  // ---------------------------------------------------------------- directories and names

  lemma TreeOnly(s: State, t: State)
    requires Inv(s) && DirsOK(t)
    requires t == s.(tree := t.tree, freeDhs := t.freeDhs, inDir := t.inDir, tab := t.tab)
    requires forall d :: d in s.inDir && s.inDir[d] != map[] ==> d in t.inDir
    requires forall d :: d in t.inDir ==> t.inDir[d] == if d in s.inDir then s.inDir[d] else map[]
    ensures Keeps(s, t, Done)
  {
    hide DirsOK, BlocksOK, FdsOK, Conserved, NoDup;
    InvFreeLists(s);
    FdsFrame(s, t);
    BlocksSame(s, t);
    forall f | f in t.files ensures Indexed(t, f) { assert Indexed(s, f); }
    forall h | h in t.byFh ensures FhOK(t, h) { assert FhOK(s, h); }
    forall k | k in t.byName ensures NameKeyOK(t, k) { assert NameKeyOK(s, k); }
    forall d, h | d in t.inDir && h in t.inDir[d] ensures ItemOK(t, d, h) { assert ItemOK(s, d, h); }
    if Conserved(s) { ConservedSame(s, t); }
  }

  lemma MkdirKeeps(s: State, path: string)
    requires Inv(s) && |path| > 0
    ensures Keeps(s, Mkdir(s, path).0, Mkdir(s, path).1)
  {
    hide TreeOK, IndexOK, BlocksOK, FdsOK, Conserved, GetDirName, IsMountPoint, Add, NameClash, Keeps;
    var (t, out) := Mkdir(s, path);
    if out == Done {
      var h := s.freeDhs[0];
      NoDupRotate(s.freeDhs);
      AddKeepsTree(s.tree, h, AsDir(path));
      AddNames(s.tree, h, AsDir(path));
      TreeOnly(s, t);
    } else {
      KeepsSame(s, out);
    }
  }

  lemma KeepsSame(s: State, out: Outcome)
    requires Inv(s)
    ensures Keeps(s, s, out)
  { }

  lemma AddNames(t: Tree, h: nat, path: string)
    requires |path| > 0
    ensures Add(t, h, path).names.Keys == t.names.Keys + {h}
  { }

  lemma RmdirKeeps(s: State, path: string)
    requires Inv(s) && |path| > 0
    ensures Keeps(s, Rmdir(s, path).0, Rmdir(s, path).1)
    ensures Rmdir(s, path).1 == Done ==>
      && AsDir(path) in s.tree.byPath && KidsOf(s.tree, s.tree.byPath[AsDir(path)]) == {}
      && forall f :: f in s.files ==> s.files[f].dh != s.tree.byPath[AsDir(path)]
  {
    hide TreeOK, IndexOK, BlocksOK, FdsOK, Conserved, GetDirName, IsMountPoint, NameClash, Keeps;
    var (t, out) := Rmdir(s, path);
    if out == Done {
      var p := AsDir(path);
      var h := s.tree.byPath[p];
      PathMeans(s.tree, p);
      RemoveKeepsTree(s.tree, h) by { RmdirNotTop(path); }
      assert DirsOK(t);
      forall f | f in s.files ensures s.files[f].dh != h { InvHasBlocks(s, f); }
      TreeOnly(s, t);
    } else {
      KeepsSame(s, out);
    }
  }

  lemma RmdirNotTop(path: string)
    requires |path| > 0 && !IsMountPoint(path)
    ensures !IsMountPoint(AsDir(path))
  { }

  lemma PathMeans(t: Tree, p: string)
    requires TreeOK(t) && p in t.byPath
    ensures EndsWithSlash(p) && t.byPath[p] in t.names && t.names[t.byPath[p]] == p && t.byPath[p] in t.kids
    ensures IsMountPoint(p) || GetDirName(p) in t.byPath
  {
    assert PathOK(t, p) && KidOK(t, t.byPath[p], 0);
  }

  /** The name that is stored for `to` is not another file's. */
  ghost predicate TargetIsFree(s: State, f: nat, to: string)
    requires |to| > 0
  {
    var up := LookupDir(s, GetDirName(to));
    up.Some? ==>
      var key := (up.value, StoredName(GetFileName(to)));
      key !in s.byName || s.byName[key] == f
  }

  /** The condition for a rename that is carried out to leave every index and
      the tree intact: for a file TargetIsFree, for a directory MoveIsSafe. */
  ghost predicate RenameIsSafe(s: State, from: string, to: string)
    requires |from| > 0 && |to| > 0
  {
    Rename(s, from, to).1 == Done ==>
      var who := LookupFile(s, from);
      if who.Some? && who.value in s.files then TargetIsFree(s, who.value, to)
      else RenamedDir(s, from, to).Some? ==> MoveIsSafe(s.tree, RenamedDir(s, from, to).value, AsDir(to))
  }

  lemma RenameDirKeeps(s: State, h: nat, to: string, tab: Tables)
    requires Inv(s) && CanMove(s.tree, h, to)
    ensures var t := s.(tree := Move(s.tree, h, to), tab := tab);
      && (Inv(t) <==> MoveIsSafe(s.tree, h, to))
      && (Inv(t) ==> Keeps(s, t, Done))
  {
    hide TreeOK, IndexOK, BlocksOK, FdsOK, Conserved, GetDirName, IsMountPoint, Keeps;
    var t := s.(tree := Move(s.tree, h, to), tab := tab);
    RenameKeepsTree(s.tree, h, to);
    if MoveIsSafe(s.tree, h, to) {
      MoveNames(s.tree, h, to);
      TreeOnly(s, t);
      KeepsInv(s, t);
    }
  }

  lemma KeepsInv(s: State, t: State)
    requires Keeps(s, t, Done)
    ensures Inv(t)
  { }

  lemma MoveNames(t: Tree, h: nat, to: string)
    requires TreeOK(t) && CanMove(t, h, to) && MoveIsSafe(t, h, to)
    ensures Move(t, h, to).names.Keys == t.names.Keys
  {
    hide GetDirName, IsMountPoint;
    assert NameOK(t, h);
  }

  lemma RenamedDirCanMove(s: State, from: string, to: string)
    requires Inv(s) && |from| > 0 && |to| > 0 && RenamedDir(s, from, to).Some?
    ensures CanMove(s.tree, RenamedDir(s, from, to).value, AsDir(to))
  {
    hide GetDirName, IndexOK, BlocksOK, FdsOK, NameClash, TreeOK;
    PathMeans(s.tree, AsDir(from));
    RmdirNotTop(from);
    RmdirNotTop(to);
    AsDirIdle(GetDirName(AsDir(to)));
  }

  lemma AsDirIdle(p: string)
    ensures EndsWithSlash(p) ==> AsDir(p) == p
  { }

  /** A rename keeps the invariant exactly when it is safe. */
  lemma RenameKeeps(s: State, from: string, to: string)
    requires Inv(s) && |from| > 0 && |to| > 0
    ensures Inv(Rename(s, from, to).0) <==> RenameIsSafe(s, from, to)
    ensures RenameIsSafe(s, from, to) ==> Keeps(s, Rename(s, from, to).0, Rename(s, from, to).1)
  {
    hide Inv, Conserved, LookupDir, LookupFile, GetDirName, GetFileName, MoveFile, Move, RenamedDir, MoveIsSafe,
         CanMove;
    if Rename(s, from, to).1 == Done {
      var who := LookupFile(s, from);
      if who.Some? && who.value in s.files {
        MoveFileKeepsInv(s, who.value, LookupDir(s, GetDirName(to)).value, StoredName(GetFileName(to)));
      } else {
        RenamedDirCanMove(s, from, to);
        RenameDirKeeps(s, RenamedDir(s, from, to).value, AsDir(to), Rename(s, from, to).0.tab);
      }
    }
  }
}
