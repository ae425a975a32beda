/** A file that is deleted while open lives until its last close. */
module DeferredDelete {
  import opened Geometry
  import opened Paths
  import opened DirTree
  import opened Store
  import opened StoreProofs
  import opened Calls
  import opened CallProofs
  import opened Runs
  import opened Contents

  /** unlink of an open file takes nothing from it; of any other, everything. */
  lemma UnlinkDefers(s: State, path: string)
    requires Inv(s) && |path| > 0 && Unlink(s, path).1 == Done
    ensures var f := LookupFile(s, path).value; var t := Unlink(s, path).0;
      && LookupFile(s, path).Some? && f in s.files
      && (f in t.files <==> Opens(s.open, f) != {})
      && (f in t.files ==>
           t.files[f] == s.files[f].(deleted := true) && t.pool == s.pool && t.dev == s.dev && t.byName == s.byName)
      && (f !in t.files ==> forall b :: b in s.files[f].ids ==> b in t.pool && b !in s.pool)
  {
    hide DirsOK, IndexOK, BlocksOK, FdsOK, LookupDir, LookupFile, DropFile;
    var f := LookupFile(s, path).value;
    InvHasBlocks(s, f);
    if s.files[f].nlink == 0 { DropFileKeepsInv(s, f); DropFileShape(s, f); }
  }

  lemma DropFileShape(s: State, f: nat)
    requires f in s.files && s.files[f].dh in s.inDir
    ensures DropFile(s, f).files == s.files - {f} && DropFile(s, f).pool == s.pool + Elems(s.files[f].ids)
    ensures s.files[f].fh !in DropFile(s, f).byFh && Key(s.files[f]) !in DropFile(s, f).byName
    ensures s.files[f].dh in DropFile(s, f).inDir && s.files[f].fh !in DropFile(s, f).inDir[s.files[f].dh]
  {
    hide DropWrites;
  }

  /** close removes the file exactly when it is marked and this was its last
      entry; its blocks are then in the pool and it is in none of the indexes. */
  lemma CloseRemovesIff(s: State, fd: nat)
    requires Inv(s) && fd in s.open
    ensures var f := s.open[fd]; var t := Close(s, fd).0;
      && f in s.files && fd !in t.open && fd in t.freeFds
      && (f !in t.files <==> s.files[f].deleted && Opens(s.open, f) == {fd})
      && (f in t.files ==>
           t.pool == s.pool && t.files[f].ids == s.files[f].ids && t.files[f].deleted == s.files[f].deleted)
      && (f !in t.files ==>
            && (forall b :: b in s.files[f].ids ==> b in t.pool && b !in s.pool)
            && s.files[f].fh !in t.byFh && Key(s.files[f]) !in t.byName
            && (s.files[f].dh in t.inDir ==> s.files[f].fh !in t.inDir[s.files[f].dh]))
  {
    hide DirsOK, IndexOK, BlocksOK, FdsOK, Opens, DropFile;
    OpenMeansLinked(s, fd);
    var f := s.open[fd];
    var u := DropLink(s, fd);
    InvHasBlocks(s, f);
    LastEntry(s.open, fd);
    DropLinkKeeps(s, fd);
    if u.files[f].nlink == 0 && s.files[f].deleted {
      DropFileKeepsInv(u, f);
      DropFileShape(u, f);
      DropFileFd(u, f);
    }
  }

  lemma DropFileFd(s: State, f: nat)
    requires f in s.files && s.files[f].dh in s.inDir
    ensures DropFile(s, f).open == s.open && DropFile(s, f).freeFds == s.freeFds
  {
    hide DropWrites;
  }

  lemma LastEntry(open: map<nat, nat>, fd: nat)
    requires fd in open
    ensures |Opens(open, open[fd])| == 1 <==> Opens(open, open[fd]) == {fd}
  {
    var o := Opens(open, open[fd]);
    assert fd in o;
    if |o| == 1 {
      assert |o - {fd}| == 0;
      assert o == {fd};
    }
  }

  // ---------------------------------------------------------------- over runs

  /** No deleted file without an open entry is left behind. */
  ghost predicate NoZombie(s: State) {
    forall f :: f in s.files && s.files[f].deleted ==> s.files[f].nlink > 0
  }

  ghost predicate SameMarks(s: State, t: State) {
    t.files.Keys == s.files.Keys
    && forall f :: f in s.files ==> t.files[f].deleted == s.files[f].deleted && t.files[f].nlink == s.files[f].nlink
  }

  lemma ExtendMarks(s: State, f: nat, off: nat, ids: seq<nat>)
    requires f in s.files && s.files[f].size < off
    ensures SameMarks(s, Extend(s, f, off, ids).0)
  {
    hide Extend;
    ExtendShape(s, f, off, ids);
  }

  lemma TruncateMarks(s: State, f: nat, size: nat, ids: seq<nat>)
    requires f in s.files
    ensures SameMarks(s, Truncate(s, f, size, ids).0)
  {
    hide Extend, ShrinkLeaks, ShrinkReady, ShrinkWrites, LeakWrites, CopyPrefix;
    if size > s.files[f].size { ExtendMarks(s, f, size, ids); }
  }

  lemma PwriteMarks(s: State, f: nat, data: seq<byte>, off: nat, ids: seq<nat>)
    requires f in s.files
    ensures SameMarks(s, Pwrite(s, f, data, off, ids).0)
  {
    hide Extend, Put;
    if data != [] && off + |data| > s.files[f].size { ExtendMarks(s, f, off + |data|, ids); }
  }

  lemma CreateMarks(s: State, path: string)
    requires |path| > 0 && NoZombie(s)
    ensures NoZombie(Create(s, path).0)
  {
    hide LookupDir, GetDirName, GetFileName, AddWrites;
  }

  lemma RenameMarks(s: State, from: string, to: string)
    requires |from| > 0 && |to| > 0
    ensures SameMarks(s, Rename(s, from, to).0)
  {
    hide LookupDir, LookupFile, GetDirName, GetFileName, Move, RenamedDir, MoveWrites;
  }

  lemma OpenMarks(s: State, path: string, create: bool)
    requires |path| > 0 && NoZombie(s)
    ensures NoZombie(Open(s, path, create).0)
  {
    hide LookupDir, LookupFile, Create;
    CreateMarks(s, path);
  }

  lemma UnlinkMarks(s: State, path: string)
    requires |path| > 0 && NoZombie(s)
    ensures NoZombie(Unlink(s, path).0)
  {
    hide LookupDir, LookupFile, DropWrites;
  }

  lemma CloseMarks(s: State, fd: nat)
    requires Inv(s) && NoZombie(s)
    ensures NoZombie(Close(s, fd).0)
  {
    hide Inv, DropWrites;
    if fd in s.open {
      OpenMeansLinked(s, fd);
      InvHasBlocks(s, s.open[fd]);
    }
  }

  lemma StepNoZombie(s: State, op: Op)
    requires Inv(s) && NoZombie(s) && Permitted(s, op)
    ensures NoZombie(Step(s, op).0)
  {
    hide Inv, TruncatePick, PwritePick, RenameIsSafe, LookupFile, Create, Truncate, Pwrite, Open, Close, Unlink,
         Rename, Mkdir, Rmdir;
    var f := FileOf(s, op);
    match op
    case OpCreate(path) => CreateMarks(s, path);
    case OpTruncate(_, size, ids) => if f.Some? { TruncateMarks(s, f.value, size, ids); }
    case OpFtruncate(_, size, ids) => if f.Some? { TruncateMarks(s, f.value, size, ids); }
    case OpPwrite(_, data, off, ids) => if f.Some? { PwriteMarks(s, f.value, data, off, ids); }
    case OpOpen(path, create) => OpenMarks(s, path, create);
    case OpDup(fd) =>
    case OpClose(fd) => CloseMarks(s, fd);
    case OpUnlink(path) => UnlinkMarks(s, path);
    case OpRename(path, to) => RenameMarks(s, path, to);
    case OpMkdir(path) => MkdirSame(s, path);
    case OpRmdir(path) => RmdirSame(s, path);
  }

  /** Over any run: a file marked deleted always has an open entry. */
  lemma {:induction false} RunNoZombie(s: State, ops: seq<Op>)
    requires Inv(s) && NoZombie(s) && PermittedRun(s, ops)
    ensures NoZombie(Run(s, ops))
    decreases |ops|
  {
    hide Inv, Step, Keeps;
    if ops != [] {
      StepNoZombie(s, ops[0]);
      StepKeepsInv(s, ops[0]);
      RunNoZombie(Step(s, ops[0]).0, ops[1..]);
    }
  }
}
