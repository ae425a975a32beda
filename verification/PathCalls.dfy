/** The calls on paths in the usual form, a directory path and a name below it: what
    they answer, and where files and directories are found afterwards, in terms of
    that directory and that name. */
module PathCalls {
  import opened Geometry
  import opened Slots
  import opened Paths
  import opened PathProofs
  import opened DirTree
  import opened Store
  import opened StoreProofs
  import opened Calls
  import opened CallProofs
  import opened Runs
  import opened Contents
  import opened Namespace
  import opened Answers

  // ---------------------------------------------------------------- names

  /** What the name field keeps. */
  function Cut(name: string): string { if |name| < 64 then name else name[..64] }

  /** The file `name` in the directory `dir`, as a call finds it. */
  function FileIn(s: State, dir: string, name: string): Option<nat> {
    if |name| < 64 && |dir| < 768 && dir in s.tree.byPath && (s.tree.byPath[dir], name) in s.byName
    then Some(s.byName[(s.tree.byPath[dir], name)]) else None
  }

  predicate DirIs(s: State, dir: string) { |dir| < 768 && dir in s.tree.byPath }

  /** Places and lookups of a path are those of its directory and its name. */
  lemma JoinedIs(s: State, dir: string, name: string)
    requires IsDirPath(dir) && IsName(name)
    ensures dir + name != "" && LookupFile(s, dir + name) == FileIn(s, dir, name)
    ensures LookupFile(s, dir + name + "/") == None
    ensures PlaceOf(dir + name) == Place(dir, name) && TargetOf(dir + name) == Place(dir, Cut(name))
    ensures LookupDir(s, dir + name) == LookupDir(s, dir + name + "/")
    ensures LookupDir(s, dir + name) ==
      if DirIs(s, dir + name + "/") then Some(s.tree.byPath[dir + name + "/"]) else None
    ensures LookupDir(s, dir) == if DirIs(s, dir) then Some(s.tree.byPath[dir]) else None
  {
    hide GetDirName, GetFileName;
    ParentIs(dir, name);
    AsDirIs(dir, name);
  }


  /** A file has the path of a directory, exactly when there is one of its name in
      the directory above. */
  lemma FileOnPathIs(s: State, dir: string, name: string)
    requires IsDirPath(dir) && IsName(name)
    ensures FileOnPath(s, dir + name) <==> FileIn(s, dir, name).Some?
    ensures FileOnPath(s, dir + name + "/") <==> FileIn(s, dir, name).Some?
    ensures FileInTheWay(s, dir + name) <==> FileIn(s, dir, name).Some? || (dir != "/" && FileOnPath(s, dir))
    ensures FileInTheWay(s, dir + name + "/") <==> FileInTheWay(s, dir + name)
  {
    hide FileAtPath, LookupFile, GetDirName, GetFileName;
    ParentIs(dir, name);
    JoinedIs(s, dir, name);
    LookupFileIs(s, dir + name);
    var p, q := dir + name, dir + name + "/";
    assert q[..|q| - 1] == p;
    assert p != "/" && q != "/" by {
      assert |q| > 2;
      assert p[|p| - 1] == name[|name| - 1] && name[|name| - 1] in name;
    }
  }

  // ---------------------------------------------------------------- files

  ghost predicate SamePlaces(s: State, t: State, but: Place) {
    forall p :: p != but ==> Find(t, p) == Find(s, p)
  }

  /** Create makes an empty file under its name in its directory. */
  lemma CreateJoined(s: State, dir: string, name: string)
    requires Inv(s) && IsDirPath(dir) && IsName(name)
    ensures var (t, out) := Create(s, dir + name);
      && (out == Done <==> |name| < 64 && DirIs(s, dir) && FileIn(s, dir, name).None? && s.freeFhs != [])
      && (out == Done ==>
            && s.nextId in t.files && s.nextId !in s.files
            && t.files == s.files[s.nextId := File(s.freeFhs[0], s.tree.byPath[dir], name, 0, None, [], 0, false)]
            && FileIn(t, dir, name) == Some(s.nextId) && t.tree == s.tree && SamePlaces(s, t, Place(dir, name)))
      && (out != Done ==> t == s)
  {
    hide Inv, GetDirName, GetFileName, AddWrites, LookupFile;
    ParentIs(dir, name);
    JoinedIs(s, dir, name);
    CreateOutcome(s, dir + name);
    LookupFileIs(s, dir + name);
    LookupDirIs(s, dir);
    CreateNames(s, dir + name);
    NextIdIsNew(s);
    var t := Create(s, dir + name).0;
    forall p | Create(s, dir + name).1 == Done && p != Place(dir, name) ensures Find(t, p) == Find(s, p) {
      assert FoundAs(s, OpCreate(dir + name), t, p);
    }
  }

  lemma NamesFrame(s: State, u: State, t: State, dir: string, name: string)
    requires SameNames(u, t)
    ensures FileIn(t, dir, name) == FileIn(u, dir, name)
    ensures u == s || SamePlaces(s, u, Place(dir, name)) ==> SamePlaces(s, t, Place(dir, name))
  { }

  /** Open gives a descriptor for the file of that name, or for a new one. */
  lemma OpenJoined(s: State, dir: string, name: string, create: bool)
    requires Inv(s) && IsDirPath(dir) && IsName(name)
    ensures var (t, out) := Open(s, dir + name, create);
      var was := FileIn(s, dir, name);
      var f := if was.Some? then was.value else s.nextId;
      && (out == Done <==>
            && !DirIs(s, dir + name + "/")
            && (was.Some? || (create && |name| < 64 && DirIs(s, dir) && s.freeFhs != [])))
      && (out == Done ==>
            && FileIn(t, dir, name) == Some(f) && t.tree == s.tree && SamePlaces(s, t, Place(dir, name))
            && t.open == s.open[if s.freeFds == [] then NO_FD else s.freeFds[0] := f]
            && f in t.files && (f in s.files <==> was.Some?)
            && t.files[f].nlink == (if was.Some? then s.files[f].nlink + 1 else 1))
      && (out != Done ==> t == s)
  {
    hide Inv, GetDirName, GetFileName, LookupDir, LookupFile, Create, FileIn, SamePlaces;
    JoinedIs(s, dir, name);
    OpenOutcome(s, dir + name, create);
    LookupFileIs(s, dir + name);
    LookupDirIs(s, dir + name);
    CreateJoined(s, dir, name);
    CreateOutcome(s, dir + name);
    var (t, out) := Open(s, dir + name, create);
    if out == Done {
      if FileIn(s, dir, name).Some? {
        FileIsLive(s, dir + name);
        NamesFrame(s, s, t, dir, name);
      } else {
        QuietCreate(s, dir + name);
        NamesFrame(s, Create(s, dir + name).0, t, dir, name);
      }
    }
  }

  /** Unlink takes the name away, unless the file is open: then it is only marked. */
  lemma UnlinkJoined(s: State, dir: string, name: string)
    requires Inv(s) && IsDirPath(dir) && IsName(name)
    ensures var (t, out) := Unlink(s, dir + name);
      var was := FileIn(s, dir, name);
      && (out == Done <==> was.Some? && !DirIs(s, dir + name + "/"))
      && (out == Done ==>
            && t.tree == s.tree && SamePlaces(s, t, Place(dir, name)) && was.value in s.files
            && (if forall fd :: fd in s.open ==> s.open[fd] != was.value
                then FileIn(t, dir, name) == None && t.files.Keys == s.files.Keys - {was.value}
                else FileIn(t, dir, name) == was
                     && t.files == s.files[was.value := s.files[was.value].(deleted := true)]))
      && (out != Done ==> t == s)
  {
    hide Inv, GetDirName, GetFileName, LookupDir, LookupFile, FindAfter;
    JoinedIs(s, dir, name);
    UnlinkOutcome(s, dir + name);
    LookupFileIs(s, dir + name);
    LookupDirIs(s, dir + name);
    UnlinkNames(s, dir + name);
    var (t, out) := Unlink(s, dir + name);
    if out == Done {
      FileIsLive(s, dir + name);
      OpenEntries(s, FileIn(s, dir, name).value);
      UnlinkFiles(s, dir + name);
      forall p ensures p != Place(dir, name) ==> Find(t, p) == Find(s, p) {
        assert FoundAs(s, OpUnlink(dir + name), t, p);
        UnlinkedMeans(s, dir + name, p);
      }
      assert FoundAs(s, OpUnlink(dir + name), t, Place(dir, name));
      UnlinkedMeans(s, dir + name, Place(dir, name));
    }
  }

  lemma UnlinkedMeans(s: State, path: string, p: Place)
    requires |path| > 0
    ensures var f := LookupFile(s, path);
      FindAfter(s, OpUnlink(path), p) ==
        if f.Some? && p == PlaceOf(path) && (forall fd :: fd in s.open ==> s.open[fd] != f.value) then None
        else Find(s, p)
  {
    hide GetDirName, GetFileName, Find, LookupFile;
  }

  lemma UnlinkFiles(s: State, path: string)
    requires |path| > 0 && Unlink(s, path).1 == Done
    ensures LookupFile(s, path).Some? && LookupFile(s, path).value in s.files
    ensures var (t, f) := (Unlink(s, path).0, LookupFile(s, path).value);
      && t.tree == s.tree
      && (if s.files[f].nlink > 0 then t.files == s.files[f := s.files[f].(deleted := true)] && t.byName == s.byName
          else t.files.Keys == s.files.Keys - {f})
  {
    hide LookupFile, LookupDir, DropWrites;
  }

  /** A file is moved: it is found under the stored part of its new name, and the old
      name is free, unless it is the same. */
  lemma RenameJoined(s: State, dir: string, name: string, dir2: string, name2: string)
    requires Inv(s) && IsDirPath(dir) && IsName(name) && IsDirPath(dir2) && IsName(name2)
    requires FileIn(s, dir, name).Some?
    ensures var (t, out) := Rename(s, dir + name, dir2 + name2);
      var (from, to) := (Place(dir, name), Place(dir2, Cut(name2)));
      && (out == Done <==> FileIn(s, dir2, name2).None? && DirIs(s, dir2))
      && (out == Done ==>
            && Find(t, to) == FileIn(s, dir, name) && (from != to ==> Find(t, from) == None)
            && (forall p :: p != from && p != to ==> Find(t, p) == Find(s, p)) && Dirs(t) == Dirs(s))
      && (out != Done ==> t == s)
  {
    hide Inv, GetDirName, GetFileName, LookupDir, LookupFile, FindAfter, Rename;
    JoinedIs(s, dir, name);
    JoinedIs(s, dir2, name2);
    ParentIs(dir2, name2);
    RenameOutcome(s, dir + name, dir2 + name2);
    LookupFileIs(s, dir + name);
    LookupFileIs(s, dir2 + name2);
    LookupDirIs(s, dir2);
    RenameFileNames(s, dir + name, dir2 + name2);
    var (t, out) := Rename(s, dir + name, dir2 + name2);
    if out == Done {
      forall p ensures Find(t, p) == FindAfter(s, OpRename(dir + name, dir2 + name2), p) {
        assert FoundAs(s, OpRename(dir + name, dir2 + name2), t, p);
      }
      forall p { MovedMeans(s, dir + name, dir2 + name2, p); }
    } else {
      OthersNeverLeak(s, OpRename(dir + name, dir2 + name2));
      RefusedOther(s, OpRename(dir + name, dir2 + name2));
    }
  }

  // ---------------------------------------------------------------- directories

  /** The path of a directory, with or without a separator at its end. */
  function Sub(dir: string, name: string, closed: bool): string {
    if closed then dir + name + "/" else dir + name
  }

  lemma SubIs(s: State, dir: string, name: string, closed: bool)
    requires IsDirPath(dir) && IsName(name)
    ensures var p := Sub(dir, name, closed);
      && p != "" && p != "/" && AsDir(p) == dir + name + "/" && GetDirName(AsDir(p)) == dir
      && (DirAtPath(s, p) <==> DirIs(s, dir + name + "/"))
      && (FileOnPath(s, p) <==> FileIn(s, dir, name).Some?)
      && (FileInTheWay(s, p) <==> FileIn(s, dir, name).Some? || (dir != "/" && FileOnPath(s, dir)))
  {
    hide FileOnPath, FileInTheWay, GetDirName, FileAtPath, LookupFile;
    ParentIs(dir, name);
    AsDirIs(dir, name);
    FileOnPathIs(s, dir, name);
    LookupDirIs(s, Sub(dir, name, closed));
    assert |dir + name| > 1;
  }

  lemma MkdirMeans(s: State, path: string, p: Place)
    requires |path| > 0
    ensures FindAfter(s, OpMkdir(path), p) == Find(s, p)
  { }

  lemma KidsKnown(s: State, dir: string)
    requires Inv(s) && dir in s.tree.byPath
    ensures s.tree.byPath[dir] in s.tree.names && s.tree.byPath[dir] in s.tree.kids
    ensures s.freeDhs != [] ==> s.freeDhs[0] !in s.tree.names && s.freeDhs[0] !in s.tree.kids
  {
    hide IndexOK, BlocksOK, FdsOK, PathOK;
    DirKnownAs(s, dir);
  }

  /** Mkdir makes an empty directory, as a child of the one it is in. */
  lemma MkdirJoined(s: State, dir: string, name: string, closed: bool)
    requires Inv(s) && IsDirPath(dir) && IsName(name)
    ensures var (t, out) := Mkdir(s, Sub(dir, name, closed));
      var path := dir + name + "/";
      && (out == Done <==>
            && FileIn(s, dir, name).None? && (dir == "/" || !FileOnPath(s, dir))
            && |path| < 768 && path !in s.tree.byPath && dir in s.tree.byPath && s.freeDhs != [])
      && (out == Done ==>
            var (h, up) := (s.freeDhs[0], s.tree.byPath[dir]);
            && h != up && h !in s.tree.kids && up in s.tree.kids
            && t.tree.byPath == s.tree.byPath[path := h]
            && t.tree.kids == s.tree.kids[up := s.tree.kids[up] + {h}][h := {}]
            && forall p :: Find(t, p) == Find(s, p))
      && (out != Done ==> t == s)
  {
    hide Inv, NameClash, GetDirName, WriteDir, FileOnPath, FileInTheWay, FileIn, FindAfter, Find;
    var path := Sub(dir, name, closed);
    SubIs(s, dir, name, closed);
    MkdirOutcome(s, path);
    LookupDirIs(s, path);
    MkdirNames(s, path);
    var (t, out) := Mkdir(s, path);
    if out == Done {
      KidsKnown(s, dir);
      forall p ensures Find(t, p) == Find(s, p) {
        assert FoundAs(s, OpMkdir(path), t, p);
        MkdirMeans(s, path, p);
      }
    }
  }

  /** Rmdir takes an empty directory away from the one it is in. */
  lemma RmdirJoined(s: State, dir: string, name: string, closed: bool)
    requires Inv(s) && IsDirPath(dir) && IsName(name)
    ensures var (t, out) := Rmdir(s, Sub(dir, name, closed));
      var path := dir + name + "/";
      && (out == Done <==>
            && FileIn(s, dir, name).None? && DirIs(s, path) && KidsOf(s.tree, s.tree.byPath[path]) == {}
            && forall n :: Find(s, Place(path, n)).None?)
      && (out == Done ==>
            && path in s.tree.byPath && dir in s.tree.byPath
            && var (h, up) := (s.tree.byPath[path], s.tree.byPath[dir]);
            && up in s.tree.kids && t.tree.byPath == s.tree.byPath - {path}
            && t.tree.kids == s.tree.kids[up := s.tree.kids[up] - {h}] - {h}
            && forall p :: Find(t, p) == Find(s, p))
      && (out != Done ==> t == s)
  {
    hide Inv, NameClash, GetDirName, WriteDir, FileOnPath, FileInTheWay, FileIn, FindAfter, Find;
    var path := Sub(dir, name, closed);
    SubIs(s, dir, name, closed);
    RmdirOutcome(s, path);
    LookupDirIs(s, path);
    RmdirNames(s, path);
    if dir + name + "/" in s.tree.byPath {
      var h := s.tree.byPath[dir + name + "/"];
      KidsKnown(s, dir + name + "/");
      DirKnownAs(s, dir + name + "/");
      NoChildren(s, h);
      ParentIsLive(s, path);
      KidsKnown(s, dir);
    }
    var (t, out) := Rmdir(s, path);
    if out == Done {
      forall p ensures Find(t, p) == Find(s, p) {
        assert FoundAs(s, OpRmdir(path), t, p);
        RmdirMeans(s, path, p);
      }
    }
  }

  lemma RmdirMeans(s: State, path: string, p: Place)
    requires |path| > 0
    ensures FindAfter(s, OpRmdir(path), p) == Find(s, p)
  { }

  /** A directory gets another path and its files are found there, unless another
      directory has that path: then the renamed one can no longer be found. */
  lemma RenameDirJoined(
      s: State, dir: string, name: string, closed: bool, dir2: string, name2: string, closed2: bool)
    requires Inv(s) && IsDirPath(dir) && IsName(name) && IsDirPath(dir2) && IsName(name2)
    requires closed || FileIn(s, dir, name).None?
    ensures var (t, out) := Rename(s, Sub(dir, name, closed), Sub(dir2, name2, closed2));
      var (from, to) := (dir + name + "/", dir2 + name2 + "/");
      && (out == Done <==>
            && FileIn(s, dir2, name2).None? && (dir2 == "/" || !FileOnPath(s, dir2))
            && DirIs(s, from) && |to| < 768 && dir2 in s.tree.byPath)
      && (out == Done && (to == from || to !in s.tree.byPath) ==>
            && Dirs(t) == Dirs(s) - {from} + {to}
            && (forall n :: Find(t, Place(to, n)) == Find(s, Place(from, n)))
            && (to != from ==> forall n :: Find(t, Place(from, n)) == None)
            && (forall p: Place :: p.dir != from && p.dir != to ==> Find(t, p) == Find(s, p)))
      && (out == Done && to != from && to in s.tree.byPath ==>
            && Dirs(t) == Dirs(s) - {from}
            && (forall p :: Find(t, p) == if p.dir == from then None else Find(s, p)))
      && (out != Done ==> t == s)
  {
    hide Inv, GetDirName, GetFileName, LookupDir, LookupFile, FindAfter, Rename, FileOnPath, FileInTheWay, FileIn, Find;
    var from, to := Sub(dir, name, closed), Sub(dir2, name2, closed2);
    var op := OpRename(from, to);
    SubIs(s, dir, name, closed);
    SubIs(s, dir2, name2, closed2);
    JoinedIs(s, dir, name);
    JoinedIs(s, dir2, name2);
    LookupFileIs(s, from);
    LookupFileIs(s, to);
    LookupDirIs(s, to);
    RenameOutcome(s, from, to);
    RenameDirNames(s, from, to);
    var (t, out) := Rename(s, from, to);
    if out == Done {
      forall p ensures Find(t, p) == FindAfter(s, op, p) { assert FoundAs(s, op, t, p); }
      forall p { RenamedMeans(s, from, to, p); }
    } else {
      OthersNeverLeak(s, op);
      RefusedOther(s, op);
    }
  }

  // ---------------------------------------------------------------- ancestors

  /** The directory path of a list of names: "/" for none. */
  function DirOf(names: seq<string>): string {
    if names == [] then "/" else DirOf(names[..|names| - 1]) + names[|names| - 1] + "/"
  }

  ghost predicate AllNames(names: seq<string>) { forall i {:trigger names[i]} :: 0 <= i < |names| ==> IsName(names[i]) }

  lemma {:induction false} DirOfIsDirPath(names: seq<string>)
    requires AllNames(names)
    ensures IsDirPath(DirOf(names))
  {
    if names != [] {
      var up, name := names[..|names| - 1], names[|names| - 1];
      DirOfIsDirPath(up);
      AsDirIs(DirOf(up), name);
    }
  }

  /** The ancestors of a directory are those of the first names of its path. */
  lemma {:induction false} AncestorIs(names: seq<string>, n: nat)
    requires AllNames(names) && n <= |names|
    ensures EndsWithSlash(DirOf(names)) && Ancestor(DirOf(names), n) == DirOf(names[..|names| - n])
  {
    hide GetDirName;
    DirOfIsDirPath(names);
    if n > 0 {
      AncestorIs(names, n - 1);
      var up := names[..|names| - n];
      var these := names[..|names| - n + 1];
      assert these[..|these| - 1] == up;
      DirOfIsDirPath(up);
      ParentIs(DirOf(up), names[|names| - n]);
    } else {
      assert names[..|names|] == names;
    }
  }

  /** Every directory on the way to a live one is live. */
  lemma PrefixesAreLive(s: State, names: seq<string>, k: nat)
    requires Inv(s) && AllNames(names) && k <= |names| && DirOf(names) in Dirs(s)
    ensures DirOf(names[..k]) in Dirs(s)
  {
    hide IndexOK, BlocksOK, FdsOK, TreeOK, GetDirName, Ancestor, DirOf, AllNames;
    assert names[..|names| - (|names| - k)] == names[..k];
    AncestorIs(names, |names| - k);
    AncestorsAreLive(s.tree, DirOf(names), |names| - k);
  }
}
