/** The calls of the file system, from paths and descriptors down to the state
    changes of module Store. */
module Calls {
  import opened Geometry
  import opened Slots
  import opened Paths
  import opened DirTree
  import opened Store

  // ---------------------------------------------------------------- files

  /** FileHandle::CreateFile. */
  function Create(s: State, path: string): (State, Outcome)
    requires |path| > 0
  {
    var name := GetFileName(path);
    var dir := LookupDir(s, GetDirName(path));
    if EndsWithSlash(path) || |name| >= MAX_FILE_NAME || dir.None? || (dir.value, name) in s.byName
       || s.freeFhs == [] || dir.value !in s.inDir then (s, Refused)
    else (AddFile(s, dir.value, name), Done)
  }

  /** File::ftruncate; `ids` are the block ids the pool gives out if it is asked. */
  function Truncate(s: State, f: nat, size: nat, ids: seq<nat>): (State, Outcome)
    requires f in s.files
  {
    var x := s.files[f];
    if size > x.size then Extend(s, f, size, ids)
    else if size == x.size then (s, Done)
    else if ShrinkRefused(s) then (s, Refused)
    else if ShrinkLeaks(s, size) then (ShrinkLeak(s, f, size), Leaked)
    else
      var tail := if ids == [] then 0 else ids[0];
      if ShrinkReady(s, f, size, tail) then (ShrinkDone(s, f, size, tail), Done) else (s, Refused)
  }

  /** What the pool may answer when Truncate asks it. */
  ghost predicate TruncatePick(s: State, f: nat, size: nat, ids: seq<nat>)
    requires f in s.files
  {
    var x := s.files[f];
    if size > x.size then ExtendRefused(s, f, size) || PickOK(s.pool, ids, Needed(x.size, size))
    else size < x.size && size % B > 0 && s.pool != {} ==> PickOK(s.pool, ids, 1)
  }

  /** OpenFile::pwrite; the file grows first when the write goes past its end. */
  function Pwrite(s: State, f: nat, data: seq<byte>, off: nat, ids: seq<nat>): (State, Outcome)
    requires f in s.files
  {
    if data == [] then (s, Done)
    else
      var end := off + |data|;
      var (t, out) := if end > s.files[f].size then Extend(s, f, end, ids) else (s, Done);
      if out != Done || f !in t.files then (t, out)
      else (t.(dev := Put(t.dev, t.files[f].ids, off, data)), Done)
  }

  ghost predicate PwritePick(s: State, f: nat, data: seq<byte>, off: nat, ids: seq<nat>)
    requires f in s.files
  {
    data != [] && off + |data| > s.files[f].size ==> TruncatePick(s, f, off + |data|, ids)
  }

  /** OpenFile::pread: the bytes that it puts into the caller's buffer. */
  function Pread(s: State, f: nat, size: nat, off: nat): seq<byte>
    requires f in s.files
  {
    var x := s.files[f];
    if size == 0 || off >= x.size then []
    else
      var n := if off + size > x.size then x.size - off else size;
      seq(n, i requires 0 <= i < n => ByteAt(s.dev, Addr(x.ids, off + i)))
  }

  /** FileHandle::unlink: a file that is open is only marked. */
  function Unlink(s: State, path: string): (State, Outcome)
    requires |path| > 0
  {
    var who := LookupFile(s, path);
    if LookupDir(s, path).Some? || who.None? || who.value !in s.files then (s, Refused)
    else
      var x := s.files[who.value];
      if x.nlink > 0 then (s.(files := s.files[who.value := x.(deleted := true)]), Done)
      else if x.dh !in s.inDir then (s, Refused)
      else (DropFile(s, who.value), Done)
  }

  // ---------------------------------------------------------------- descriptors

  const NO_FD: nat := 0xFFFF_FFFF_FFFF_FFFF   // -1 as the unsigned ino_t

  /** FdHandle::get_fd. Its -1 for an empty pool is kept in an unsigned variable,
      so the test for a negative number never sees it. */
  function NextFd(s: State): nat {
    if s.freeFds == [] then NO_FD else s.freeFds[0]
  }

  /** What the caller of open or dup sees of a descriptor. */
  function FdAnswer(fd: nat): int {
    if fd == NO_FD then -1 else fd
  }

  /** The new entry that open and dup make for file `f`; it replaces any other
      entry of the same descriptor. */
  function AddOpen(s: State, f: nat): State
    requires f in s.files
  {
    var x := s.files[f];
    s.(files := s.files[f := x.(nlink := x.nlink + 1)],
       open := s.open[NextFd(s) := f], freeFds := if s.freeFds == [] then [] else s.freeFds[1..])
  }

  /** FileHandle::open of a named file, with or without O_CREAT. */
  function Open(s: State, path: string, create: bool): (State, Outcome)
    requires |path| > 0
  {
    var who := LookupFile(s, path);
    if LookupDir(s, path).Some? then (s, Refused)
    else if who.Some? && who.value in s.files then (AddOpen(s, who.value), Done)
    else if !create then (s, Refused)
    else
      var (t, out) := Create(s, path);
      if out == Done && s.nextId in t.files then (AddOpen(t, s.nextId), Done) else (s, Refused)
  }

  function Dup(s: State, fd: nat): (State, Outcome)
  {
    if fd !in s.open || s.open[fd] !in s.files then (s, Refused) else (AddOpen(s, s.open[fd]), Done)
  }

  /** FileHandle::close, before the entry is removed: the link count drops. */
  function DropLink(s: State, fd: nat): State
    requires fd in s.open && s.open[fd] in s.files && s.files[s.open[fd]].nlink > 0
  {
    var x := s.files[s.open[fd]];
    s.(files := s.files[s.open[fd] := x.(nlink := x.nlink - 1)],
       open := s.open - {fd}, freeFds := s.freeFds + [fd])
  }

  /** FileHandle::close: the last close of a deleted file removes it. */
  function Close(s: State, fd: nat): (State, Outcome)
  {
    if fd !in s.open || s.open[fd] !in s.files || s.files[s.open[fd]].nlink == 0 then (s, Refused)
    else
      var f := s.open[fd];
      var t := DropLink(s, fd);
      if t.files[f].nlink == 0 && t.files[f].deleted && t.files[f].dh in t.inDir then (DropFile(t, f), Done)
      else (t, Done)
  }

  // ---------------------------------------------------------------- directories and names

  /** A file has this path, written with or without one trailing separator. */
  function FileNamed(s: State, path: string): bool
    requires |path| > 0 && !IsMountPoint(path)
  {
    var p := if EndsWithSlash(path) then path[..|path| - 1] else path;
    |p| > 0 && LookupFile(s, p).Some?
  }

  /** DirHandle::CheckFileExist fails. */
  function NameClash(s: State, path: string, checkParent: bool): bool
    requires |path| > 0
  {
    && !IsMountPoint(path)
    && (FileNamed(s, path) || (checkParent && !IsMountPoint(GetDirName(path)) && FileNamed(s, GetDirName(path))))
  }

  /** DirHandle::CreateDirectory. */
  function Mkdir(s: State, path: string): (State, Outcome)
    requires |path| > 0
  {
    var p := AsDir(path);
    if NameClash(s, path, true) || |p| >= MAX_DIR_NAME || p in s.tree.byPath
       || (!IsMountPoint(p) && GetDirName(p) !in s.tree.byPath) || s.freeDhs == [] then (s, Refused)
    else
      var h := s.freeDhs[0];
      (s.(tree := Add(s.tree, h, p), freeDhs := s.freeDhs[1..], inDir := s.inDir[h := map[]],
          tab := WriteDir(s.tab, h, DirAt(s.tab, h).(used := true, dh := h, name := p))), Done)
  }

  /** DirHandle::DeleteDirectory. */
  function Rmdir(s: State, path: string): (State, Outcome)
    requires |path| > 0
  {
    var p := AsDir(path);
    if NameClash(s, path, false) || |p| >= MAX_DIR_NAME || IsMountPoint(path)
       || GetDirName(p) !in s.tree.byPath || p !in s.tree.byPath then (s, Refused)
    else
      var h := s.tree.byPath[p];
      if h !in s.inDir || h !in s.tree.names || |s.tree.names[h]| == 0
         || KidsOf(s.tree, h) != {} || s.inDir[h] != map[] then (s, Refused)
      else (s.(tree := Remove(s.tree, h), inDir := s.inDir - {h},
              tab := WriteDir(s.tab, h, ClearDir(DirAt(s.tab, h)))), Done)
  }

  /** FileSystem::RenamePath, without its answer. */
  function Rename(s: State, from: string, to: string): (State, Outcome)
    requires |from| > 0 && |to| > 0
  {
    var who := LookupFile(s, from);
    var up := LookupDir(s, GetDirName(to));
    if LookupFile(s, to).Some? then (s, Refused)
    else if who.Some? && who.value in s.files then
      if up.None? || up.value !in s.inDir || s.files[who.value].dh !in s.inDir then (s, Refused)
      else (MoveFile(s, who.value, up.value, StoredName(GetFileName(to))), Done)
    else
      var d := RenamedDir(s, from, to);
      if d.None? then (s, Refused) else
        (s.(tree := Move(s.tree, d.value, AsDir(to)),
            tab := WriteDir(s.tab, d.value, DirAt(s.tab, d.value).(name := AsDir(to)))), Done)
  }

  /** The directory that RenameDirectory(from, to) asks to rename itself. */
  function AskedDir(s: State, from: string, to: string): (d: Option<nat>)
    requires |from| > 0 && |to| > 0
    ensures d.Some? ==> d.value in s.tree.names && |s.tree.names[d.value]| > 0
  {
    var p := AsDir(from);
    var q := AsDir(to);
    if LookupDir(s, from).None? || NameClash(s, to, true) || IsMountPoint(from) || IsMountPoint(to)
       || |p| >= MAX_DIR_NAME || |q| >= MAX_DIR_NAME || GetDirName(p) !in s.tree.byPath || p !in s.tree.byPath then None
    else
      var h := s.tree.byPath[p];
      if h in s.tree.names && |s.tree.names[h]| > 0 then Some(h) else None
  }

  /** It does so when the new parent exists. */
  function RenamedDir(s: State, from: string, to: string): (d: Option<nat>)
    requires |from| > 0 && |to| > 0
    ensures d.Some? ==> d.value in s.tree.names && |s.tree.names[d.value]| > 0
  {
    if LookupDir(s, GetDirName(AsDir(to))).None? then None else AskedDir(s, from, to)
  }

  /** What RenameDirectory answers: it takes the 0 with which Directory::rename
      reports success for a failure, and the -1 of a failure for success. */
  function DirAnswer(s: State, from: string, to: string): int
    requires |from| > 0 && |to| > 0
  {
    if AskedDir(s, from, to).Some? && RenamedDir(s, from, to).None? then 0 else -1
  }

  /** What FileSystem::RenamePath answers. */
  function RenameAnswer(s: State, from: string, to: string): int
    requires |from| > 0 && |to| > 0
  {
    if LookupFile(s, to).Some? then -1
    else if LookupFile(s, from).Some? then (if Rename(s, from, to).1 == Done then 0 else -1)
    else DirAnswer(s, from, to)
  }
}
