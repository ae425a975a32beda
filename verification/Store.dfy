/** The mounted file system as a value, and what each call does to it. A FilePtr
    is a number in `files`: a shrink moves the same object to another slot. */
module Store {
  import opened Geometry
  import opened Slots
  import opened Paths
  import opened DirTree

  datatype Option<+T> = None | Some(value: T)

  datatype File = File(
    fh: nat, dh: nat, name: string, size: nat,   // fields of the file's slot
    fb: Option<nat>, ids: seq<nat>,              // its file block slot and the block ids in it
    nlink: nat, deleted: bool)

  datatype State = State(
    tree: Tree,
    freeDhs: seq<nat>,
    files: map<nat, File>,                 // every live File object
    nextId: nat,
    byFh: map<nat, nat>,                   // created_fhs_
    byName: map<(nat, string), nat>,       // created_files_
    inDir: map<nat, map<nat, nat>>,        // item_maps_ of each directory
    freeFhs: seq<nat>,
    freeFbs: seq<nat>,
    pool: set<nat>,                        // block_id_pool_
    num: nat,                              // curr_block_num
    open: map<nat, nat>,                   // open_files_
    freeFds: seq<nat>,
    dev: seq<byte>,
    tab: Tables)                           // the metadata slots, in memory and on the device

  // ---------------------------------------------------------------- invariant
  // Each universal fact is a named predicate and is used by naming it.

  ghost predicate DirsOK(s: State) {
    && TreeOK(s.tree)
    && s.inDir.Keys == s.tree.names.Keys
    && NoDup(s.freeDhs)
    && forall h :: h in s.freeDhs ==> h !in s.tree.names
  }

  function Key(x: File): (nat, string) { (x.dh, x.name) }

  ghost predicate Indexed(s: State, f: nat) {
    && f in s.files && f < s.nextId
    && var x := s.files[f];
    && x.fh in s.byFh && s.byFh[x.fh] == f
    && Key(x) in s.byName && s.byName[Key(x)] == f
    && x.dh in s.inDir && x.fh in s.inDir[x.dh]
  }

  ghost predicate FhOK(s: State, h: nat) {
    h in s.byFh && s.byFh[h] in s.files && s.files[s.byFh[h]].fh == h
  }

  ghost predicate NameKeyOK(s: State, k: (nat, string)) {
    k in s.byName && s.byName[k] in s.files && Key(s.files[s.byName[k]]) == k
  }

  ghost predicate ItemOK(s: State, d: nat, h: nat) {
    && d in s.inDir && h in s.inDir[d] && h in s.byFh && s.inDir[d][h] == s.byFh[h]
    && s.byFh[h] in s.files && s.files[s.byFh[h]].dh == d
  }

  /** The three file indexes describe the same set of files, and no free slot is in use. */
  ghost predicate IndexOK(s: State) {
    && (forall f {:trigger Indexed(s, f)} :: f in s.files ==> Indexed(s, f))
    && (forall h {:trigger FhOK(s, h)} :: h in s.byFh ==> FhOK(s, h))
    && (forall k {:trigger NameKeyOK(s, k)} :: k in s.byName ==> NameKeyOK(s, k))
    && (forall d, h {:trigger ItemOK(s, d, h)} :: d in s.inDir && h in s.inDir[d] ==> ItemOK(s, d, h))
    && NoDup(s.freeFhs)
    && (forall h :: h in s.freeFhs ==> h !in s.byFh)
  }

  ghost predicate ListsBlocks(x: File, num: nat) {
    && (x.fb.None? ==> x.ids == [])
    && NoDup(x.ids) && |x.ids| <= C
    && (forall b :: b in x.ids ==> b < num)
  }

  ghost predicate HoldsBlocks(x: File, num: nat) {
    ListsBlocks(x, num) && (x.fb.None? <==> x.size == 0) && Ceil(x.size) <= |x.ids|
  }

  ghost predicate NotFree(x: File, freeFbs: seq<nat>, pool: set<nat>) {
    && (x.fb.Some? ==> x.fb.value !in freeFbs)
    && (forall b :: b in x.ids ==> b !in pool)
  }

  ghost predicate HasBlocks(s: State, f: nat) {
    f in s.files && HoldsBlocks(s.files[f], s.num) && NotFree(s.files[f], s.freeFbs, s.pool)
  }

  ghost predicate Apart(x: File, y: File) {
    && (x.fb.Some? && y.fb.Some? ==> x.fb.value != y.fb.value)
    && (forall b :: b in x.ids ==> b !in y.ids)
  }

  ghost predicate FilesApart(s: State, f: nat, g: nat) {
    f in s.files && g in s.files && Apart(s.files[f], s.files[g])
  }

  /** Free pool and block lists are duplicate-free, in range and pairwise disjoint. */
  ghost predicate BlocksOK(s: State) {
    && (forall f {:trigger HasBlocks(s, f)} :: f in s.files ==> HasBlocks(s, f))
    && (forall f, g {:trigger FilesApart(s, f, g)} :: f in s.files && g in s.files && f != g ==> FilesApart(s, f, g))
    && (forall b :: b in s.pool ==> b < s.num)
    && NoDup(s.freeFbs)
    && DATA_START + s.num * B <= |s.dev|
  }

  ghost function Opens(open: map<nat, nat>, f: nat): set<nat> {
    set fd | fd in open && open[fd] == f
  }

  ghost predicate FdOK(s: State, fd: nat) {
    fd in s.open && s.open[fd] in s.files && fd !in s.freeFds
  }

  ghost predicate LinksOK(s: State, f: nat) {
    f in s.files && s.files[f].nlink == |Opens(s.open, f)|
  }

  /** Link counts are the numbers of open entries; open and free fds are disjoint. */
  ghost predicate FdsOK(s: State) {
    && (forall fd {:trigger FdOK(s, fd)} :: fd in s.open ==> FdOK(s, fd))
    && (forall f {:trigger LinksOK(s, f)} :: f in s.files ==> LinksOK(s, f))
    && NoDup(s.freeFds)
  }

  ghost predicate Inv(s: State) {
    DirsOK(s) && IndexOK(s) && BlocksOK(s) && FdsOK(s)
  }

  ghost predicate HasLists(s: State, f: nat) {
    f in s.files && ListsBlocks(s.files[f], s.num) && NotFree(s.files[f], s.freeFbs, s.pool)
  }

  /** The invariant without the demand that a file has the blocks of its size:
      what a crash between two slot writes still leaves. */
  ghost predicate Sound(s: State) {
    && DirsOK(s) && IndexOK(s) && FdsOK(s)
    && (forall f {:trigger HasLists(s, f)} :: f in s.files ==> HasLists(s, f))
    && (forall f, g {:trigger FilesApart(s, f, g)} :: f in s.files && g in s.files && f != g ==> FilesApart(s, f, g))
    && (forall b :: b in s.pool ==> b < s.num)
    && NoDup(s.freeFbs)
  }

  lemma InvIsSound(s: State)
    requires Inv(s)
    ensures Sound(s)
  {
    hide DirsOK, IndexOK, FdsOK;
    forall f | f in s.files ensures HasLists(s, f) { assert HasBlocks(s, f); }
  }

  ghost predicate Owned(s: State, b: nat) {
    exists f :: f in s.files && b in s.files[f].ids
  }

  ghost predicate SizedRight(s: State, f: nat) {
    f in s.files && |s.files[f].ids| == Ceil(s.files[f].size)
  }

  /** No block is lost: pool and files together hold every block. */
  ghost predicate NoneLost(s: State) {
    forall b: nat {:trigger Owned(s, b)} :: b < s.num && b !in s.pool ==> Owned(s, b)
  }

  /** No block is lost, and each file holds exactly the blocks its size needs. */
  ghost predicate Conserved(s: State) {
    && NoneLost(s)
    && (forall f {:trigger SizedRight(s, f)} :: f in s.files ==> SizedRight(s, f))
  }

  // ---------------------------------------------------------------- lookups

  /** DirHandle::GetCreatedDirectory(path), as a directory handle. */
  function LookupDir(s: State, path: string): Option<nat> {
    var p := AsDir(path);
    if |p| < MAX_DIR_NAME && p in s.tree.byPath then Some(s.tree.byPath[p]) else None
  }

  /** FileHandle::GetCreatedFile(path). */
  function LookupFile(s: State, path: string): Option<nat>
    requires |path| > 0
  {
    var name := GetFileName(path);
    var dir := LookupDir(s, GetDirName(path));
    if EndsWithSlash(path) || |name| >= MAX_FILE_NAME || dir.None? || (dir.value, name) !in s.byName then None
    else Some(s.byName[(dir.value, name)])
  }

  /** Done: the call did its work. Refused: it failed and took nothing.
      Leaked: it failed after taking slots or blocks that it never gives back. */
  datatype Outcome = Done | Refused | Leaked

  // ---------------------------------------------------------------- growing a file

  ghost predicate PickOK(pool: set<nat>, ids: seq<nat>, n: nat) {
    |ids| == n && NoDup(ids) && forall b :: b in ids ==> b in pool
  }

  /** Blocks that ExtendFile asks the pool for. */
  function Needed(size: nat, off: nat): nat
    requires size < off
  {
    Ceil(off) - Ceil(size)
  }

  /** ExtendFile's own reasons to fail before it takes any block. */
  predicate ExtendRefused(s: State, f: nat, off: nat)
    requires f in s.files && s.files[f].size < off
  {
    var x := s.files[f];
    || off > |s.dev|
    || (x.size == 0 && s.freeFbs == [])
    || (x.size > 0 && |x.ids| == C)
    || Needed(x.size, off) > |s.pool|
  }

  /** The blocks do not fit the file's one file block slot. */
  predicate ExtendOverflows(s: State, f: nat, off: nat)
    requires f in s.files && s.files[f].size < off
  {
    |s.files[f].ids| + Needed(s.files[f].size, off) > C
  }

  /** File block slot `i` once it serves file slot `fh` with blocks `ids`. */
  function BlockFor(tab: Tables, i: nat, fh: nat, ids: seq<nat>): FileBlockMeta {
    BlockAt(tab, i).(used := true, isTemp := false, cut := 0, fh := fh, ids := ids)
  }

  /** The slot writes of an extension: file block first, then the new size. */
  function ExtendWrites(tab: Tables, y: File, grown: bool): Tables {
    var t1 := if !grown || y.fb.None? then tab else WriteBlock(tab, y.fb.value, BlockFor(tab, y.fb.value, y.fh, y.ids));
    WriteFile(t1, y.fh, FileAt(t1, y.fh).(size := y.size))
  }

  function OverflowWrites(tab: Tables, x: File, fb: Option<nat>, full: seq<nat>): Tables {
    if fb.None? then tab else SetBlock(tab, fb.value, BlockFor(tab, fb.value, x.fh, full))
  }

  /** A refused extension: a new file block slot that was taken for an empty file
      goes back to the other end of the free list. */
  function ExtendGiveBack(s: State, f: nat, off: nat): State
    requires f in s.files
  {
    if off <= |s.dev| && s.files[f].size == 0 && s.freeFbs != []
    then s.(freeFbs := s.freeFbs[1..] + [s.freeFbs[0]]) else s
  }

  /** The file block slot that an extension fills. */
  function ExtendSlot(s: State, f: nat): Option<nat>
    requires f in s.files
  {
    if s.files[f].size > 0 then s.files[f].fb
    else if s.freeFbs == [] then None else Some(s.freeFbs[0])
  }

  function ExtendFree(s: State, f: nat): seq<nat>
    requires f in s.files
  {
    if s.files[f].size > 0 || s.freeFbs == [] then s.freeFbs else s.freeFbs[1..]
  }

  /** As many ids as one file block slot has room for. */
  function Capped(ids: seq<nat>): seq<nat> {
    if |ids| > C then ids[..C] else ids
  }

  /** The slot is filled up in memory and never written; the rest is lost. */
  function ExtendOverflow(s: State, f: nat, ids: seq<nat>): State
    requires f in s.files
  {
    var x := s.files[f];
    var full := Capped(x.ids + ids);
    s.(pool := s.pool - Elems(ids), freeFbs := ExtendFree(s, f),
       files := if x.size == 0 then s.files else s.files[f := x.(ids := full)],
       tab := OverflowWrites(s.tab, x, ExtendSlot(s, f), full))
  }

  function ExtendDone(s: State, f: nat, off: nat, ids: seq<nat>): State
    requires f in s.files
  {
    var x := s.files[f];
    var y := x.(size := off, ids := x.ids + ids, fb := ExtendSlot(s, f));
    s.(pool := s.pool - Elems(ids), freeFbs := ExtendFree(s, f),
       files := s.files[f := y], tab := ExtendWrites(s.tab, y, ids != []))
  }

  /** File::ExtendFile; `ids` are the ids the pool gives out when it is asked. */
  function Extend(s: State, f: nat, off: nat, ids: seq<nat>): (State, Outcome)
    requires f in s.files && s.files[f].size < off
  {
    if ExtendRefused(s, f, off) then (ExtendGiveBack(s, f, off), Refused)
    else if ExtendOverflows(s, f, off) then (ExtendOverflow(s, f, ids), Leaked)
    else (ExtendDone(s, f, off, ids), Done)
  }

  // ---------------------------------------------------------------- shrinking a file

  /** CopyData: the first `len` bytes of block `src` are copied over block `dst`. */
  function CopyPrefix(dev: seq<byte>, src: nat, dst: nat, len: nat): (r: seq<byte>)
    requires len <= B && DATA_START + B * (src + 1) <= |dev| && DATA_START + B * (dst + 1) <= |dev|
    ensures |r| == |dev|
  {
    var from := DATA_START + B * src;
    var to := DATA_START + B * dst;
    dev[..to] + dev[from..from + len] + dev[to + len..]
  }

  predicate ShrinkRefused(s: State) {
    s.freeFhs == []
  }

  predicate ShrinkLeaks(s: State, off: nat) {
    off > 0 && (s.freeFbs == [] || (off % B > 0 && s.pool == {}))
  }

  /** What a failed ShrinkFile has taken: always a file slot, and a file block
      slot too when it was the block pool that ran out. */
  function ShrinkLeak(s: State, f: nat, off: nat): State
    requires s.freeFhs != [] && f in s.files
  {
    var x := s.files[f];
    var fh := s.freeFhs[0];
    var k := off / B;
    s.(freeFhs := s.freeFhs[1..],
       freeFbs := if s.freeFbs == [] then [] else s.freeFbs[1..],
       tab := LeakWrites(s.tab, x, fh, k, if s.freeFbs == [] then None else Some(s.freeFbs[0])))
  }

  /** A failed shrink changes its slots in memory only; no checksum is made. */
  function LeakWrites(tab: Tables, x: File, fh: nat, k: nat, fb: Option<nat>): Tables {
    var t1 := SetFile(tab, fh, HeirSlot(tab, x, fh, k * B));
    if fb.None? then t1
    else SetBlock(t1, fb.value, BlockFor(t1, fb.value, fh, if k <= |x.ids| then x.ids[..k] else x.ids))
  }

  /** NewFreeFileMeta: slot `fh` takes over from the slot of `x`. */
  function HeirSlot(tab: Tables, x: File, fh: nat, size: nat): FileMeta {
    FileAt(tab, fh).(used := true, isTemp := false, fh := fh, dh := x.dh, name := x.name, parent := x.fh, size := size)
  }

  /** The slot writes of a shrink: heir, its blocks, the parent with its child,
      the parent's blocks and slot cleared, and the heir without a parent. */
  function ShrinkWrites(tab: Tables, x: File, y: File): Tables {
    var t5 := DropWrites(HeirWrites(tab, x, y), x);
    WriteFile(t5, y.fh, FileAt(t5, y.fh).(parent := -1))
  }

  function HeirWrites(tab: Tables, x: File, y: File): Tables {
    var t1 := WriteFile(tab, y.fh, HeirSlot(tab, x, y.fh, y.size));
    var t2 := if y.fb.None? then t1 else WriteBlock(t1, y.fb.value, BlockFor(t1, y.fb.value, y.fh, y.ids));
    WriteFile(t2, x.fh, FileAt(t2, x.fh).(child := y.fh))
  }

  predicate ShrinkReady(s: State, f: nat, off: nat, tail: nat) {
    && f in s.files && off < s.files[f].size
    && s.files[f].fb.Some? && off / B < |s.files[f].ids|
    && s.files[f].dh in s.inDir
    && (off % B > 0 ==> tail in s.pool && DATA_START + B * (tail + 1) <= |s.dev|
                        && DATA_START + B * (s.files[f].ids[off / B] + 1) <= |s.dev|)
  }

  /** File::ShrinkFile and ParentFile::Recycle when nothing runs out: the file
      moves to a first slot with the first `off / B` blocks and, for a partial
      tail, a copy in block `tail`; everything else it held is freed. */
  function ShrinkDone(s: State, f: nat, off: nat, tail: nat): State
    requires ShrinkReady(s, f, off, tail) && !ShrinkRefused(s) && !ShrinkLeaks(s, off)
  {
    var x := s.files[f];
    var k := off / B;
    var fh := s.freeFhs[0];
    var ids := x.ids[..k] + (if off % B > 0 then [tail] else []);
    var items: map<nat, nat> := (s.inDir[x.dh] - {x.fh})[fh := f];
    var y := x.(fh := fh, size := off, ids := ids, fb := if off > 0 then Some(s.freeFbs[0]) else None);
    s.(files := s.files[f := y],
       byFh := (s.byFh - {x.fh})[fh := f],
       inDir := s.inDir[x.dh := items],
       freeFhs := s.freeFhs[1..] + [x.fh],
       freeFbs := (if off > 0 then s.freeFbs[1..] else s.freeFbs) + [x.fb.value],
       pool := s.pool - (if off % B > 0 then {tail} else {}) + Elems(x.ids[k..]),
       dev := if off % B > 0 then CopyPrefix(s.dev, x.ids[k], tail, off % B) else s.dev,
       tab := ShrinkWrites(s.tab, x, y))
  }

  // ---------------------------------------------------------------- file indexes

  /** CreateFile once the name is known to be new. */
  function AddFile(s: State, dh: nat, name: string): State
    requires s.freeFhs != [] && dh in s.inDir
  {
    var fh := s.freeFhs[0];
    var f := s.nextId;
    var items: map<nat, nat> := s.inDir[dh][fh := f];
    s.(files := s.files[f := File(fh, dh, name, 0, None, [], 0, false)],
       nextId := f + 1,
       freeFhs := s.freeFhs[1..],
       byFh := s.byFh[fh := f],
       byName := s.byName[(dh, name) := f],
       inDir := s.inDir[dh := items],
       tab := AddWrites(s.tab, fh, dh, name))
  }

  function AddWrites(tab: Tables, fh: nat, dh: nat, name: string): Tables {
    WriteFile(tab, fh, FileAt(tab, fh).(used := true, isTemp := false, fh := fh, dh := dh, name := name))
  }

  /** ReleaseAll for the file block slot, then Release for the file slot. */
  function DropWrites(tab: Tables, x: File): Tables {
    var t1 := if x.fb.None? then tab else WriteBlock(tab, x.fb.value, ClearBlock(BlockAt(tab, x.fb.value)));
    WriteFile(t1, x.fh, ClearFile(FileAt(t1, x.fh)))
  }

  /** RemoveAllFileBlock, Release and RemoveFileFromDirectory. The file's slot
      is not put back on the free list. */
  function DropFile(s: State, f: nat): State
    requires f in s.files && s.files[f].dh in s.inDir
  {
    var x := s.files[f];
    s.(files := s.files - {f},
       byFh := s.byFh - {x.fh},
       byName := s.byName - {Key(x)},
       inDir := s.inDir[x.dh := s.inDir[x.dh] - {x.fh}],
       freeFbs := if x.fb.Some? then s.freeFbs + [x.fb.value] else s.freeFbs,
       pool := s.pool + Elems(x.ids),
       tab := DropWrites(s.tab, x))
  }

  /** File::rename to name `name` in directory `dh`. */
  function MoveFile(s: State, f: nat, dh: nat, name: string): State
    requires f in s.files && s.files[f].dh in s.inDir && dh in s.inDir
  {
    var x := s.files[f];
    var out := s.inDir[x.dh := s.inDir[x.dh] - {x.fh}];
    var items: map<nat, nat> := out[dh][x.fh := f];
    s.(files := s.files[f := x.(dh := dh, name := name)],
       byName := (s.byName - {Key(x)})[(dh, name) := f],
       inDir := out[dh := items],
       tab := MoveWrites(s.tab, x.fh, dh, name))
  }

  function MoveWrites(tab: Tables, fh: nat, dh: nat, name: string): Tables {
    WriteFile(tab, fh, FileAt(tab, fh).(dh := dh, name := name))
  }
}
