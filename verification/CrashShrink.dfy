/** Cutting power between any two of the six slot writes of a shrink: after which
    of them the device can still be mounted. */
module CrashShrink {
  import opened Geometry
  import opened Slots
  import opened Store
  import opened Persist
  import opened Mount
  import opened MountProofs
  import opened Remount
  import opened Faults
  import opened Facts

  // ---------------------------------------------------------------- the writes, one after the other

  /** Memory before the first write: the heir's slots are filled, and the old slot
      knows its child, without a checksum. */
  function BeforeWrites(tab: Tables, x: File, y: File): Tables {
    var t0 := SetFile(tab, y.fh, HeirSlot(tab, x, y.fh, y.size / B * B));
    var t1 := if y.fb.None? then t0 else SetBlock(t0, y.fb.value, BlockFor(t0, y.fb.value, y.fh, y.ids));
    SetFile(t1, x.fh, FileAt(t1, x.fh).(child := y.fh))
  }

  /** After the first `n` writes: the heir's file slot, its file block slot, the old
      file slot with its child, the old file block slot cleared, the old file slot
      cleared, the heir's file slot without its parent. */
  function AfterWrites(tab: Tables, x: File, y: File, n: nat): Tables
    requires x.fb.Some?
  {
    if n == 0 then BeforeWrites(tab, x, y)
    else
      var t := AfterWrites(tab, x, y, n - 1);
      if n == 1 then WriteFile(t, y.fh, FileAt(t, y.fh).(size := y.size))
      else if n == 2 then (if y.fb.None? then t else WriteBlock(t, y.fb.value, BlockAt(t, y.fb.value)))
      else if n == 3 then WriteFile(t, x.fh, FileAt(t, x.fh))
      else if n == 4 then WriteBlock(t, x.fb.value, ClearBlock(BlockAt(t, x.fb.value)))
      else if n == 5 then WriteFile(t, x.fh, ClearFile(FileAt(t, x.fh)))
      else if n == 6 then WriteFile(t, y.fh, FileAt(t, y.fh).(parent := -1))
      else t
  }

  /** All six are the writes of the shrink. */
  lemma SixWrites(tab: Tables, x: File, y: File)
    requires SameShape(tab) && x.fh < |tab.mem.files| && y.fh < |tab.mem.files| && x.fh != y.fh
    requires x.fb.Some? && (y.fb.Some? ==> y.fb.value < |tab.mem.blocks|)
    ensures AfterWrites(tab, x, y, 6) == ShrinkWrites(tab, x, y)
  {
    hide WriteFile, WriteBlock, SetFile, SetBlock;
    SwapIsHeirWrites(tab, x, y);
    var t := AfterWrites(tab, x, y, 1);
    var u := AfterWrites(tab, x, y, 2);
    assert AfterWrites(tab, x, y, 0) == BeforeWrites(tab, x, y);
    assert AfterWrites(tab, x, y, 3) == WriteFile(u, x.fh, FileAt(u, x.fh)) == HeirWrites(tab, x, y);
    assert AfterWrites(tab, x, y, 5) == DropWrites(HeirWrites(tab, x, y), x);
  }

  // ---------------------------------------------------------------- the slots after each write

  function HeirAfter(tab: Tables, x: File, y: File, n: nat): FileMeta {
    var m := HeirSlot(tab, x, y.fh, y.size);
    if n == 0 then m.(size := y.size / B * B) else if n < 6 then SealFile(m) else SealFile(m.(parent := -1))
  }

  function OldAfter(tab: Tables, x: File, y: File, n: nat): FileMeta {
    var m := FileAt(tab, x.fh).(child := y.fh);
    if n < 3 then m else if n < 5 then SealFile(m) else SealFile(ClearFile(m))
  }

  function HeirBlockAfter(tab: Tables, y: File, n: nat): FileBlockMeta
    requires y.fb.Some?
  {
    var m := BlockFor(tab, y.fb.value, y.fh, y.ids);
    if n < 2 then m else SealBlock(m)
  }

  function OldBlockAfter(tab: Tables, x: File, n: nat): FileBlockMeta
    requires x.fb.Some?
  {
    var m := BlockAt(tab, x.fb.value);
    if n < 4 then m else SealBlock(ClearBlock(m))
  }

  ghost predicate SlotsPresent(tab: Tables, x: File, y: File) {
    && SameShape(tab) && tab.mem == tab.disk
    && x.fh < |tab.mem.files| && y.fh < |tab.mem.files| && x.fh != y.fh
    && x.fb.Some? && x.fb.value < |tab.mem.blocks|
    && (y.fb.Some? ==> y.fb.value < |tab.mem.blocks| && y.fb.value != x.fb.value)
  }

  ghost predicate MemIs(tab: Tables, x: File, y: File, n: nat, mem: Image)
    requires SlotsPresent(tab, x, y)
  {
    && mem.dirs == tab.mem.dirs
    && mem.files == tab.mem.files[y.fh := HeirAfter(tab, x, y, n)][x.fh := OldAfter(tab, x, y, n)]
    && var blocks := tab.mem.blocks[x.fb.value := OldBlockAfter(tab, x, n)];
    mem.blocks == if y.fb.Some? then blocks[y.fb.value := HeirBlockAfter(tab, y, n)] else blocks
  }

  predicate SamePage(g: nat, h: nat) { g / FILES_PER_PAGE == h / FILES_PER_PAGE }

  /** Before its own write the old slot reaches the device only with the heir's page. */
  ghost predicate DiskIs(tab: Tables, x: File, y: File, n: nat, disk: Image)
    requires SlotsPresent(tab, x, y)
  {
    && disk.dirs == tab.mem.dirs
    && (n == 0 ==> disk == tab.mem)
    && (n > 0 ==>
          disk.files == tab.mem.files[y.fh := HeirAfter(tab, x, y, n)][x.fh :=
            if n >= 3 || SamePage(x.fh, y.fh) then OldAfter(tab, x, y, n) else tab.mem.files[x.fh]])
    && var blocks := tab.mem.blocks[x.fb.value := OldBlockAfter(tab, x, n)];
    disk.blocks == if y.fb.Some? && n >= 2 then blocks[y.fb.value := HeirBlockAfter(tab, y, n)] else blocks
  }

  ghost predicate TabIs(tab: Tables, x: File, y: File, n: nat, t: Tables)
    requires SlotsPresent(tab, x, y)
  {
    SameShape(t) && MemIs(tab, x, y, n, t.mem) && DiskIs(tab, x, y, n, t.disk)
  }

  lemma BlockStep(tab: Tables, x: File, y: File, n: nat, t: Tables)
    requires SlotsPresent(tab, x, y) && (n == 2 || n == 4)
    requires TabIs(tab, x, y, n - 1, t) && t == AfterWrites(tab, x, y, n - 1)
    ensures TabIs(tab, x, y, n, AfterWrites(tab, x, y, n))
  {
    hide WriteBlock, AfterWrites;
    if n == 2 {
      AfterTwo(tab, x, y);
      if y.fb.Some? { WriteBlockParts(t, y.fb.value, BlockAt(t, y.fb.value)); }
    } else {
      AfterFour(tab, x, y);
      WriteBlockParts(t, x.fb.value, ClearBlock(BlockAt(t, x.fb.value)));
    }
  }

  lemma AfterTwo(tab: Tables, x: File, y: File)
    requires x.fb.Some?
    ensures var t := AfterWrites(tab, x, y, 1);
      AfterWrites(tab, x, y, 2) == if y.fb.None? then t else WriteBlock(t, y.fb.value, BlockAt(t, y.fb.value))
  { }

  lemma AfterFour(tab: Tables, x: File, y: File)
    requires x.fb.Some?
    ensures var t := AfterWrites(tab, x, y, 3);
      AfterWrites(tab, x, y, 4) == WriteBlock(t, x.fb.value, ClearBlock(BlockAt(t, x.fb.value)))
  { }

  /** Which file slot a write fills, and with what. */
  function Written(t: Tables, x: File, y: File, n: nat): (nat, FileMeta) {
    if n == 1 then (y.fh, FileAt(t, y.fh).(size := y.size))
    else if n == 3 then (x.fh, FileAt(t, x.fh))
    else if n == 5 then (x.fh, ClearFile(FileAt(t, x.fh)))
    else (y.fh, FileAt(t, y.fh).(parent := -1))
  }

  lemma AfterFile(tab: Tables, x: File, y: File, n: nat)
    requires x.fb.Some? && (n == 1 || n == 3 || n == 5 || n == 6)
    ensures var t := AfterWrites(tab, x, y, n - 1); var w := Written(t, x, y, n);
      AfterWrites(tab, x, y, n) == WriteFile(t, w.0, w.1)
  { }

  lemma FileStep(tab: Tables, x: File, y: File, n: nat, t: Tables)
    requires SlotsPresent(tab, x, y) && (n == 1 || n == 3 || n == 5 || n == 6)
    requires TabIs(tab, x, y, n - 1, t) && t == AfterWrites(tab, x, y, n - 1)
    ensures TabIs(tab, x, y, n, AfterWrites(tab, x, y, n))
  {
    hide WriteFile, AfterWrites;
    AfterFile(tab, x, y, n);
    var w := Written(t, x, y, n);
    WriteFileParts(t, w.0, w.1);
  }

  lemma {:induction false} AfterIs(tab: Tables, x: File, y: File, n: nat)
    requires SlotsPresent(tab, x, y) && n <= 6
    ensures TabIs(tab, x, y, n, AfterWrites(tab, x, y, n))
  {
    hide TabIs, AfterWrites;
    if n == 0 {
      AfterNone(tab, x, y);
    } else {
      AfterIs(tab, x, y, n - 1);
      var t := AfterWrites(tab, x, y, n - 1);
      if n == 2 || n == 4 { BlockStep(tab, x, y, n, t); } else { FileStep(tab, x, y, n, t); }
    }
  }

  lemma AfterNone(tab: Tables, x: File, y: File)
    requires SlotsPresent(tab, x, y)
    ensures TabIs(tab, x, y, 0, AfterWrites(tab, x, y, 0))
  { }

  // ---------------------------------------------------------------- the shrink of a good state

  ghost predicate CanShrink(s: State, f: nat, off: nat, tail: nat) {
    && Inv(s) && SlotsOK(s) && Persisted(s) && Named(s)
    && ShrinkReady(s, f, off, tail) && !ShrinkRefused(s) && !ShrinkLeaks(s, off)
  }

  /** The file as it is in its new slot. */
  function Heir(s: State, f: nat, off: nat, tail: nat): File
    requires ShrinkReady(s, f, off, tail) && !ShrinkRefused(s) && !ShrinkLeaks(s, off)
  {
    ShrinkDone(s, f, off, tail).files[f]
  }

  /** What the device holds when the power goes after `n` slot writes. */
  function CutDisk(s: State, f: nat, off: nat, tail: nat, n: nat): Image
    requires ShrinkReady(s, f, off, tail) && !ShrinkRefused(s) && !ShrinkLeaks(s, off)
  {
    AfterWrites(s.tab, s.files[f], Heir(s, f, off, tail), n).disk
  }

  lemma HeirIs(s: State, f: nat, off: nat, tail: nat)
    requires CanShrink(s, f, off, tail)
    ensures var x := s.files[f]; var y := Heir(s, f, off, tail);
      && y == x.(fh := s.freeFhs[0], size := off, fb := y.fb,
           ids := x.ids[..off / B] + (if off % B > 0 then [tail] else []))
      && y.fh !in s.byFh && (y.fb.Some? <==> off > 0) && (y.fb.Some? ==> s.freeFbs != [] && y.fb.value == s.freeFbs[0])
      && NoDup(y.ids) && |y.ids| <= C && (forall b :: b in y.ids ==> b < s.num && (b in x.ids || b in s.pool))
      && (off < B ==> forall b :: b in y.ids ==> b in s.pool)
      && (off >= B ==> |x.ids| > 0 && |y.ids| > 0 && y.ids[0] == x.ids[0])
  {
    hide DirsOK, FdsOK, SlotsOK, Persisted, Named, ShrinkWrites, CopyPrefix;
    var x := s.files[f];
    assert HasBlocks(s, f);
    NoDupSlice(x.ids, off / B);
    if off % B > 0 { NoDupSnoc(x.ids[..off / B], tail); }
    HeirBlocks(x.ids, off, tail, s.pool);
    forall b | b in s.pool ensures b < s.num { }
  }

  lemma HeirBlocks(ids: seq<nat>, off: nat, tail: nat, pool: set<nat>)
    requires off / B < |ids| && (off % B > 0 ==> tail in pool)
    ensures var heir := ids[..off / B] + (if off % B > 0 then [tail] else []);
      && |heir| <= |ids| && (forall b :: b in heir ==> b in ids || b in pool)
      && (off < B ==> forall b :: b in heir ==> b in pool)
      && (off >= B ==> |ids| > 0 && |heir| > 0 && heir[0] == ids[0])
  { }

  lemma SlotsFit(s: State, f: nat, off: nat, tail: nat)
    requires CanShrink(s, f, off, tail)
    ensures var x := s.files[f]; var y := Heir(s, f, off, tail); var mem := s.tab.mem;
      && SlotsPresent(s.tab, x, y) && x.fh in s.byFh && s.byFh[x.fh] == f
      && FileShown(s.tab, x) && BlockShown(s.tab, x) && x.name != "" && DirUsed(mem, x.dh)
      && !mem.files[y.fh].used && mem.files[y.fh].child == -1 && (y.fb.Some? ==> !mem.blocks[y.fb.value].used)
  {
    hide DirsOK, BlocksOK, FdsOK, Heir;
    HeirIs(s, f, off, tail);
    assert Shown(s, f) && Indexed(s, f);
    SelfElsewhere(s, f);
    assert FreeFile(s.tab, s.freeFhs[0]);
    if off > 0 { assert FreeBlock(s.tab, s.freeFbs[0]); }
    DirIsUsed(s, s.files[f].dh);
  }

  // ---------------------------------------------------------------- file slots

  /** The old slot, with its child, would pass for sealed. */
  ghost predicate ChildSealed(s: State, f: nat, off: nat, tail: nat)
    requires CanShrink(s, f, off, tail)
  {
    var m := FileAt(s.tab, s.files[f].fh).(child := Heir(s, f, off, tail).fh);
    m == SealFile(m)
  }

  /** After the heir's write the old slot is on the device with a stale checksum if
      both lie in one page. */
  ghost predicate OldIsStale(s: State, f: nat, off: nat, tail: nat, n: nat)
    requires CanShrink(s, f, off, tail)
  {
    1 <= n <= 2 && SamePage(s.files[f].fh, Heir(s, f, off, tail).fh) && !ChildSealed(s, f, off, tail)
  }

  lemma CutTempFree(s: State, f: nat, off: nat, tail: nat, n: nat)
    requires CanShrink(s, f, off, tail) && 0 < n <= 6
    ensures TempFree(CutDisk(s, f, off, tail, n))
  {
    hide Inv, SlotsOK, Persisted, Named, Heir, AfterWrites, MountImage, DirUsed, ShrinkLeaks;
    var x := s.files[f];
    var y := Heir(s, f, off, tail);
    var mem := s.tab.mem;
    var img := CutDisk(s, f, off, tail, n);
    LiveImage(s);
    SlotsFit(s, f, off, tail);
    AfterIs(s.tab, x, y, n);
    forall h: nat ensures !TempSlot(img, h) { assert !TempSlot(mem, h); }
    forall i: nat | i < |img.blocks| && img.blocks[i].used ensures !img.blocks[i].isTemp {
      assert mem.blocks[i].used ==> !mem.blocks[i].isTemp;
    }
  }

  lemma CutFileSlot(s: State, f: nat, off: nat, tail: nat, n: nat, h: nat)
    requires CanShrink(s, f, off, tail) && 0 < n <= 6 && h < |s.tab.mem.files|
    ensures FileSlotGood(CutDisk(s, f, off, tail, n), h) <==> (h == s.files[f].fh ==> !OldIsStale(s, f, off, tail, n))
  {
    hide Inv, SlotsOK, Persisted, Named, Heir, AfterWrites, MountImage, DirUsed, ShrinkLeaks, TempFree;
    var x := s.files[f];
    var y := Heir(s, f, off, tail);
    var mem := s.tab.mem;
    var img := CutDisk(s, f, off, tail, n);
    LiveImage(s);
    MountAcceptsIff(mem, s.num, s.dev);
    SlotsFit(s, f, off, tail);
    HeirIs(s, f, off, tail);
    AfterIs(s.tab, x, y, n);
    CutTempFree(s, f, off, tail, n);
    NoneMended(img, h, h);
    NoneMended(mem, h, h);
    assert FileSlotGood(mem, h);
    forall d: nat ensures DirUsed(img, d) <==> DirUsed(mem, d) { SameDirUsed(mem, img, d); }
  }

  lemma SameDirUsed(img: Image, other: Image, d: nat)
    requires other.dirs == img.dirs
    ensures DirUsed(other, d) <==> DirUsed(img, d)
  { }

  // ---------------------------------------------------------------- file block slots

  /** Slot `m` in place `i` is that of file `z`. */
  predicate ListedBy(m: FileBlockMeta, i: nat, z: File) {
    z.fb == Some(i) && m.fh == z.fh && m.ids == z.ids
  }

  /** Which file a slot in use belongs to, and what it lists. */
  ghost predicate SlotListed(s: State, f: nat, off: nat, tail: nat, n: nat, i: nat, g: nat)
    requires CanShrink(s, f, off, tail)
  {
    var img := CutDisk(s, f, off, tail, n);
    var x, y := s.files[f], Heir(s, f, off, tail);
    && BlockUsed(img, i) && g in s.files
    && 0 <= img.blocks[i].fh && FileUsed(img, img.blocks[i].fh) && img.blocks[i].cut == 0
    && (g != f ==> ListedBy(img.blocks[i], i, s.files[g]))
    && (g == f ==> (n < 4 && ListedBy(img.blocks[i], i, x)) || (n >= 2 && ListedBy(img.blocks[i], i, y)))
  }

  lemma OwnerOf(s: State, f: nat, off: nat, tail: nat, n: nat, i: nat) returns (g: nat)
    requires CanShrink(s, f, off, tail) && 0 < n <= 6 && BlockUsed(CutDisk(s, f, off, tail, n), i)
    ensures SlotListed(s, f, off, tail, n, i, g)
  {
    hide Inv, Sound, SlotsOK, Persisted, Named, Heir, AfterWrites, DirUsed, ShrinkLeaks, TempFree;
    var x := s.files[f];
    var y := Heir(s, f, off, tail);
    SlotsFit(s, f, off, tail);
    HeirIs(s, f, off, tail);
    AfterIs(s.tab, x, y, n);
    InvIsSound(s);
    g := f;
    if x.fb != Some(i) && y.fb != Some(i) {
      g := UsedBlockIsOwned(s, i);
      OthersElsewhere(s, f, g);
      KnownSlot(s, g);
    }
  }

  lemma KnownSlot(s: State, g: nat)
    requires Inv(s) && g in s.files
    ensures s.files[g].fh in s.byFh
  {
    assert Indexed(s, g);
  }

  lemma FilesOwn(s: State, f: nat, g: nat)
    requires Inv(s) && f in s.files && g in s.files
    ensures NoDup(s.files[g].ids) && |s.files[g].ids| <= C
    ensures forall b :: b in s.files[g].ids ==> b < s.num && b !in s.pool
    ensures f != g ==> forall b :: b in s.files[f].ids ==> b !in s.files[g].ids
  {
    assert HasBlocks(s, g) && (f != g ==> FilesApart(s, f, g));
  }

  /** Two slots in use list no block twice, unless one is the old slot, the other
      the heir's, and the heir has inherited a block. */
  lemma SlotsShareNothing(s: State, f: nat, off: nat, tail: nat, n: nat, i: nat, j: nat)
    requires CanShrink(s, f, off, tail) && 0 < n <= 6 && i != j && (off < B || !(2 <= n <= 3))
    requires BlockUsed(CutDisk(s, f, off, tail, n), i) && BlockUsed(CutDisk(s, f, off, tail, n), j)
    ensures var img := CutDisk(s, f, off, tail, n);
      forall b :: b in img.blocks[i].ids ==> b !in img.blocks[j].ids
  {
    hide Inv, SlotsOK, Persisted, Named, Heir, CutDisk, ShrinkLeaks, BlockUsed, FileUsed;
    var g := OwnerOf(s, f, off, tail, n, i);
    var h := OwnerOf(s, f, off, tail, n, j);
    HeirIs(s, f, off, tail);
    FilesOwn(s, g, h);
    FilesOwn(s, h, g);
    FilesOwn(s, f, f);
  }

  lemma CutBlockSlot(s: State, f: nat, off: nat, tail: nat, n: nat, i: nat)
    requires CanShrink(s, f, off, tail) && 0 < n <= 6 && (off < B || !(2 <= n <= 3))
    requires i < |s.tab.mem.blocks|
    ensures BlockSlotGood(CutDisk(s, f, off, tail, n), s.num, i)
  {
    hide Inv, SlotsOK, Named, Heir, AfterWrites, DirUsed, ShrinkLeaks, TempFree, SlotListed, CutDisk;
    var img := CutDisk(s, f, off, tail, n);
    CutIsSealed(s, f, off, tail, n, i);
    if BlockUsed(img, i) {
      var g := OwnerOf(s, f, off, tail, n, i);
      ListedWell(s, f, off, tail, n, i, g);
      forall j: nat ensures BlocksNew(img, i, j) {
        if j < i && BlockUsed(img, j) { SlotsShareNothing(s, f, off, tail, n, i, j); }
      }
    }
  }

  lemma ListedWell(s: State, f: nat, off: nat, tail: nat, n: nat, i: nat, g: nat)
    requires CanShrink(s, f, off, tail) && SlotListed(s, f, off, tail, n, i, g)
    ensures var m := CutDisk(s, f, off, tail, n).blocks[i];
      && 0 <= m.fh && FileUsed(CutDisk(s, f, off, tail, n), m.fh)
      && |m.ids| <= C && NoDup(m.ids) && forall b :: b in m.ids ==> b < s.num
  {
    hide Inv, SlotsOK, Persisted, Named, Heir, CutDisk, ShrinkLeaks, FileUsed;
    HeirIs(s, f, off, tail);
    FilesOwn(s, f, g);
  }

  lemma CutIsSealed(s: State, f: nat, off: nat, tail: nat, n: nat, i: nat)
    requires CanShrink(s, f, off, tail) && 0 < n <= 6 && i < |s.tab.mem.blocks|
    ensures var img := CutDisk(s, f, off, tail, n);
      |img.blocks| == |s.tab.mem.blocks| && img.blocks[i] == SealBlock(img.blocks[i])
  {
    hide Inv, SlotsOK, Named, Heir, AfterWrites, ShrinkLeaks;
    SlotsFit(s, f, off, tail);
    AfterIs(s.tab, s.files[f], Heir(s, f, off, tail), n);
    assert BlockSlotOK(s, i);
  }

  /** Between the write of the heir's blocks and the clearing of the old ones an
      inherited block is listed twice. */
  lemma SharedBlock(s: State, f: nat, off: nat, tail: nat, n: nat)
    requires CanShrink(s, f, off, tail) && 2 <= n <= 3 && off >= B
    ensures var img := CutDisk(s, f, off, tail, n); !BlocksGood(img, s.num, |img.blocks|)
  {
    hide Inv, SlotsOK, Persisted, Named, Heir, AfterWrites, DirUsed, ShrinkLeaks, NoDup;
    var x := s.files[f];
    var y := Heir(s, f, off, tail);
    var img := CutDisk(s, f, off, tail, n);
    SlotsFit(s, f, off, tail);
    HeirIs(s, f, off, tail);
    AfterIs(s.tab, x, y, n);
    var i, j := x.fb.value, y.fb.value;
    assert BlockUsed(img, i) && BlockUsed(img, j);
    assert x.ids[0] in img.blocks[i].ids && x.ids[0] in img.blocks[j].ids;
    if j < i {
      assert !BlocksNew(img, i, j);
      assert !BlockSlotGood(img, s.num, i);
    } else {
      assert !BlocksNew(img, j, i);
      assert !BlockSlotGood(img, s.num, j);
    }
  }

  // ---------------------------------------------------------------- the theorem

  /** Power cut after `n` of the six slot writes of a shrink that would have
      succeeded. The device can be mounted unless the old file slot got to it
      early, with the heir's page and a stale checksum, or an inherited block is
      listed by the old file block slot and by the heir's. */
  lemma CrashInShrink(s: State, f: nat, off: nat, tail: nat, n: nat)
    requires CanShrink(s, f, off, tail) && n <= 6
    ensures MountImage(CutDisk(s, f, off, tail, n), s.num, s.dev).Some? <==>
      !OldIsStale(s, f, off, tail, n) && !(2 <= n <= 3 && off >= B)
  {
    hide Inv, SlotsOK, Persisted, Named, CutDisk, ShrinkLeaks, MountImage, OldIsStale, FileSlotGood, BlockSlotGood,
         DirSlotGood, DirHeld;
    var img := CutDisk(s, f, off, tail, n);
    CutStart(s, f, off, tail, n);
    if n > 0 {
      CutTempFree(s, f, off, tail, n);
      MountAcceptsIff(img, s.num, s.dev);
      MountAcceptsIff(s.tab.mem, s.num, s.dev);
      forall h: nat
        ensures h < |img.dirs| ==> DirSlotGood(img, h)
        ensures DirHeld(img, h)
      {
        SameDirs(s.tab.mem, img, h);
      }
      forall h: nat | h < |img.files|
        ensures FileSlotGood(img, h) <==> (h == s.files[f].fh ==> !OldIsStale(s, f, off, tail, n))
      {
        CutFileSlot(s, f, off, tail, n, h);
      }
      assert FileSlotGood(img, s.files[f].fh) <==> !OldIsStale(s, f, off, tail, n);
      if 2 <= n <= 3 && off >= B {
        SharedBlock(s, f, off, tail, n);
      } else {
        forall i: nat | i < |img.blocks| ensures BlockSlotGood(img, s.num, i) { CutBlockSlot(s, f, off, tail, n, i); }
      }
    }
  }

  lemma CutStart(s: State, f: nat, off: nat, tail: nat, n: nat)
    requires CanShrink(s, f, off, tail) && n <= 6
    ensures var img := CutDisk(s, f, off, tail, n);
      && MountImage(s.tab.mem, s.num, s.dev).Some? && (n == 0 ==> img == s.tab.mem && !OldIsStale(s, f, off, tail, n))
      && img.dirs == s.tab.mem.dirs && |img.files| == |s.tab.mem.files| && |img.blocks| == |s.tab.mem.blocks|
      && s.files[f].fh < |img.files|
  {
    hide Inv, SlotsOK, Persisted, Named, Heir, AfterWrites, MountImage, ShrinkLeaks;
    LiveImage(s);
    SlotsFit(s, f, off, tail);
    AfterIs(s.tab, s.files[f], Heir(s, f, off, tail), n);
  }

  /** After all six the device is that of the finished shrink. */
  lemma SixthWriteIsLast(s: State, f: nat, off: nat, tail: nat)
    requires CanShrink(s, f, off, tail)
    ensures CutDisk(s, f, off, tail, 6) == ShrinkDone(s, f, off, tail).tab.disk
  {
    hide Inv, SlotsOK, Persisted, Named, AfterWrites, ShrinkWrites, CopyPrefix;
    SlotsFit(s, f, off, tail);
    SixWrites(s.tab, s.files[f], Heir(s, f, off, tail));
  }
}
