/** The slot tables show the state: in memory always, on the device after every
    call that does not leak, although each write flushes a page of neighbours. */
module Persist {
  import opened Geometry
  import opened Slots
  import opened Store
  import opened StoreProofs

  // ---------------------------------------------------------------- what a slot must show

  ghost predicate FileShown(tab: Tables, x: File) {
    && x.fh < |tab.mem.files|
    && tab.mem.files[x.fh].(crc := 0) == FileMeta(0, true, false, x.fh, x.dh, x.name, x.size, -1, -1)
  }

  ghost predicate BlockShown(tab: Tables, x: File) {
    x.fb.Some? ==>
      && x.fb.value < |tab.mem.blocks|
      && tab.mem.blocks[x.fb.value].(crc := 0) == FileBlockMeta(0, true, false, x.fh, 0, x.ids)
  }

  ghost predicate Shown(s: State, f: nat) {
    f in s.files && FileShown(s.tab, s.files[f]) && BlockShown(s.tab, s.files[f])
  }

  ghost predicate DirShown(s: State, h: nat) {
    && h in s.tree.names && h < |s.tab.mem.dirs|
    && s.tab.mem.dirs[h].(crc := 0) == DirMeta(0, true, h, s.tree.names[h])
  }

  ghost predicate FreeFile(tab: Tables, h: nat) {
    h < |tab.mem.files| && var m := tab.mem.files[h];
    !m.used && m.fh == h && m.size == 0 && m.child == -1 && m.parent == -1
  }

  ghost predicate FreeBlock(tab: Tables, i: nat) {
    i < |tab.mem.blocks| && !tab.mem.blocks[i].used && tab.mem.blocks[i].ids == []
  }

  ghost predicate FreeDir(tab: Tables, h: nat) {
    h < |tab.mem.dirs| && !tab.mem.dirs[h].used && tab.mem.dirs[h].dh == h
  }

  /** Memory shows every live object, and every free slot is clean: what
      NewFreeFile and GetFileBlock check or assert never fails. */
  ghost predicate SlotsOK(s: State) {
    && SameShape(s.tab)
    && (forall f {:trigger Shown(s, f)} :: f in s.files ==> Shown(s, f))
    && (forall h {:trigger DirShown(s, h)} :: h in s.tree.names ==> DirShown(s, h))
    && (forall h {:trigger FreeFile(s.tab, h)} :: h in s.freeFhs ==> FreeFile(s.tab, h))
    && (forall i {:trigger FreeBlock(s.tab, i)} :: i in s.freeFbs ==> FreeBlock(s.tab, i))
    && (forall h {:trigger FreeDir(s.tab, h)} :: h in s.freeDhs ==> FreeDir(s.tab, h))
  }

  ghost predicate FbOwned(s: State, i: nat) {
    exists f :: f in s.files && s.files[f].fb == Some(i)
  }

  ghost predicate FileSlotOK(s: State, h: nat) {
    h < |s.tab.mem.files| && var m := s.tab.mem.files[h];
    m == SealFile(m) && (m.used ==> h in s.byFh) && (!m.used ==> FreeFile(s.tab, h))
  }

  ghost predicate BlockSlotOK(s: State, i: nat) {
    i < |s.tab.mem.blocks| && var m := s.tab.mem.blocks[i];
    m == SealBlock(m) && (m.used ==> FbOwned(s, i)) && (!m.used ==> i in s.freeFbs)
  }

  ghost predicate DirSlotOK(s: State, h: nat) {
    h < |s.tab.mem.dirs| && var m := s.tab.mem.dirs[h];
    m == SealDir(m) && (m.used ==> h in s.tree.names) && (!m.used ==> FreeDir(s.tab, h))
  }

  /** The device holds exactly the memory tables, every checksum matches, and no
      slot is in use that the state does not know. */
  ghost predicate Persisted(s: State) {
    && s.tab.mem == s.tab.disk
    && (forall h :: h in s.tree.names ==> |s.tree.names[h]| < MAX_DIR_NAME)
    && (forall h: nat {:trigger FileSlotOK(s, h)} :: h < |s.tab.mem.files| ==> FileSlotOK(s, h))
    && (forall i: nat {:trigger BlockSlotOK(s, i)} :: i < |s.tab.mem.blocks| ==> BlockSlotOK(s, i))
    && (forall h: nat {:trigger DirSlotOK(s, h)} :: h < |s.tab.mem.dirs| ==> DirSlotOK(s, h))
  }

  /** Every file has a name. Mount asks for it; a rename can break it. */
  ghost predicate Named(s: State) {
    forall f :: f in s.files ==> s.files[f].name != ""
  }

  // ---------------------------------------------------------------- extend

  lemma FileWritten(tab: Tables, y: File)
    requires SameShape(tab) && y.fh < |tab.mem.files|
    ensures var u := WriteFile(tab, y.fh, FileAt(tab, y.fh).(size := y.size));
      && SameShape(u) && u.mem.blocks == tab.mem.blocks && u.mem.dirs == tab.mem.dirs
      && u.mem.files == tab.mem.files[y.fh := SealFile(tab.mem.files[y.fh].(size := y.size))]
      && (tab.mem == tab.disk ==> u.mem == u.disk)
  {
    WriteFileEffect(tab, y.fh, FileAt(tab, y.fh).(size := y.size));
  }

  lemma ExtendWritesEffect(tab: Tables, y: File, grown: bool)
    requires SameShape(tab) && y.fh < |tab.mem.files| && y.fb.Some? && y.fb.value < |tab.mem.blocks|
    ensures var u := ExtendWrites(tab, y, grown);
      && SameShape(u) && u.mem.dirs == tab.mem.dirs
      && u.mem.files == tab.mem.files[y.fh := SealFile(tab.mem.files[y.fh].(size := y.size))]
      && (!grown ==> u.mem.blocks == tab.mem.blocks)
      && (grown ==> u.mem.blocks == tab.mem.blocks[y.fb.value := SealBlock(BlockFor(tab, y.fb.value, y.fh, y.ids))])
      && (tab.mem == tab.disk ==> u.mem == u.disk)
  {
    hide WriteFile, WriteBlock;
    var i := y.fb.value;
    if grown { WriteBlockEffect(tab, i, BlockFor(tab, i, y.fh, y.ids)); }
    var t1 := if grown then WriteBlock(tab, i, BlockFor(tab, i, y.fh, y.ids)) else tab;
    FileWritten(t1, y);
  }

  /** Only file `f` and the slots it has, had or takes are touched. */
  lemma SlotsFrame(s: State, t: State, f: nat)
    requires SlotsOK(s) && SameShape(t.tab)
    requires t.tree == s.tree && t.freeDhs == s.freeDhs && t.tab.mem.dirs == s.tab.mem.dirs
    requires |t.tab.mem.files| == |s.tab.mem.files| && |t.tab.mem.blocks| == |s.tab.mem.blocks|
    requires f in t.files ==> Shown(t, f)
    requires forall g :: g in t.files && g != f ==>
      g in s.files && t.files[g].(nlink := 0, deleted := false) == s.files[g].(nlink := 0, deleted := false)
    requires forall g :: g in t.files && g != f ==> FileAt(t.tab, t.files[g].fh) == FileAt(s.tab, t.files[g].fh)
    requires forall g :: g in t.files && g != f && t.files[g].fb.Some? ==>
      BlockAt(t.tab, t.files[g].fb.value) == BlockAt(s.tab, t.files[g].fb.value)
    requires forall h :: h in t.freeFhs ==>
      (h in s.freeFhs && FileAt(t.tab, h) == FileAt(s.tab, h)) || FreeFile(t.tab, h)
    requires forall i :: i in t.freeFbs ==>
      (i in s.freeFbs && BlockAt(t.tab, i) == BlockAt(s.tab, i)) || FreeBlock(t.tab, i)
    ensures SlotsOK(t)
  {
    forall g | g in t.files ensures Shown(t, g) { assert g != f ==> Shown(s, g); }
    forall h | h in t.tree.names ensures DirShown(t, h) { assert DirShown(s, h); }
    forall h | h in t.freeFhs ensures FreeFile(t.tab, h) { assert h in s.freeFhs ==> FreeFile(s.tab, h); }
    forall i | i in t.freeFbs ensures FreeBlock(t.tab, i) { assert i in s.freeFbs ==> FreeBlock(s.tab, i); }
    forall h | h in t.freeDhs ensures FreeDir(t.tab, h) { assert FreeDir(s.tab, h); }
  }

  lemma OthersElsewhere(s: State, f: nat, g: nat)
    requires Inv(s) && f in s.files && g in s.files && f != g
    ensures s.files[f].fh != s.files[g].fh && s.files[g].fh !in s.freeFhs
    ensures s.files[f].fb.Some? ==> s.files[f].fb != s.files[g].fb
    ensures s.files[g].fb.Some? ==> s.files[g].fb.value !in s.freeFbs
  {
    assert Indexed(s, f) && Indexed(s, g) && HasBlocks(s, g) && FilesApart(s, f, g);
  }

  lemma SelfElsewhere(s: State, f: nat)
    requires Inv(s) && f in s.files
    ensures s.files[f].fh !in s.freeFhs
    ensures s.files[f].fb.Some? ==> s.files[f].fb.value !in s.freeFbs
    ensures s.files[f].fb.None? <==> s.files[f].size == 0
    ensures s.files[f].fb.None? ==> s.files[f].ids == []
  {
    assert Indexed(s, f) && HasBlocks(s, f);
  }

  /** The slot changes of an extension that succeeds. */
  lemma ExtendDoneEffect(s: State, f: nat, off: nat, ids: seq<nat>)
    requires Inv(s) && SlotsOK(s) && f in s.files && s.files[f].size < off && Extend(s, f, off, ids).1 == Done
    ensures var t := Extend(s, f, off, ids).0; var y := t.files[f]; var m := s.tab.mem; var n := t.tab.mem;
      && SameShape(t.tab) && n.dirs == m.dirs && y.fh < |m.files| && y.fb.Some? && y.fb.value < |m.blocks|
      && n.files == m.files[y.fh := SealFile(m.files[y.fh].(size := off))]
      && (ids == [] ==> n.blocks == m.blocks)
      && (ids != [] ==> n.blocks == m.blocks[y.fb.value := SealBlock(BlockFor(s.tab, y.fb.value, y.fh, y.ids))])
      && (m == s.tab.disk ==> n == t.tab.disk)
      && (y.fb == s.files[f].fb || (s.files[f].size == 0 && s.freeFbs != [] && y.fb.value == s.freeFbs[0]))
  {
    hide Inv, ExtendWrites, ExtendOverflows;
    var x := s.files[f];
    assert Shown(s, f);
    SelfElsewhere(s, f);
    if x.size == 0 { assert FreeBlock(s.tab, s.freeFbs[0]); }
    var y := Extend(s, f, off, ids).0.files[f];
    ExtendWritesEffect(s.tab, y, ids != []);
  }

  lemma ExtendDoneSlots(s: State, f: nat, off: nat, ids: seq<nat>)
    requires Inv(s) && SlotsOK(s) && f in s.files && s.files[f].size < off && Extend(s, f, off, ids).1 == Done
    requires PickOK(s.pool, ids, Needed(s.files[f].size, off))
    ensures SlotsOK(Extend(s, f, off, ids).0)
  {
    hide Inv, ExtendWrites, ExtendOverflows, ExtendRefused, WriteFile, WriteBlock, Shown, FreeFile, FreeDir;
    var t := Extend(s, f, off, ids).0;
    ExtendDoneEffect(s, f, off, ids);
    ExtendDoneShown(s, f, off, ids);
    SelfElsewhere(s, f);
    InvFreeLists(s);
    if s.freeFbs != [] { NoDupRotate(s.freeFbs); }
    forall g | g in s.files && g != f
      ensures s.files[g].fh != s.files[f].fh && (s.files[g].fb.Some? ==> s.files[g].fb != t.files[f].fb)
    {
      OthersElsewhere(s, f, g);
    }
    SlotsFrame(s, t, f);
  }

  lemma ExtendDoneShown(s: State, f: nat, off: nat, ids: seq<nat>)
    requires Inv(s) && SlotsOK(s) && f in s.files && s.files[f].size < off && Extend(s, f, off, ids).1 == Done
    requires PickOK(s.pool, ids, Needed(s.files[f].size, off))
    ensures Shown(Extend(s, f, off, ids).0, f)
  {
    hide Inv, ExtendWrites, ExtendOverflows, ExtendRefused, WriteFile, WriteBlock;
    ExtendDoneEffect(s, f, off, ids);
    assert Shown(s, f);
    SelfElsewhere(s, f);
    GrownFromNothing(s.files[f].size, off);
  }

  lemma GrownFromNothing(size: nat, off: nat)
    requires size < off
    ensures size == 0 ==> Needed(size, off) > 0
  { }

  lemma ExtendDoneBlockSlot(s: State, f: nat, off: nat, ids: seq<nat>, i: nat)
    requires Inv(s) && SlotsOK(s) && Persisted(s) && f in s.files && s.files[f].size < off
    requires Extend(s, f, off, ids).1 == Done
    requires ids == [] ==> s.files[f].fb.Some?
    requires i < |s.tab.mem.blocks|
    ensures BlockSlotOK(Extend(s, f, off, ids).0, i)
  {
    hide Inv, ExtendWrites, ExtendOverflows, ExtendRefused, WriteFile, WriteBlock, SameShape, SlotsOK, FreeFile,
         FreeDir;
    var t := Extend(s, f, off, ids).0;
    ExtendDoneEffect(s, f, off, ids);
    SelfElsewhere(s, f);
    assert BlockSlotOK(s, i);
    if Some(i) == t.files[f].fb {
      assert FbOwned(t, i);
    } else if s.tab.mem.blocks[i].used {
      var g :| g in s.files && s.files[g].fb == Some(i);
      assert t.files[g].fb == Some(i);
    }
  }

  lemma ExtendDoneFileSlot(s: State, f: nat, off: nat, ids: seq<nat>, h: nat)
    requires Inv(s) && SlotsOK(s) && Persisted(s) && f in s.files && s.files[f].size < off
    requires Extend(s, f, off, ids).1 == Done
    ensures h < |s.tab.mem.files| ==> FileSlotOK(Extend(s, f, off, ids).0, h)
    ensures h < |s.tab.mem.dirs| ==> DirSlotOK(Extend(s, f, off, ids).0, h)
  {
    hide Inv, ExtendWrites, ExtendOverflows, ExtendRefused, SameShape;
    ExtendDoneEffect(s, f, off, ids);
    InvHasBlocks(s, f);
    assert Shown(s, f);
    if h < |s.tab.mem.files| { assert FileSlotOK(s, h); }
    if h < |s.tab.mem.dirs| { assert DirSlotOK(s, h); }
  }

  lemma ExtendDonePersists(s: State, f: nat, off: nat, ids: seq<nat>)
    requires Inv(s) && SlotsOK(s) && Persisted(s) && f in s.files && s.files[f].size < off
    requires Extend(s, f, off, ids).1 == Done
    requires PickOK(s.pool, ids, Needed(s.files[f].size, off))
    ensures Persisted(Extend(s, f, off, ids).0)
  {
    hide Inv, ExtendWrites, ExtendOverflows, ExtendRefused, WriteFile, WriteBlock, SameShape, SlotsOK, BlockSlotOK,
         FileSlotOK, DirSlotOK;
    var t := Extend(s, f, off, ids).0;
    ExtendDoneEffect(s, f, off, ids);
    SelfElsewhere(s, f);
    GrownFromNothing(s.files[f].size, off);
    forall h: nat | h < |t.tab.mem.files| ensures FileSlotOK(t, h) { ExtendDoneFileSlot(s, f, off, ids, h); }
    forall h: nat | h < |t.tab.mem.dirs| ensures DirSlotOK(t, h) { ExtendDoneFileSlot(s, f, off, ids, h); }
    forall i: nat | i < |t.tab.mem.blocks| ensures BlockSlotOK(t, i) { ExtendDoneBlockSlot(s, f, off, ids, i); }
  }

  // ---------------------------------------------------------------- shrink

  lemma ShrinkWritesEffect(tab: Tables, x: File, y: File)
    requires SameShape(tab) && x.fh < |tab.mem.files| && y.fh < |tab.mem.files| && x.fh != y.fh
    requires x.fb.Some? && x.fb.value < |tab.mem.blocks|
    requires (y.fb.Some? ==> y.fb.value < |tab.mem.blocks| && y.fb != x.fb)
    ensures var u := ShrinkWrites(tab, x, y); var m := tab.mem; var n := u.mem;
      && SameShape(u) && n.dirs == m.dirs && |n.files| == |m.files| && |n.blocks| == |m.blocks|
      && (var files := m.files[y.fh := SealFile(HeirSlot(tab, x, y.fh, y.size).(parent := -1))];
          n.files == files[x.fh := SealFile(ClearFile(m.files[x.fh]))])
      && (var blocks := if y.fb.None? then m.blocks
                        else m.blocks[y.fb.value := SealBlock(BlockFor(tab, y.fb.value, y.fh, y.ids))];
          n.blocks == blocks[x.fb.value := SealBlock(ClearBlock(m.blocks[x.fb.value]))])
      && (m == tab.disk ==> n == u.disk)
  {
    hide WriteFile, WriteBlock;
    var t1 := WriteFile(tab, y.fh, HeirSlot(tab, x, y.fh, y.size));
    WriteFileEffect(tab, y.fh, HeirSlot(tab, x, y.fh, y.size));
    var t2 := if y.fb.None? then t1 else WriteBlock(t1, y.fb.value, BlockFor(t1, y.fb.value, y.fh, y.ids));
    if y.fb.Some? { WriteBlockEffect(t1, y.fb.value, BlockFor(t1, y.fb.value, y.fh, y.ids)); }
    var t3 := WriteFile(t2, x.fh, FileAt(t2, x.fh).(child := y.fh));
    WriteFileEffect(t2, x.fh, FileAt(t2, x.fh).(child := y.fh));
    var t4 := WriteBlock(t3, x.fb.value, ClearBlock(BlockAt(t3, x.fb.value)));
    WriteBlockEffect(t3, x.fb.value, ClearBlock(BlockAt(t3, x.fb.value)));
    var t5 := WriteFile(t4, x.fh, ClearFile(FileAt(t4, x.fh)));
    WriteFileEffect(t4, x.fh, ClearFile(FileAt(t4, x.fh)));
    WriteFileEffect(t5, y.fh, FileAt(t5, y.fh).(parent := -1));
  }

  /** The slots after a shrink from object `x` to `y`: one file slot and perhaps
      one file block slot filled, one of each cleared. */
  ghost predicate ShrunkTables(tab: Tables, u: Tables, x: File, y: File) {
    var m := tab.mem; var n := u.mem;
    && SameShape(u) && n.dirs == m.dirs && |n.files| == |m.files| && |n.blocks| == |m.blocks|
    && y.fh < |m.files| && x.fh < |m.files| && m.files[x.fh].fh == x.fh && y.fb != x.fb
    && x.fb.Some? && x.fb.value < |m.blocks| && (y.fb.Some? ==> y.fb.value < |m.blocks|)
    && (var files := m.files[y.fh := SealFile(HeirSlot(tab, x, y.fh, y.size).(parent := -1))];
        n.files == files[x.fh := SealFile(ClearFile(m.files[x.fh]))])
    && (var blocks := if y.fb.None? then m.blocks
                      else m.blocks[y.fb.value := SealBlock(BlockFor(tab, y.fb.value, y.fh, y.ids))];
        n.blocks == blocks[x.fb.value := SealBlock(ClearBlock(m.blocks[x.fb.value]))])
    && (m == tab.disk ==> n == u.disk)
  }

  lemma ShrinkEffect(s: State, f: nat, off: nat, tail: nat)
    requires Inv(s) && SlotsOK(s) && ShrinkReady(s, f, off, tail) && !ShrinkRefused(s) && !ShrinkLeaks(s, off)
    ensures var t := ShrinkDone(s, f, off, tail); var y := t.files[f];
      && ShrunkTables(s.tab, t.tab, s.files[f], y)
      && y.fh == s.freeFhs[0] && (y.fb.Some? ==> s.freeFbs != [] && y.fb.value == s.freeFbs[0])
  {
    hide Inv, ShrinkWrites, CopyPrefix;
    assert Shown(s, f);
    SelfElsewhere(s, f);
    assert FreeFile(s.tab, s.freeFhs[0]);
    if off > 0 { assert FreeBlock(s.tab, s.freeFbs[0]); }
    ShrinkWritesEffect(s.tab, s.files[f], ShrinkDone(s, f, off, tail).files[f]);
  }

  /** Free slots after a shrink are the old ones and the two cleared ones. */
  lemma ShrinkFreeSlots(s: State, f: nat, off: nat, tail: nat)
    requires Inv(s) && SlotsOK(s) && ShrinkReady(s, f, off, tail) && !ShrinkRefused(s) && !ShrinkLeaks(s, off)
    ensures var t := ShrinkDone(s, f, off, tail);
      && (forall h :: h in t.freeFhs ==> (h in s.freeFhs && FileAt(t.tab, h) == FileAt(s.tab, h)) || FreeFile(t.tab, h))
      && (forall i :: i in t.freeFbs ==>
           (i in s.freeFbs && BlockAt(t.tab, i) == BlockAt(s.tab, i)) || FreeBlock(t.tab, i))
  {
    hide Inv, SlotsOK, ShrinkWrites, CopyPrefix, ShrinkLeaks;
    ShrinkEffect(s, f, off, tail);
    InvFreeLists(s);
    NoDupRotate(s.freeFhs);
    if s.freeFbs != [] { NoDupRotate(s.freeFbs); }
  }

  lemma ShrunkIsShown(s: State, f: nat, off: nat, tail: nat)
    requires Inv(s) && SlotsOK(s) && ShrinkReady(s, f, off, tail) && !ShrinkRefused(s) && !ShrinkLeaks(s, off)
    ensures var t := ShrinkDone(s, f, off, tail);
      && Shown(t, f) && SameShape(t.tab) && t.tab.mem.dirs == s.tab.mem.dirs
      && |t.tab.mem.files| == |s.tab.mem.files| && |t.tab.mem.blocks| == |s.tab.mem.blocks|
  {
    hide Inv, ShrinkWrites, CopyPrefix, ShrinkLeaks;
    ShrinkEffect(s, f, off, tail);
    SelfElsewhere(s, f);
    assert Shown(s, f) && FreeFile(s.tab, s.freeFhs[0]);
  }

  lemma ShrinkSlots(s: State, f: nat, off: nat, tail: nat)
    requires Inv(s) && SlotsOK(s) && ShrinkReady(s, f, off, tail) && !ShrinkRefused(s) && !ShrinkLeaks(s, off)
    ensures SlotsOK(ShrinkDone(s, f, off, tail))
  {
    hide Inv, SlotsOK, Shown, FreeFile, FreeBlock, ShrunkTables, FileAt, BlockAt, ShrinkWrites, CopyPrefix, ShrinkLeaks;
    var t := ShrinkDone(s, f, off, tail);
    ShrinkFreeSlots(s, f, off, tail);
    ShrunkIsShown(s, f, off, tail);
    forall g | g in s.files && g != f
      ensures FileAt(t.tab, s.files[g].fh) == FileAt(s.tab, s.files[g].fh)
      ensures s.files[g].fb.Some? ==> BlockAt(t.tab, s.files[g].fb.value) == BlockAt(s.tab, s.files[g].fb.value)
    {
      ShrinkOther(s, f, off, tail, g);
    }
    SlotsFrame(s, t, f);
  }

  lemma ShrinkOther(s: State, f: nat, off: nat, tail: nat, g: nat)
    requires Inv(s) && SlotsOK(s) && ShrinkReady(s, f, off, tail) && !ShrinkRefused(s) && !ShrinkLeaks(s, off)
    requires g in s.files && g != f
    ensures var t := ShrinkDone(s, f, off, tail).tab;
      && FileAt(t, s.files[g].fh) == FileAt(s.tab, s.files[g].fh)
      && (s.files[g].fb.Some? ==> BlockAt(t, s.files[g].fb.value) == BlockAt(s.tab, s.files[g].fb.value))
  {
    hide Inv, SlotsOK, ShrinkWrites, CopyPrefix, ShrinkLeaks;
    ShrinkEffect(s, f, off, tail);
    OthersElsewhere(s, f, g);
  }

  lemma ShrinkPersists(s: State, f: nat, off: nat, tail: nat)
    requires Inv(s) && SlotsOK(s) && Persisted(s) && ShrinkReady(s, f, off, tail) && !ShrinkRefused(s)
    requires !ShrinkLeaks(s, off)
    ensures Persisted(ShrinkDone(s, f, off, tail))
  {
    hide Inv, ShrinkWrites, CopyPrefix, ShrinkLeaks, SameShape, SlotsOK;
    var t := ShrinkDone(s, f, off, tail);
    var x := s.files[f];
    ShrinkEffect(s, f, off, tail);
    SelfElsewhere(s, f);
    InvFreeLists(s);
    forall h: nat | h < |t.tab.mem.files| ensures FileSlotOK(t, h) { assert FileSlotOK(s, h); }
    forall h: nat | h < |t.tab.mem.dirs| ensures DirSlotOK(t, h) { assert DirSlotOK(s, h); }
    forall i: nat | i < |t.tab.mem.blocks| ensures BlockSlotOK(t, i) {
      ShrinkBlockSlot(s, f, off, tail, i);
    }
  }

  lemma ShrinkBlockSlot(s: State, f: nat, off: nat, tail: nat, i: nat)
    requires Inv(s) && SlotsOK(s) && Persisted(s) && ShrinkReady(s, f, off, tail) && !ShrinkRefused(s)
    requires !ShrinkLeaks(s, off)
    requires i < |s.tab.mem.blocks|
    ensures BlockSlotOK(ShrinkDone(s, f, off, tail), i)
  {
    hide Inv, ShrinkWrites, CopyPrefix, ShrinkLeaks, SameShape, SlotsOK;
    var t := ShrinkDone(s, f, off, tail);
    ShrinkEffect(s, f, off, tail);
    assert BlockSlotOK(s, i);
    if Some(i) == t.files[f].fb {
      assert FbOwned(t, i);
    } else if Some(i) == s.files[f].fb {
      assert i == t.freeFbs[|t.freeFbs| - 1];
    } else if s.tab.mem.blocks[i].used {
      var g :| g in s.files && s.files[g].fb == Some(i);
      assert t.files[g].fb == Some(i);
    } else if off > 0 {
      assert s.freeFbs == [s.freeFbs[0]] + s.freeFbs[1..];
    }
  }

  // ---------------------------------------------------------------- create, unlink, rename

  lemma PersistFrame(s: State, t: State)
    requires Persisted(s) && t.tab.mem == t.tab.disk && t.tree == s.tree
    requires t.tab.mem.dirs == s.tab.mem.dirs && t.tab.mem.blocks == s.tab.mem.blocks && t.freeFbs == s.freeFbs
    requires forall f :: f in s.files ==> f in t.files && t.files[f].fb == s.files[f].fb
    requires forall h: nat :: h < |t.tab.mem.files| ==> FileSlotOK(t, h)
    ensures Persisted(t)
  {
    forall h: nat | h < |t.tab.mem.dirs| ensures DirSlotOK(t, h) { assert DirSlotOK(s, h); }
    forall i: nat | i < |t.tab.mem.blocks| ensures BlockSlotOK(t, i) {
      assert BlockSlotOK(s, i);
      if s.tab.mem.blocks[i].used {
        var g :| g in s.files && s.files[g].fb == Some(i);
        assert t.files[g].fb == Some(i);
      }
    }
  }

  lemma AddFileSlots(s: State, dh: nat, name: string)
    requires Inv(s) && SlotsOK(s) && s.freeFhs != [] && dh in s.inDir && (dh, name) !in s.byName
    ensures SlotsOK(AddFile(s, dh, name))
    ensures Persisted(s) ==> Persisted(AddFile(s, dh, name))
  {
    hide Inv, WriteFile;
    var t := AddFile(s, dh, name);
    var fh := s.freeFhs[0];
    AddFileKeepsInv(s, dh, name);
    NextIdIsNew(s);
    InvFreeLists(s);
    NoDupRotate(s.freeFhs);
    assert FreeFile(s.tab, fh);
    WriteFileEffect(s.tab, fh, FileAt(s.tab, fh).(used := true, isTemp := false, fh := fh, dh := dh, name := name));
    forall g | g in s.files ensures s.files[g].fh != fh { SelfElsewhere(s, g); }
    SlotsFrame(s, t, s.nextId);
    if Persisted(s) { AddFilePersists(s, dh, name); }
  }

  lemma AddFilePersists(s: State, dh: nat, name: string)
    requires Inv(s) && SlotsOK(s) && Persisted(s) && s.freeFhs != [] && dh in s.inDir
    ensures Persisted(AddFile(s, dh, name))
  {
    hide Inv, WriteFile;
    var t := AddFile(s, dh, name);
    var fh := s.freeFhs[0];
    NextIdIsNew(s);
    assert FreeFile(s.tab, fh);
    WriteFileEffect(s.tab, fh, FileAt(s.tab, fh).(used := true, isTemp := false, fh := fh, dh := dh, name := name));
    forall h: nat | h < |t.tab.mem.files| ensures FileSlotOK(t, h) { assert FileSlotOK(s, h); }
    PersistFrame(s, t);
  }

  lemma DropWritesEffect(tab: Tables, x: File)
    requires SameShape(tab) && x.fh < |tab.mem.files| && (x.fb.Some? ==> x.fb.value < |tab.mem.blocks|)
    ensures var u := DropWrites(tab, x); var m := tab.mem; var n := u.mem;
      && SameShape(u) && n.dirs == m.dirs
      && n.files == m.files[x.fh := SealFile(ClearFile(m.files[x.fh]))]
      && (x.fb.Some? ==> n.blocks == m.blocks[x.fb.value := SealBlock(ClearBlock(m.blocks[x.fb.value]))])
      && (x.fb.None? ==> n.blocks == m.blocks)
      && (m == tab.disk ==> n == u.disk)
  {
    hide WriteFile, WriteBlock;
    var t1 := if x.fb.None? then tab else WriteBlock(tab, x.fb.value, ClearBlock(BlockAt(tab, x.fb.value)));
    if x.fb.Some? { WriteBlockEffect(tab, x.fb.value, ClearBlock(BlockAt(tab, x.fb.value))); }
    WriteFileEffect(t1, x.fh, ClearFile(FileAt(t1, x.fh)));
  }

  lemma DropFileSlots(s: State, f: nat)
    requires Inv(s) && SlotsOK(s) && f in s.files && s.files[f].nlink == 0
    ensures s.files[f].dh in s.inDir && SlotsOK(DropFile(s, f))
    ensures Persisted(s) ==> Persisted(DropFile(s, f))
  {
    hide Inv, DropWrites;
    InvHasBlocks(s, f);
    DropFileKeepsInv(s, f);
    var t := DropFile(s, f);
    var x := s.files[f];
    assert Shown(s, f);
    SelfElsewhere(s, f);
    DropWritesEffect(s.tab, x);
    forall g | g in s.files && g != f
      ensures s.files[g].fh != x.fh && (s.files[g].fb.Some? ==> s.files[g].fb != x.fb)
    {
      OthersElsewhere(s, f, g);
    }
    assert x.fb.Some? ==> FreeBlock(t.tab, x.fb.value);
    SlotsFrame(s, t, f);
    if Persisted(s) { DropFilePersists(s, f); }
  }

  lemma DropFilePersists(s: State, f: nat)
    requires Inv(s) && SlotsOK(s) && Persisted(s) && f in s.files && s.files[f].dh in s.inDir
    ensures Persisted(DropFile(s, f))
  {
    hide Inv, DropWrites;
    var t := DropFile(s, f);
    var x := s.files[f];
    assert Shown(s, f);
    DropWritesEffect(s.tab, x);
    forall h: nat | h < |t.tab.mem.files| ensures FileSlotOK(t, h) { assert FileSlotOK(s, h); }
    forall h: nat | h < |t.tab.mem.dirs| ensures DirSlotOK(t, h) { assert DirSlotOK(s, h); }
    forall i: nat | i < |t.tab.mem.blocks| ensures BlockSlotOK(t, i) {
      assert BlockSlotOK(s, i);
      if Some(i) == x.fb {
        assert t.freeFbs[|t.freeFbs| - 1] == i;
      } else if s.tab.mem.blocks[i].used {
        var g :| g in s.files && s.files[g].fb == Some(i);
        assert g in t.files && t.files[g].fb == Some(i);
      }
    }
  }

  lemma MoveFileSlots(s: State, f: nat, dh: nat, name: string)
    requires Inv(s) && SlotsOK(s) && f in s.files && dh in s.inDir
    requires (dh, name) !in s.byName || s.byName[(dh, name)] == f
    ensures s.files[f].dh in s.inDir && SlotsOK(MoveFile(s, f, dh, name))
    ensures Persisted(s) ==> Persisted(MoveFile(s, f, dh, name))
  {
    hide Inv, WriteFile;
    InvHasBlocks(s, f);
    MoveFileKeepsInv(s, f, dh, name);
    var t := MoveFile(s, f, dh, name);
    var x := s.files[f];
    assert Shown(s, f);
    SelfElsewhere(s, f);
    WriteFileEffect(s.tab, x.fh, FileAt(s.tab, x.fh).(dh := dh, name := name));
    forall g | g in s.files && g != f ensures s.files[g].fh != x.fh { OthersElsewhere(s, f, g); }
    SlotsFrame(s, t, f);
    if Persisted(s) { MoveFilePersists(s, f, dh, name); }
  }

  lemma MoveFilePersists(s: State, f: nat, dh: nat, name: string)
    requires Inv(s) && SlotsOK(s) && Persisted(s) && f in s.files && s.files[f].dh in s.inDir && dh in s.inDir
    ensures Persisted(MoveFile(s, f, dh, name))
  {
    hide Inv, WriteFile;
    var t := MoveFile(s, f, dh, name);
    var x := s.files[f];
    assert Shown(s, f);
    InvHasBlocks(s, f);
    WriteFileEffect(s.tab, x.fh, FileAt(s.tab, x.fh).(dh := dh, name := name));
    forall h: nat | h < |t.tab.mem.files| ensures FileSlotOK(t, h) { assert FileSlotOK(s, h); }
    PersistFrame(s, t);
  }
}
