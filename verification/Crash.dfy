/** Cutting power between two slot writes, then mounting: what is on the device
    after each write of an extension or an unlink. */
module Crash {
  import opened Geometry
  import opened Slots
  import opened Store
  import opened StoreProofs
  import opened Contents
  import opened Persist
  import opened Mount
  import opened Remount

  // ---------------------------------------------------------------- extend

  /** The file block slot is written, the file's new size is not. */
  function ExtendCut(s: State, f: nat, off: nat, ids: seq<nat>): State
    requires f in s.files && s.files[f].size < off
  {
    var t := Extend(s, f, off, ids).0;
    if f !in t.files || t.files[f].fb.None? then s
    else
      var y := t.files[f];
      var tab := if ids == [] then s.tab else WriteBlock(s.tab, y.fb.value, BlockFor(s.tab, y.fb.value, y.fh, y.ids));
      t.(files := t.files[f := y.(size := s.files[f].size)], tab := tab)
  }

  lemma ExtendCutEffect(s: State, f: nat, off: nat, ids: seq<nat>)
    requires Inv(s) && SlotsOK(s) && f in s.files && s.files[f].size < off && Extend(s, f, off, ids).1 == Done
    ensures var u := ExtendCut(s, f, off, ids); var t := Extend(s, f, off, ids).0;
      && f in t.files && t.files[f].fb.Some?
      && u == t.(files := t.files[f := t.files[f].(size := s.files[f].size)], tab := u.tab)
      && SameShape(u.tab) && u.tab.mem.dirs == s.tab.mem.dirs && u.tab.mem.files == s.tab.mem.files
      && u.tab.mem.blocks == t.tab.mem.blocks && |t.tab.mem.blocks| == |s.tab.mem.blocks|
      && (s.tab.mem == s.tab.disk ==> u.tab.mem == u.tab.disk)
  {
    hide Inv, ExtendWrites, ExtendOverflows, ExtendRefused, WriteBlock;
    ExtendDoneEffect(s, f, off, ids);
    var t := Extend(s, f, off, ids).0;
    var y := t.files[f];
    if ids != [] { WriteBlockEffect(s.tab, y.fb.value, BlockFor(s.tab, y.fb.value, y.fh, y.ids)); }
  }

  /** The cut state differs from the extended one in one size and its slot. */
  lemma ExtendCutSound(s: State, f: nat, off: nat, ids: seq<nat>)
    requires Inv(s) && NoneLost(s) && SlotsOK(s) && f in s.files && s.files[f].size < off
    requires Extend(s, f, off, ids).1 == Done
    requires PickOK(s.pool, ids, Needed(s.files[f].size, off))
    ensures Sound(ExtendCut(s, f, off, ids)) && NoneLost(ExtendCut(s, f, off, ids))
    ensures Inv(ExtendCut(s, f, off, ids)) <==> s.files[f].size > 0
  {
    hide Inv, ExtendWrites, ExtendOverflows, ExtendRefused, AlignUp;
    var u := ExtendCut(s, f, off, ids);
    var t := Extend(s, f, off, ids).0;
    ExtendCutEffect(s, f, off, ids);
    ExtendKeepsInv(s, f, off, ids);
    SameButOneSize(t, u, f);
    CeilMonotone(s.files[f].size, off);
    InvHasBlocks(t, f);
    forall b: nat | b < u.num && b !in u.pool ensures Owned(u, b) {
      ExtendOwns(s, f, off, ids, b);
      var g :| g in t.files && b in t.files[g].ids;
      assert b in u.files[g].ids;
    }
  }

  lemma ExtendOwns(s: State, f: nat, off: nat, ids: seq<nat>, b: nat)
    requires NoneLost(s) && f in s.files && s.files[f].size < off && Extend(s, f, off, ids).1 == Done
    requires PickOK(s.pool, ids, Needed(s.files[f].size, off))
    ensures var t := Extend(s, f, off, ids).0; b < t.num && b !in t.pool ==> Owned(t, b)
  {
    hide ExtendWrites, ExtendOverflows, ExtendRefused;
    var t := Extend(s, f, off, ids).0;
    if b < t.num && b !in t.pool {
      if b in s.pool {
        assert b in t.files[f].ids;
      } else {
        assert Owned(s, b);
        var g :| g in s.files && b in s.files[g].ids;
        assert b in t.files[g].ids;
      }
    }
  }

  lemma SameButOneSize(t: State, u: State, f: nat)
    requires Inv(t) && f in t.files && t.files[f].fb.Some?
    requires f in u.files && u == t.(files := t.files[f := t.files[f].(size := u.files[f].size)], tab := u.tab)
    requires u.files[f].size <= t.files[f].size
    ensures Sound(u)
    ensures Inv(u) <==> u.files[f].size > 0
  {
    hide DirsOK, NoDup, AlignUp;
    InvFreeLists(t);
    IndexFrame(t, u);
    FdsFrame(t, u);
    DirsFrame(t, u);
    CeilMonotone(u.files[f].size, t.files[f].size);
    forall g | g in u.files ensures HasLists(u, g) && (g != f || u.files[f].size > 0 ==> HasBlocks(u, g)) {
      assert HasBlocks(t, g);
    }
    forall g, h | g in u.files && h in u.files && g != h ensures FilesApart(u, g, h) { assert FilesApart(t, g, h); }
    if u.files[f].size == 0 { assert !HasBlocks(u, f); }
  }

  lemma ExtendCutSlots(s: State, f: nat, off: nat, ids: seq<nat>)
    requires Inv(s) && SlotsOK(s) && Persisted(s) && f in s.files && s.files[f].size < off
    requires Extend(s, f, off, ids).1 == Done
    requires PickOK(s.pool, ids, Needed(s.files[f].size, off))
    ensures SlotsOK(ExtendCut(s, f, off, ids)) && Persisted(ExtendCut(s, f, off, ids))
  {
    hide Inv, ExtendWrites, ExtendOverflows, ExtendRefused, WriteFile, WriteBlock, FileSlotOK, DirSlotOK,
         BlockSlotOK, Extend, ExtendCut;
    var u := ExtendCut(s, f, off, ids);
    var t := Extend(s, f, off, ids).0;
    ExtendCutEffect(s, f, off, ids);
    ExtendDoneSlots(s, f, off, ids);
    ExtendDonePersists(s, f, off, ids);
    ExtendShape(s, f, off, ids);
    assert Shown(s, f) && Shown(t, f);
    forall g | g in u.files ensures Shown(u, g) {
      assert Shown(t, g) && Shown(s, g);
    }
    forall h | h in u.tree.names ensures DirShown(u, h) { assert DirShown(s, h); }
    forall h | h in u.freeFhs ensures FreeFile(u.tab, h) { assert FreeFile(s.tab, h); }
    forall i | i in u.freeFbs ensures FreeBlock(u.tab, i) { assert FreeBlock(t.tab, i); }
    forall h | h in u.freeDhs ensures FreeDir(u.tab, h) { assert FreeDir(s.tab, h); }
    forall h: nat | h < |u.tab.mem.files| ensures FileSlotOK(u, h) { ExtendCutFileSlot(s, u, h); }
    forall h: nat | h < |u.tab.mem.dirs| ensures DirSlotOK(u, h) { ExtendCutFileSlot(s, u, h); }
    forall i: nat | i < |u.tab.mem.blocks| ensures BlockSlotOK(u, i) { ExtendCutBlockSlot(t, u, f, i); }
  }

  lemma ExtendCutFileSlot(s: State, u: State, h: nat)
    requires Persisted(s) && u.tab.mem.files == s.tab.mem.files && u.tab.mem.dirs == s.tab.mem.dirs
    requires u.byFh == s.byFh && u.tree == s.tree
    ensures h < |u.tab.mem.files| ==> FileSlotOK(u, h)
    ensures h < |u.tab.mem.dirs| ==> DirSlotOK(u, h)
  {
    if h < |u.tab.mem.files| { assert FileSlotOK(s, h); }
    if h < |u.tab.mem.dirs| { assert DirSlotOK(s, h); }
  }

  lemma ExtendCutBlockSlot(t: State, u: State, f: nat, i: nat)
    requires Persisted(t) && f in t.files && u.tab.mem.blocks == t.tab.mem.blocks && u.freeFbs == t.freeFbs
    requires f in u.files && u.files == t.files[f := t.files[f].(size := u.files[f].size)] && i < |t.tab.mem.blocks|
    ensures BlockSlotOK(u, i)
  {
    assert BlockSlotOK(t, i);
    if FbOwned(t, i) {
      var g :| g in t.files && t.files[g].fb == Some(i);
      assert u.files[g].fb == Some(i);
    }
  }

  /** What a mount must give back after a crash: names, sizes and bytes. */
  ghost predicate SameBytesUnder(s: State, m: State, k: (nat, string)) {
    && (k in m.byName <==> k in s.byName)
    && (k in s.byName ==>
          && s.byName[k] in s.files && m.byName[k] in m.files
          && ContentOf(m, m.byName[k]) == ContentOf(s, s.byName[k]))
  }

  lemma ExtendCutBytes(s: State, f: nat, off: nat, ids: seq<nat>)
    requires Inv(s) && SlotsOK(s) && f in s.files && s.files[f].size < off
    requires Extend(s, f, off, ids).1 == Done && PickOK(s.pool, ids, Needed(s.files[f].size, off))
    ensures var u := ExtendCut(s, f, off, ids);
      && u.files.Keys == s.files.Keys && u.byName == s.byName && u.dev == s.dev && u.num == s.num
      && (forall g :: g in s.files ==> ContentOf(u, g) == ContentOf(s, g))
      && (Named(u) <==> Named(s))
  {
    hide Inv, SlotsOK, ExtendWrites, ExtendOverflows, ExtendRefused, PickOK, AlignUp, WriteBlock;
    var u := ExtendCut(s, f, off, ids);
    ExtendCutEffect(s, f, off, ids);
    forall p: nat | p < s.files[f].size ensures Addr(u.files[f].ids, p) == Addr(s.files[f].ids, p) {
      InFile(s, f, p);
    }
  }

  /** A crash inside an extension that would have succeeded: the mount succeeds,
      block lists stay disjoint, and every file has its old size and bytes.
      The invariant is whole again unless the file was empty: then the mounted
      file has size 0 and a file block, which ExtendFile asserts cannot be. */
  lemma CrashInExtend(s: State, f: nat, off: nat, ids: seq<nat>)
    requires Inv(s) && NoneLost(s) && SlotsOK(s) && Persisted(s) && f in s.files && s.files[f].size < off
    requires Extend(s, f, off, ids).1 == Done && PickOK(s.pool, ids, Needed(s.files[f].size, off))
    ensures var again := MountImage(ExtendCut(s, f, off, ids).tab.disk, s.num, s.dev);
      && (again.Some? <==> Named(s))
      && (Named(s) ==>
            && Sound(again.value) && (Inv(again.value) <==> s.files[f].size > 0)
            && forall k {:trigger SameBytesUnder(s, again.value, k)} :: SameBytesUnder(s, again.value, k))
  {
    hide Inv, Sound, NoneLost, SlotsOK, Persisted, PickOK, ExtendCut, Extend, MountImage, Rebuilt, ContentOf, Named;
    var u := ExtendCut(s, f, off, ids);
    ExtendCutSound(s, f, off, ids);
    ExtendCutSlots(s, f, off, ids);
    ExtendCutBytes(s, f, off, ids);
    RemountRebuilds(u);
    if Named(s) {
      var m := MountImage(u.tab.disk, u.num, u.dev).value;
      RebuiltIsSound(u, m);
      forall k ensures SameBytesUnder(s, m, k) { RemountKeepsContents(u, m, k); }
      if s.files[f].size > 0 { RemountIsGood(u, m); } else { EmptyFileWithBlocks(s, f, off, ids, m); }
    }
  }

  lemma EmptyFileWithBlocks(s: State, f: nat, off: nat, ids: seq<nat>, m: State)
    requires Inv(s) && SlotsOK(s) && f in s.files && s.files[f].size == 0 && 0 < off && Extend(s, f, off, ids).1 == Done
    requires Rebuilt(ExtendCut(s, f, off, ids), m)
    ensures !Inv(m)
  {
    hide DirsOK, IndexOK, FdsOK, SlotsOK, ExtendCut, Extend;
    var u := ExtendCut(s, f, off, ids);
    ExtendCutEffect(s, f, off, ids);
    ExtendShape(s, f, off, ids);
    InvHasBlocks(s, f);
    var h := s.files[f].fh;
    assert RebuiltFile(u, m, h);
    assert h in m.files && m.files[h].size == 0 && m.files[h].fb.Some?;
    assert !HasBlocks(m, h);
  }

  // ---------------------------------------------------------------- unlink

  /** The file block slot is cleared, the file's slot is not. */
  function UnlinkCut(s: State, f: nat): State
    requires f in s.files
  {
    var x := s.files[f];
    if x.fb.None? then s
    else s.(files := s.files[f := x.(fb := None, ids := [])],
            freeFbs := s.freeFbs + [x.fb.value], pool := s.pool + Elems(x.ids),
            tab := WriteBlock(s.tab, x.fb.value, ClearBlock(BlockAt(s.tab, x.fb.value))))
  }

  lemma UnlinkCutSound(s: State, f: nat)
    requires Inv(s) && NoneLost(s) && f in s.files
    ensures Sound(UnlinkCut(s, f)) && NoneLost(UnlinkCut(s, f))
  {
    hide DirsOK, IndexOK, FdsOK, WriteBlock, NoDup;
    InvIsSound(s);
    var u := UnlinkCut(s, f);
    var x := s.files[f];
    if x.fb.Some? {
      InvFreeLists(s);
      DirsFrame(s, u);
      IndexFrame(s, u);
      FdsFrame(s, u);
      assert HasBlocks(s, f);
      NoDupSnoc(s.freeFbs, x.fb.value);
      forall g | g in u.files ensures HasLists(u, g) {
        assert HasBlocks(s, g);
        if g != f { assert FilesApart(s, f, g) && FilesApart(s, g, f); } else { NoDupEmpty(); }
      }
      forall g, h | g in u.files && h in u.files && g != h ensures FilesApart(u, g, h) { assert FilesApart(s, g, h); }
      forall b: nat | b < u.num && b !in u.pool ensures Owned(u, b) {
        assert Owned(s, b);
        var g :| g in s.files && b in s.files[g].ids;
        assert b in u.files[g].ids;
      }
    }
  }

  lemma NoDupEmpty()
    ensures NoDup<nat>([])
  { }

  lemma UnlinkCutSlots(s: State, f: nat)
    requires Inv(s) && SlotsOK(s) && f in s.files
    ensures SlotsOK(UnlinkCut(s, f))
  {
    hide Inv, WriteBlock;
    var u := UnlinkCut(s, f);
    var x := s.files[f];
    if x.fb.Some? {
      assert Shown(s, f);
      WriteBlockEffect(s.tab, x.fb.value, ClearBlock(BlockAt(s.tab, x.fb.value)));
      forall g | g in s.files && g != f && s.files[g].fb.Some? ensures s.files[g].fb != x.fb {
        OthersElsewhere(s, f, g);
      }
      assert FreeBlock(u.tab, x.fb.value);
      SlotsFrame(s, u, f);
    }
  }

  lemma UnlinkCutPersists(s: State, f: nat)
    requires SlotsOK(s) && Persisted(s) && f in s.files
    ensures Persisted(UnlinkCut(s, f))
  {
    hide WriteBlock;
    var u := UnlinkCut(s, f);
    var x := s.files[f];
    if x.fb.Some? {
      assert Shown(s, f);
      WriteBlockEffect(s.tab, x.fb.value, ClearBlock(BlockAt(s.tab, x.fb.value)));
      forall h: nat | h < |u.tab.mem.files| ensures FileSlotOK(u, h) { assert FileSlotOK(s, h); }
      forall h: nat | h < |u.tab.mem.dirs| ensures DirSlotOK(u, h) { assert DirSlotOK(s, h); }
      forall i: nat | i < |u.tab.mem.blocks| ensures BlockSlotOK(u, i) { UnlinkCutBlockSlot(s, f, i); }
    }
  }

  lemma UnlinkCutBlockSlot(s: State, f: nat, i: nat)
    requires SlotsOK(s) && Persisted(s) && f in s.files && s.files[f].fb.Some? && i < |s.tab.mem.blocks|
    ensures BlockSlotOK(UnlinkCut(s, f), i)
  {
    hide WriteBlock;
    var u := UnlinkCut(s, f);
    var x := s.files[f];
    assert Shown(s, f) && BlockSlotOK(s, i);
    WriteBlockEffect(s.tab, x.fb.value, ClearBlock(BlockAt(s.tab, x.fb.value)));
    if i == x.fb.value {
      assert u.freeFbs[|u.freeFbs| - 1] == i;
    } else if s.tab.mem.blocks[i].used {
      var g :| g in s.files && s.files[g].fb == Some(i);
      assert u.files[g].fb == Some(i);
    }
  }

  /** A crash inside an unlink: the mount succeeds, block lists stay disjoint,
      all other files keep their bytes, and the victim keeps its name and size
      but has no block left (ReadData then answers -1). */
  lemma CrashInUnlink(s: State, f: nat)
    requires Inv(s) && NoneLost(s) && SlotsOK(s) && Persisted(s) && f in s.files
    ensures MountImage(UnlinkCut(s, f).tab.disk, s.num, s.dev).Some? <==> Named(s)
    ensures Named(s) ==> UnlinkCutMounted(s, f, MountImage(UnlinkCut(s, f).tab.disk, s.num, s.dev).value)
  {
    hide DirsOK, IndexOK, FdsOK, BlocksOK, Sound, NoneLost, SlotsOK, Persisted, MountImage, WriteBlock, Bytes,
         NoDup, UnlinkCut, Named;
    var u := UnlinkCut(s, f);
    UnlinkCutSound(s, f);
    UnlinkCutSlots(s, f);
    UnlinkCutPersists(s, f);
    UnlinkCutKeeps(s, f);
    RemountRebuilds(u);
    if Named(s) { UnlinkCutMounts(s, f, MountImage(u.tab.disk, u.num, u.dev).value); }
  }

  /** What the mount finds; the invariant is whole exactly when the file had no
      block to lose. */
  ghost predicate UnlinkCutMounted(s: State, f: nat, m: State)
    requires f in s.files
  {
    && Sound(m) && (Inv(m) <==> s.files[f].fb.None?)
    && (forall k {:trigger SameBytesUnder(s, m, k)} :: (k in s.byName ==> s.byName[k] != f) ==> SameBytesUnder(s, m, k))
    && (Key(s.files[f]) in m.byName && m.byName[Key(s.files[f])] in m.files)
    && (var y := m.files[m.byName[Key(s.files[f])]]; y.fb == None && y.ids == [] && y.size == s.files[f].size)
  }

  lemma UnlinkCutKeeps(s: State, f: nat)
    requires Inv(s) && f in s.files
    ensures var u := UnlinkCut(s, f);
      && u.num == s.num && u.dev == s.dev && u.byName == s.byName && (Named(u) <==> Named(s))
      && u.files == s.files[f := s.files[f].(fb := None, ids := [])]
      && (s.files[f].fb.None? ==> u == s)
      && Key(s.files[f]) in s.byName && s.byName[Key(s.files[f])] == f
      && u.byFh == s.byFh && s.files[f].fh in s.byFh && s.byFh[s.files[f].fh] == f
  {
    hide DirsOK, BlocksOK, FdsOK, WriteBlock;
    var u := UnlinkCut(s, f);
    assert Indexed(s, f);
    SelfElsewhere(s, f);
    assert s.files[f].fb.None? ==> s.files == s.files[f := s.files[f].(fb := None, ids := [])];
    forall g | g in s.files ensures u.files[g].name == s.files[g].name { }
  }

  lemma UnlinkCutMounts(s: State, f: nat, m: State)
    requires Inv(s) && NoneLost(s) && SlotsOK(s) && Persisted(s) && f in s.files && Named(s)
    requires MountImage(UnlinkCut(s, f).tab.disk, s.num, s.dev) == Some(m)
    ensures UnlinkCutMounted(s, f, m)
  {
    hide Inv, Sound, NoneLost, SlotsOK, Persisted, MountImage, Bytes, NoDup, UnlinkCut, Named;
    var u := UnlinkCut(s, f);
    UnlinkCutSound(s, f);
    UnlinkCutSlots(s, f);
    UnlinkCutPersists(s, f);
    UnlinkCutKeeps(s, f);
    RemountRebuilds(u);
    RebuiltIsSound(u, m);
    forall k | k in s.byName ==> s.byName[k] != f ensures SameBytesUnder(s, m, k) { RemountKeepsContents(u, m, k); }
    var k := Key(s.files[f]);
    RemountKeepsContents(u, m, k);
    assert RebuiltName(u, m, k) && RebuiltFile(u, m, m.byName[k]);
    SelfElsewhere(s, f);
    if s.files[f].fb.None? { RemountIsGood(s, m); } else { NotWhole(m, m.byName[k]); }
  }

  lemma NotWhole(m: State, h: nat)
    requires h in m.files && m.files[h].fb.None? && m.files[h].size > 0
    ensures !Inv(m)
  {
    assert !HasBlocks(m, h);
  }
}
