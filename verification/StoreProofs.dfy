/** Every operation keeps the invariant, and successful ones lose no block. */
module StoreProofs {
  import opened Geometry
  import opened DirTree
  import opened Store

  // ---------------------------------------------------------------- small facts

  lemma CeilIsLeast(size: nat)
    ensures Ceil(size) * B >= size
    ensures size > 0 ==> (Ceil(size) - 1) * B < size
    ensures Ceil(size) == 0 <==> size == 0
  { }

  lemma CeilMonotone(a: nat, b: nat)
    requires a <= b
    ensures Ceil(a) <= Ceil(b)
  { }

  // ---------------------------------------------------------------- what a change leaves alone

  lemma DirsFrame(s: State, t: State)
    requires DirsOK(s) && t.tree == s.tree && t.inDir.Keys == s.inDir.Keys && t.freeDhs == s.freeDhs
    ensures DirsOK(t)
  { }

  lemma FdsFrame(s: State, t: State)
    requires FdsOK(s) && t.open == s.open && t.freeFds == s.freeFds && t.files.Keys == s.files.Keys
    requires forall f :: f in s.files ==> t.files[f].nlink == s.files[f].nlink
    ensures FdsOK(t)
  {
    forall fd | fd in t.open ensures FdOK(t, fd) { assert FdOK(s, fd); }
    forall f | f in t.files ensures LinksOK(t, f) { assert LinksOK(s, f); }
  }

  lemma IndexFrame(s: State, t: State)
    requires IndexOK(s) && t.files.Keys == s.files.Keys && t.nextId == s.nextId
    requires forall f :: f in s.files ==> t.files[f].fh == s.files[f].fh && Key(t.files[f]) == Key(s.files[f])
    requires t.byFh == s.byFh && t.byName == s.byName && t.inDir == s.inDir
    requires NoDup(t.freeFhs) && forall h :: h in t.freeFhs ==> h in s.freeFhs
    ensures IndexOK(t)
  {
    forall f | f in t.files ensures Indexed(t, f) { assert Indexed(s, f); }
    forall h | h in t.byFh ensures FhOK(t, h) { assert FhOK(s, h); }
    forall k | k in t.byName ensures NameKeyOK(t, k) { assert NameKeyOK(s, k); }
    forall d, h | d in t.inDir && h in t.inDir[d] ensures ItemOK(t, d, h) { assert ItemOK(s, d, h); }
  }

  /** Only file `f` changes its blocks: it takes them from the pool and what it
      gives up goes back there. */
  lemma BlocksFrame(s: State, t: State, f: nat)
    requires BlocksOK(s) && f in s.files && t.num == s.num && |t.dev| == |s.dev|
    requires t.files.Keys == s.files.Keys && (forall g :: g in s.files && g != f ==> t.files[g] == s.files[g])
    requires HasBlocks(t, f)
    requires forall b :: b in t.files[f].ids ==> b in s.files[f].ids || b in s.pool
    requires forall b :: b in t.pool ==> b in s.pool || b in s.files[f].ids
    requires NoDup(t.freeFbs)
    requires forall i :: i in t.freeFbs ==> i in s.freeFbs || s.files[f].fb == Some(i)
    requires t.files[f].fb.Some? ==> t.files[f].fb == s.files[f].fb || t.files[f].fb.value in s.freeFbs
    ensures BlocksOK(t)
  {
    assert HasBlocks(s, f);
    forall g | g in t.files ensures HasBlocks(t, g) {
      assert HasBlocks(s, g);
      assert g != f ==> FilesApart(s, g, f);
    }
    forall g, h | g in t.files && h in t.files && g != h ensures FilesApart(t, g, h) {
      assert FilesApart(s, g, h) && HasBlocks(s, g) && HasBlocks(s, h);
    }
  }

  lemma BlocksSame(s: State, t: State)
    requires BlocksOK(s) && t.files.Keys == s.files.Keys && t.num == s.num && |t.dev| == |s.dev|
    requires forall f :: f in s.files ==> SameBlocks(t.files[f], s.files[f])
    requires t.pool <= s.pool && NoDup(t.freeFbs) && forall i :: i in t.freeFbs ==> i in s.freeFbs
    ensures BlocksOK(t)
  {
    forall f | f in t.files ensures HasBlocks(t, f) { assert HasBlocks(s, f); }
    forall f, g | f in t.files && g in t.files && f != g ensures FilesApart(t, f, g) { assert FilesApart(s, f, g); }
  }

  ghost predicate SameBlocks(x: File, y: File) {
    x.fb == y.fb && x.ids == y.ids && x.size == y.size
  }

  // ---------------------------------------------------------------- extend

  lemma GiveBackBlocks(s: State, f: nat, off: nat)
    requires Inv(s) && f in s.files
    ensures BlocksOK(ExtendGiveBack(s, f, off))
  {
    hide DirsOK, IndexOK, FdsOK, NoDup;
    if s.freeFbs != [] { NoDupRotate(s.freeFbs); }
    BlocksSame(s, ExtendGiveBack(s, f, off));
  }

  lemma ExtendSlotIsNew(s: State, f: nat)
    requires Inv(s) && f in s.files && (s.files[f].size == 0 ==> s.freeFbs != [])
    ensures ExtendSlot(s, f).Some? && ExtendSlot(s, f).value !in ExtendFree(s, f) && NoDup(ExtendFree(s, f))
    ensures ExtendSlot(s, f) == s.files[f].fb || ExtendSlot(s, f).value in s.freeFbs
    ensures forall i :: i in ExtendFree(s, f) ==> i in s.freeFbs
  {
    hide DirsOK, IndexOK, FdsOK;
    assert HasBlocks(s, f);
    if s.freeFbs != [] { NoDupRotate(s.freeFbs); }
  }

  lemma TakenIds(s: State, f: nat, ids: seq<nat>)
    requires Inv(s) && f in s.files && NoDup(ids) && forall b :: b in ids ==> b in s.pool
    ensures NoDup(s.files[f].ids + ids) && forall b :: b in s.files[f].ids + ids ==>
      b < s.num && b !in s.pool - Elems(ids)
  {
    hide DirsOK, IndexOK, FdsOK, NoDup;
    assert HasBlocks(s, f);
    NoDupConcat(s.files[f].ids, ids);
  }

  lemma OverflowBlocks(s: State, f: nat, off: nat, ids: seq<nat>)
    requires Inv(s) && f in s.files && s.files[f].size < off && !ExtendRefused(s, f, off) && ExtendOverflows(s, f, off)
    requires PickOK(s.pool, ids, Needed(s.files[f].size, off))
    ensures BlocksOK(ExtendOverflow(s, f, ids))
  {
    hide DirsOK, IndexOK, FdsOK, NoDup, AlignUp, OverflowWrites, ExtendSlot, ExtendFree;
    var t := ExtendOverflow(s, f, ids);
    var x := s.files[f];
    assert HasBlocks(s, f);
    ExtendSlotIsNew(s, f);
    TakenIds(s, f, ids);
    NoDupSlice(x.ids + ids, C);
    if x.size > 0 {
      assert t.files[f].fb == ExtendSlot(s, f) by { SlotOfGrown(s, f); }
    }
    BlocksFrame(s, t, f);
  }

  lemma SlotOfGrown(s: State, f: nat)
    requires f in s.files && s.files[f].size > 0
    ensures ExtendSlot(s, f) == s.files[f].fb && ExtendFree(s, f) == s.freeFbs
  { }

  lemma DoneBlocks(s: State, f: nat, off: nat, ids: seq<nat>)
    requires Inv(s) && f in s.files && s.files[f].size < off && !ExtendRefused(s, f, off) && !ExtendOverflows(s, f, off)
    requires PickOK(s.pool, ids, Needed(s.files[f].size, off))
    ensures BlocksOK(ExtendDone(s, f, off, ids))
  {
    hide DirsOK, IndexOK, FdsOK, NoDup, AlignUp, ExtendWrites, ExtendSlot, ExtendFree;
    var t := ExtendDone(s, f, off, ids);
    var x := s.files[f];
    assert HasBlocks(s, f);
    ExtendSlotIsNew(s, f);
    TakenIds(s, f, ids);
    CeilIsLeast(x.size);
    CeilMonotone(x.size, off);
    BlocksFrame(s, t, f);
  }

  lemma ExtendBlocks(s: State, f: nat, off: nat, ids: seq<nat>)
    requires Inv(s) && f in s.files && s.files[f].size < off
    requires ExtendRefused(s, f, off) || PickOK(s.pool, ids, Needed(s.files[f].size, off))
    ensures BlocksOK(Extend(s, f, off, ids).0)
  {
    hide Inv, BlocksOK, ExtendRefused, ExtendOverflows, PickOK, ExtendGiveBack, ExtendOverflow, ExtendDone;
    if ExtendRefused(s, f, off) { GiveBackBlocks(s, f, off); }
    else if ExtendOverflows(s, f, off) { OverflowBlocks(s, f, off, ids); }
    else { DoneBlocks(s, f, off, ids); }
  }

  /** What an extension never touches. */
  ghost predicate ExtendShaped(s: State, f: nat, t: State)
    requires f in s.files
  {
    && t.files.Keys == s.files.Keys && t.nextId == s.nextId && t.byFh == s.byFh && t.byName == s.byName
    && t.inDir == s.inDir
    && t.freeFhs == s.freeFhs && t.freeDhs == s.freeDhs && t.tree == s.tree && t.open == s.open
    && t.freeFds == s.freeFds
    && t.num == s.num && t.dev == s.dev
    && t.files[f] == s.files[f].(size := t.files[f].size, ids := t.files[f].ids, fb := t.files[f].fb)
    && (forall g :: g in s.files && g != f ==> t.files[g] == s.files[g])
  }

  lemma ExtendShape(s: State, f: nat, off: nat, ids: seq<nat>)
    requires f in s.files && s.files[f].size < off
    ensures ExtendShaped(s, f, Extend(s, f, off, ids).0)
  {
    hide ExtendRefused, ExtendOverflows, ExtendWrites, OverflowWrites, ExtendSlot, ExtendFree;
    if ExtendRefused(s, f, off) { }
    else if ExtendOverflows(s, f, off) { assert ExtendShaped(s, f, ExtendOverflow(s, f, ids)); }
    else { assert ExtendShaped(s, f, ExtendDone(s, f, off, ids)); }
  }

  lemma ExtendKeepsInv(s: State, f: nat, off: nat, ids: seq<nat>)
    requires Inv(s) && f in s.files && s.files[f].size < off
    requires ExtendRefused(s, f, off) || PickOK(s.pool, ids, Needed(s.files[f].size, off))
    ensures Inv(Extend(s, f, off, ids).0)
  {
    hide DirsOK, IndexOK, BlocksOK, FdsOK, NoDup, PickOK, ExtendRefused, Needed, Extend;
    var t := Extend(s, f, off, ids).0;
    InvFreeLists(s);
    ExtendBlocks(s, f, off, ids);
    ExtendShape(s, f, off, ids);
    DirsFrame(s, t);
    IndexFrame(s, t);
    FdsFrame(s, t);
  }

  /** A successful extension leaves exactly the blocks the new size needs, at
      most C of them, the old ones first; an overflow is the only leak. */
  lemma ExtendKeepsConserved(s: State, f: nat, off: nat, ids: seq<nat>)
    requires Inv(s) && Conserved(s) && f in s.files && s.files[f].size < off
    requires ExtendRefused(s, f, off) || PickOK(s.pool, ids, Needed(s.files[f].size, off))
    ensures var (t, out) := Extend(s, f, off, ids);
      && (out == Leaked <==> !ExtendRefused(s, f, off) && Ceil(off) > C)
      && (out != Leaked ==> Conserved(t))
      && (out == Done ==> f in t.files && s.files[f].ids <= t.files[f].ids && |t.files[f].ids| == Ceil(off) <= C)
  {
    hide AlignUp, NoDup, Inv, ExtendWrites, OverflowWrites;
    var (t, out) := Extend(s, f, off, ids);
    assert SizedRight(s, f);
    CeilMonotone(s.files[f].size, off);
    if out != Leaked {
      forall g | g in t.files ensures SizedRight(t, g) { assert SizedRight(s, g); }
      forall b: nat | b < t.num && b !in t.pool ensures Owned(t, b) {
        if b in s.pool {
          assert b in t.files[f].ids;
        } else {
          assert Owned(s, b);
          var g :| g in s.files && b in s.files[g].ids;
          assert b in t.files[g].ids;
        }
      }
    }
  }

  /** ExtendFile succeeds exactly when nothing runs out and the file is not
      already in its last block: it refuses to grow within block number C. */
  lemma ExtendSucceedsIff(s: State, f: nat, off: nat, ids: seq<nat>)
    requires Inv(s) && Conserved(s) && f in s.files && s.files[f].size < off
    ensures Extend(s, f, off, ids).1 == Done <==>
      && off <= |s.dev| && off <= C * B && s.files[f].size <= (C - 1) * B
      && Needed(s.files[f].size, off) <= |s.pool|
      && (s.files[f].size == 0 ==> s.freeFbs != [])
  {
    hide Inv, ExtendWrites, OverflowWrites;
    assert SizedRight(s, f);
  }

  // ---------------------------------------------------------------- shrink

  lemma ShrinkIsReady(s: State, f: nat, off: nat, tail: nat)
    requires Inv(s) && f in s.files && off < s.files[f].size
    requires off % B > 0 ==> tail in s.pool
    ensures ShrinkReady(s, f, off, tail)
  {
    hide DirsOK, FdsOK, AlignUp;
    assert HasBlocks(s, f) && Indexed(s, f);
    var x := s.files[f];
    ShrinkIndexInRange(off, x.size, |x.ids|);
    assert x.ids[off / B] in x.ids;
  }

  lemma ShrinkIndexInRange(off: nat, size: nat, n: nat)
    requires off < size && Ceil(size) <= n
    ensures off / B < n
  { }

  lemma ShrinkBlocks(s: State, f: nat, off: nat, tail: nat)
    requires Inv(s) && ShrinkReady(s, f, off, tail) && !ShrinkRefused(s) && !ShrinkLeaks(s, off)
    ensures BlocksOK(ShrinkDone(s, f, off, tail))
  {
    hide DirsOK, IndexOK, FdsOK, NoDup, CopyPrefix, AlignUp, ShrinkWrites;
    var t := ShrinkDone(s, f, off, tail);
    var x := s.files[f];
    var k := off / B;
    assert HasBlocks(s, f);
    CeilIsFloorPlus(off);
    NoDupSlice(x.ids, k);
    if off % B > 0 {
      assert tail !in x.ids[..k];
      NoDupSnoc(x.ids[..k], tail);
    }
    if off > 0 {
      NoDupRotate(s.freeFbs);
      NoDupSnoc(s.freeFbs[1..], x.fb.value);
    } else {
      NoDupSnoc(s.freeFbs, x.fb.value);
    }
    BlocksFrame(s, t, f);
  }

  lemma CeilIsFloorPlus(n: nat)
    ensures Ceil(n) == n / B + (if n % B > 0 then 1 else 0)
  { }

  lemma ShrinkIndex(s: State, f: nat, off: nat, tail: nat)
    requires Inv(s) && ShrinkReady(s, f, off, tail) && !ShrinkRefused(s) && !ShrinkLeaks(s, off)
    ensures IndexOK(ShrinkDone(s, f, off, tail))
  {
    hide DirsOK, BlocksOK, FdsOK, CopyPrefix, ShrinkWrites;
    var t := ShrinkDone(s, f, off, tail);
    var x := s.files[f];
    assert Indexed(s, f);
    NoDupRotate(s.freeFhs);
    NoDupSnoc(s.freeFhs[1..], x.fh);
    forall g | g in t.files ensures Indexed(t, g) { assert Indexed(s, g) && Indexed(s, f); }
    forall h | h in t.byFh ensures FhOK(t, h) { assert h in s.byFh ==> FhOK(s, h); }
    forall n | n in t.byName ensures NameKeyOK(t, n) { assert NameKeyOK(s, n); }
    forall d, h | d in t.inDir && h in t.inDir[d] ensures ItemOK(t, d, h) { ShrinkItem(s, f, off, tail, d, h); }
  }

  lemma ShrinkItem(s: State, f: nat, off: nat, tail: nat, d: nat, h: nat)
    requires Inv(s) && ShrinkReady(s, f, off, tail) && !ShrinkRefused(s) && !ShrinkLeaks(s, off)
    requires var t := ShrinkDone(s, f, off, tail); d in t.inDir && h in t.inDir[d]
    ensures ItemOK(ShrinkDone(s, f, off, tail), d, h)
  {
    hide DirsOK, BlocksOK, FdsOK, CopyPrefix, ShrinkWrites, ShrinkLeaks;
    assert Indexed(s, f) && (h in s.inDir[d] ==> ItemOK(s, d, h) && FhOK(s, h));
  }

  lemma ShrinkKeepsInv(s: State, f: nat, off: nat, tail: nat)
    requires Inv(s) && ShrinkReady(s, f, off, tail) && !ShrinkRefused(s) && !ShrinkLeaks(s, off)
    ensures Inv(ShrinkDone(s, f, off, tail))
  {
    hide DirsOK, IndexOK, BlocksOK, FdsOK, CopyPrefix, ShrinkLeaks, ShrinkRefused, ShrinkWrites;
    var t := ShrinkDone(s, f, off, tail);
    ShrinkBlocks(s, f, off, tail);
    ShrinkIndex(s, f, off, tail);
    DirsFrame(s, t);
    FdsFrame(s, t);
  }

  /** A successful shrink ends with exactly the blocks the new size needs: the
      first `off / B` old ones and, for a partial tail, one taken from the pool;
      every other old block is in the pool afterwards. */
  lemma ShrinkKeepsConserved(s: State, f: nat, off: nat, tail: nat)
    requires Inv(s) && Conserved(s) && ShrinkReady(s, f, off, tail) && !ShrinkRefused(s) && !ShrinkLeaks(s, off)
    ensures var t := ShrinkDone(s, f, off, tail);
      && Conserved(t)
      && f in t.files && |t.files[f].ids| == Ceil(off)
      && t.files[f].ids[..off / B] == s.files[f].ids[..off / B]
      && (off % B > 0 ==> t.files[f].ids[off / B] in s.pool)
      && (forall j :: off / B <= j < |s.files[f].ids| ==> s.files[f].ids[j] in t.pool && s.files[f].ids[j] !in s.pool)
  {
    hide Inv, AlignUp, NoDup, CopyPrefix, ShrinkWrites;
    var t := ShrinkDone(s, f, off, tail);
    var x := s.files[f];
    var k := off / B;
    CeilIsFloorPlus(off);
    assert HasBlocks(s, f) by { InvHasBlocks(s, f); }
    forall j | k <= j < |x.ids| ensures x.ids[j] in t.pool && x.ids[j] !in s.pool {
      assert x.ids[j] == x.ids[k..][j - k] && x.ids[j] in x.ids;
    }
    forall g | g in t.files ensures SizedRight(t, g) { assert SizedRight(s, g); }
    forall b: nat | b < t.num && b !in t.pool ensures Owned(t, b) {
      if b in s.pool {
        assert t.files[f].ids[k] == b;
      } else {
        assert Owned(s, b);
        var g :| g in s.files && b in s.files[g].ids;
        assert g == f ==> b in x.ids[..k] by { assert x.ids == x.ids[..k] + x.ids[k..]; }
        assert b in t.files[g].ids;
      }
    }
  }

  /** Copy on truncate, in terms of blocks: the heir has exactly the blocks of its
      size, inherits the whole ones below `off`, and takes at most one block out of
      the pool; every other block the file held is free afterwards and was not
      before; no other file, descriptor or name is touched. */
  lemma CopyOnTruncate(s: State, f: nat, off: nat, tail: nat)
    requires Inv(s) && ShrinkReady(s, f, off, tail) && !ShrinkRefused(s) && !ShrinkLeaks(s, off)
    ensures var t := ShrinkDone(s, f, off, tail); var x := s.files[f]; var y := t.files[f]; var k := off / B;
      && y.size == off && |y.ids| == Ceil(off) && y.ids[..k] == x.ids[..k]
      && (off % B > 0 ==> y.ids[k] == tail && tail !in t.pool)
      && (forall j :: k <= j < |x.ids| ==> x.ids[j] in t.pool && x.ids[j] !in s.pool && x.ids[j] !in y.ids)
      && (forall b :: b in t.pool <==> (b in s.pool && b !in y.ids) || b in x.ids[k..])
      && (forall g :: g in s.files && g != f ==> g in t.files && t.files[g] == s.files[g])
      && t.open == s.open && t.byName == s.byName && t.tree == s.tree
      && y.fh != x.fh && t.byFh[y.fh] == f && x.fh !in t.byFh && x.fh in t.freeFhs
  {
    hide DirsOK, FdsOK, CopyPrefix, ShrinkWrites, AlignUp;
    var x := s.files[f];
    var k := off / B;
    CeilIsFloorPlus(off);
    assert HasBlocks(s, f) && Indexed(s, f);
    NoDupSlice(x.ids, k);
    assert s.freeFhs[0] in s.freeFhs;
    forall j | k <= j < |x.ids| ensures x.ids[j] in x.ids[k..] && x.ids[j] in x.ids {
      assert x.ids[j] == x.ids[k..][j - k];
    }
    var t := ShrinkDone(s, f, off, tail);
    assert t.freeFhs[|t.freeFhs| - 1] == x.fh;
  }

  lemma InvHasBlocks(s: State, f: nat)
    requires Inv(s) && f in s.files
    ensures HasBlocks(s, f) && Indexed(s, f) && LinksOK(s, f)
  { }

  lemma ShrinkLeakKeepsInv(s: State, f: nat, off: nat)
    requires Inv(s) && !ShrinkRefused(s) && f in s.files
    ensures Inv(ShrinkLeak(s, f, off))
  {
    hide DirsOK, IndexOK, BlocksOK, FdsOK, NoDup, LeakWrites;
    var t := ShrinkLeak(s, f, off);
    InvFreeLists(s);
    NoDupRotate(s.freeFhs);
    if s.freeFbs != [] { NoDupRotate(s.freeFbs); }
    DirsFrame(s, t);
    IndexFrame(s, t);
    BlocksSame(s, t);
    FdsFrame(s, t);
  }

  lemma InvFreeLists(s: State)
    requires Inv(s)
    ensures NoDup(s.freeFhs) && NoDup(s.freeFbs) && NoDup(s.freeFds) && NoDup(s.freeDhs)
  { }

  // ---------------------------------------------------------------- create, unlink, rename

  lemma AddFileIndex(s: State, dh: nat, name: string)
    requires Inv(s) && s.freeFhs != [] && dh in s.inDir && (dh, name) !in s.byName
    ensures IndexOK(AddFile(s, dh, name))
  {
    hide DirsOK, BlocksOK, FdsOK, AddWrites;
    var t := AddFile(s, dh, name);
    NoDupRotate(s.freeFhs);
    forall g | g in t.files ensures Indexed(t, g) { assert g in s.files ==> Indexed(s, g); }
    forall h | h in t.byFh ensures FhOK(t, h) {
      if h in s.byFh && h != s.freeFhs[0] { assert FhOK(s, h) && Indexed(s, s.byFh[h]); }
    }
    forall n | n in t.byName ensures NameKeyOK(t, n) {
      if n in s.byName { assert NameKeyOK(s, n) && Indexed(s, s.byName[n]); }
    }
    forall d, h | d in t.inDir && h in t.inDir[d] ensures ItemOK(t, d, h) { AddFileItem(s, dh, name, d, h); }
  }

  lemma AddFileItem(s: State, dh: nat, name: string, d: nat, h: nat)
    requires Inv(s) && s.freeFhs != [] && dh in s.inDir && (dh, name) !in s.byName
    requires var t := AddFile(s, dh, name); d in t.inDir && h in t.inDir[d]
    ensures ItemOK(AddFile(s, dh, name), d, h)
  {
    hide DirsOK, BlocksOK, FdsOK, AddWrites;
    NoDupRotate(s.freeFhs);
    if h in s.inDir[d] { assert ItemOK(s, d, h) && FhOK(s, h) && Indexed(s, s.byFh[h]); }
  }

  lemma AddFileBlocks(s: State, dh: nat, name: string)
    requires Inv(s) && s.freeFhs != [] && dh in s.inDir
    ensures BlocksOK(AddFile(s, dh, name)) && FdsOK(AddFile(s, dh, name))
  {
    hide TreeOK, AddWrites;
    var t := AddFile(s, dh, name);
    forall f | f in t.files && f != s.nextId ensures f in s.files && HasBlocks(t, f) && LinksOK(t, f) {
      InvHasBlocks(s, f);
    }
    forall f, g | f in t.files && g in t.files && f != g ensures FilesApart(t, f, g) {
      assert f in s.files && g in s.files ==> FilesApart(s, f, g);
    }
    forall fd | fd in t.open ensures FdOK(t, fd) && t.open[fd] != s.nextId {
      assert FdOK(s, fd) && Indexed(s, s.open[fd]);
    }
    assert Opens(t.open, s.nextId) == {};
    assert HasBlocks(t, s.nextId) && LinksOK(t, s.nextId);
  }

  lemma AddFileKeepsInv(s: State, dh: nat, name: string)
    requires Inv(s) && s.freeFhs != [] && dh in s.inDir && (dh, name) !in s.byName
    ensures Inv(AddFile(s, dh, name))
    ensures Conserved(s) ==> Conserved(AddFile(s, dh, name))
  {
    hide DirsOK, IndexOK, BlocksOK, FdsOK, AddWrites;
    var t := AddFile(s, dh, name);
    AddFileIndex(s, dh, name);
    AddFileBlocks(s, dh, name);
    DirsFrame(s, t);
    NextIdIsNew(s);
    if Conserved(s) {
      forall f | f in t.files ensures SizedRight(t, f) { assert f in s.files ==> SizedRight(s, f); }
      forall b: nat | b < t.num && b !in t.pool ensures Owned(t, b) {
        assert Owned(s, b);
        var g :| g in s.files && b in s.files[g].ids;
        assert b in t.files[g].ids;
      }
    }
  }

  lemma NextIdIsNew(s: State)
    requires Inv(s)
    ensures s.nextId !in s.files
  {
    assert s.nextId in s.files ==> Indexed(s, s.nextId);
  }

  lemma DropFileIndex(s: State, f: nat)
    requires Inv(s) && f in s.files && s.files[f].dh in s.inDir
    ensures IndexOK(DropFile(s, f))
  {
    hide DirsOK, BlocksOK, FdsOK, DropWrites;
    var t := DropFile(s, f);
    assert Indexed(s, f);
    forall g | g in t.files ensures Indexed(t, g) { assert Indexed(s, g); }
    forall h | h in t.byFh ensures FhOK(t, h) { assert FhOK(s, h); }
    forall n | n in t.byName ensures NameKeyOK(t, n) { assert NameKeyOK(s, n); }
    forall d, h | d in t.inDir && h in t.inDir[d] ensures ItemOK(t, d, h) {
      assert ItemOK(s, d, h);
      assert h != s.files[f].fh && FhOK(s, h);
    }
  }

  lemma DropFileBlocks(s: State, f: nat)
    requires Inv(s) && f in s.files && s.files[f].dh in s.inDir
    ensures BlocksOK(DropFile(s, f))
  {
    hide DirsOK, IndexOK, FdsOK, NoDup, DropWrites;
    var t := DropFile(s, f);
    var x := s.files[f];
    assert HasBlocks(s, f);
    if x.fb.Some? { NoDupSnoc(s.freeFbs, x.fb.value); }
    forall g | g in t.files ensures HasBlocks(t, g) {
      assert HasBlocks(s, g) && FilesApart(s, g, f) && FilesApart(s, f, g);
    }
    forall g, h | g in t.files && h in t.files && g != h ensures FilesApart(t, g, h) { assert FilesApart(s, g, h); }
  }

  /** Deleting a file that nobody has open returns its blocks to the pool once
      and removes it from every index. */
  lemma DropFileKeepsInv(s: State, f: nat)
    requires Inv(s) && f in s.files && s.files[f].nlink == 0
    ensures s.files[f].dh in s.inDir && Inv(DropFile(s, f))
    ensures Conserved(s) ==> Conserved(DropFile(s, f))
    ensures forall b :: b in s.files[f].ids ==> b in DropFile(s, f).pool && b !in s.pool
  {
    hide DirsOK, IndexOK, BlocksOK, FdsOK, DropWrites;
    InvHasBlocks(s, f);
    var t := DropFile(s, f);
    DropFileIndex(s, f);
    DropFileBlocks(s, f);
    DirsFrame(s, t);
    DropFileFds(s, f);
    if Conserved(s) {
      forall g | g in t.files ensures SizedRight(t, g) { assert SizedRight(s, g); }
      forall b: nat | b < t.num && b !in t.pool ensures Owned(t, b) {
        assert Owned(s, b);
        var g :| g in s.files && b in s.files[g].ids;
        assert b in t.files[g].ids;
      }
    }
  }

  lemma DropFileFds(s: State, f: nat)
    requires Inv(s) && f in s.files && s.files[f].nlink == 0 && s.files[f].dh in s.inDir
    ensures FdsOK(DropFile(s, f))
  {
    hide DirsOK, IndexOK, BlocksOK, DropWrites;
    var t := DropFile(s, f);
    assert LinksOK(s, f);
    forall fd | fd in t.open ensures FdOK(t, fd) {
      assert FdOK(s, fd);
      assert fd !in Opens(s.open, f);
    }
    forall g | g in t.files ensures LinksOK(t, g) { assert LinksOK(s, g); }
  }

  lemma MoveFileIndex(s: State, f: nat, dh: nat, name: string)
    requires Inv(s) && f in s.files && s.files[f].dh in s.inDir && dh in s.inDir
    requires (dh, name) !in s.byName || s.byName[(dh, name)] == f
    ensures IndexOK(MoveFile(s, f, dh, name))
  {
    hide DirsOK, BlocksOK, FdsOK, MoveWrites;
    var t := MoveFile(s, f, dh, name);
    assert Indexed(s, f);
    forall g | g in t.files ensures Indexed(t, g) { assert Indexed(s, g); }
    forall h | h in t.byFh ensures FhOK(t, h) { assert FhOK(s, h); }
    forall n | n in t.byName ensures NameKeyOK(t, n) { assert n in s.byName ==> NameKeyOK(s, n); }
    forall d, h | d in t.inDir && h in t.inDir[d] ensures ItemOK(t, d, h) {
      assert h in s.inDir[d] ==> ItemOK(s, d, h);
    }
  }

  lemma MoveFileOntoTaken(s: State, f: nat, dh: nat, name: string)
    requires Inv(s) && f in s.files && s.files[f].dh in s.inDir && dh in s.inDir
    requires (dh, name) in s.byName && s.byName[(dh, name)] != f
    ensures !IndexOK(MoveFile(s, f, dh, name))
  {
    hide DirsOK, BlocksOK, FdsOK, MoveWrites;
    var t := MoveFile(s, f, dh, name);
    var g := s.byName[(dh, name)];
    assert NameKeyOK(s, (dh, name));
    assert g in t.files && !Indexed(t, g);
  }

  /** A rename keeps the indexes in agreement exactly when no other file has the
      name, as it is stored, already. */
  lemma MoveFileKeepsInv(s: State, f: nat, dh: nat, name: string)
    requires Inv(s) && f in s.files && dh in s.inDir
    ensures s.files[f].dh in s.inDir
    ensures Inv(MoveFile(s, f, dh, name)) <==> (dh, name) !in s.byName || s.byName[(dh, name)] == f
    ensures Conserved(s) ==> Conserved(MoveFile(s, f, dh, name))
  {
    hide DirsOK, IndexOK, BlocksOK, FdsOK, MoveWrites;
    InvHasBlocks(s, f);
    InvFreeLists(s);
    var t := MoveFile(s, f, dh, name);
    DirsFrame(s, t);
    BlocksSame(s, t);
    FdsFrame(s, t);
    if (dh, name) in s.byName && s.byName[(dh, name)] != f {
      MoveFileOntoTaken(s, f, dh, name);
    } else {
      MoveFileIndex(s, f, dh, name);
    }
    if Conserved(s) { ConservedSame(s, t); }
  }

  lemma ConservedSame(s: State, t: State)
    requires Conserved(s) && t.files.Keys == s.files.Keys && t.num == s.num && t.pool == s.pool
    requires forall f :: f in s.files ==> SameBlocks(t.files[f], s.files[f])
    ensures Conserved(t)
  {
    forall f | f in t.files ensures SizedRight(t, f) { assert SizedRight(s, f); }
    forall b: nat | b < t.num && b !in t.pool ensures Owned(t, b) {
      assert Owned(s, b);
      var g :| g in s.files && b in s.files[g].ids;
      assert b in t.files[g].ids;
    }
  }
}
