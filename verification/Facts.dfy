/** Pure facts behind the methods of module FileSystems: the intermediate states
    of the long operations, and that the chains of small updates end in the
    state changes of module Store. */
module Facts {
  import opened Geometry
  import opened Slots
  import opened Paths
  import opened DirTree
  import opened Store
  import opened StoreProofs
  import opened Calls
  import opened CallProofs
  import opened Persist
  import opened PersistCalls

  /** BlockData of FileReader and FileWriter: `size` bytes from byte `at` of the
      caller's buffer belong at `place` on the device. */
  datatype Piece = Piece(place: nat, at: nat, size: nat)

  /** `n` bytes at `from` have been copied to `to`. */
  function Copied(dev: seq<byte>, from: nat, to: nat, n: nat): seq<byte>
    requires from + n <= |dev| && to + n <= |dev|
  {
    dev[..to] + dev[from..from + n] + dev[to + n..]
  }

  lemma CopiedNothing(dev: seq<byte>, from: nat, to: nat)
    requires from <= |dev| && to <= |dev|
    ensures Copied(dev, from, to, 0) == dev
  { }

  lemma CopiedMore(dev: seq<byte>, from: nat, to: nat, k: nat, n: nat)
    requires from + k + n <= |dev| && to + k + n <= |dev| && (from + k + n <= to || to + k + n <= from)
    ensures var d := Copied(dev, from, to, k);
      |d| == |dev| && d[..to + k] + d[from + k..from + k + n] + d[to + k + n..] == Copied(dev, from, to, k + n)
  { }

  /** What ShrinkFile may use: block `b` is on the device, the pool is not owned. */
  ghost predicate OnDevice(dev: seq<byte>, b: nat) { DATA_START + B * (b + 1) <= |dev| }

  ghost predicate CanGather(x: File, pool: set<nat>, dev: seq<byte>, offset: nat) {
    && offset / B < |x.ids| <= C
    && OnDevice(dev, x.ids[offset / B])
    && forall b :: b in pool ==> OnDevice(dev, b) && b !in x.ids
  }

  /** The new file block slot stays taken when no block is left for the tail. */
  function GatherFailed(s: State, x: File, fh: nat, offset: nat): State
    requires offset / B <= |x.ids|
  {
    if s.freeFbs == [] then s
    else s.(freeFbs := s.freeFbs[1..],
            tab := SetBlock(s.tab, s.freeFbs[0], BlockFor(s.tab, s.freeFbs[0], fh, x.ids[..offset / B])))
  }

  function HeirIds(x: File, offset: nat, tail: nat): seq<nat>
    requires offset / B <= |x.ids|
  {
    x.ids[..offset / B] + if offset % B > 0 then [tail] else []
  }

  ghost function Gathered(s: State, x: File, fh: nat, offset: nat, tail: nat): State
    requires offset / B < |x.ids| && !ShrinkLeaks(s, offset)
    requires offset % B > 0 ==> OnDevice(s.dev, x.ids[offset / B]) && OnDevice(s.dev, tail)
  {
    if offset == 0 then s
    else s.(freeFbs := s.freeFbs[1..],
            pool := s.pool - (if offset % B > 0 then {tail} else {}),
            dev := if offset % B > 0 then CopyPrefix(s.dev, x.ids[offset / B], tail, offset % B) else s.dev,
            tab := SetBlock(s.tab, s.freeFbs[0], BlockFor(s.tab, s.freeFbs[0], fh, HeirIds(x, offset, tail))))
  }

  lemma PoolSize(pool: set<nat>)
    ensures 1 <= |pool| <==> pool != {}
  { }

  lemma PickedOne(pool: set<nat>, ids: seq<nat>)
    requires PickOK(pool, ids, 1)
    ensures ids == [ids[0]] && ids[0] in pool && Elems(ids) == {ids[0]}
  { }

  lemma CopiedPrefix(dev: seq<byte>, src: nat, dst: nat, len: nat)
    requires OnDevice(dev, src) && OnDevice(dev, dst) && len <= B
    ensures Copied(dev, DATA_START + B * src + 0, DATA_START + B * dst + 0, len) == CopyPrefix(dev, src, dst, len)
  { }

  lemma BlockSet(t: Tables, u: Tables, i: nat, m: FileBlockMeta)
    requires i < |t.mem.blocks| && u == t.(mem := t.mem.(blocks := t.mem.blocks[i := m]))
    ensures u == SetBlock(t, i, m)
  { }

  lemma InheritedSlot(t: Tables, i: nat, fh: nat, ids: seq<nat>)
    requires i < |t.mem.blocks|
    ensures var u := SetBlock(t, i, BlockFor(t, i, fh, ids)); i < |u.mem.blocks| && u.mem.blocks[i].ids == ids
  { }

  lemma InheritedTail(t: Tables, i: nat, fh: nat, ids: seq<nat>, tail: nat)
    requires i < |t.mem.blocks|
    ensures var u := SetBlock(t, i, BlockFor(t, i, fh, ids));
      SetBlock(u, i, u.mem.blocks[i].(ids := ids + [tail])) == SetBlock(t, i, BlockFor(t, i, fh, ids + [tail]))
  {
    var u := SetBlock(t, i, BlockFor(t, i, fh, ids));
    assert u.mem.blocks[i := u.mem.blocks[i].(ids := ids + [tail])] ==
      t.mem.blocks[i := BlockFor(t, i, fh, ids + [tail])];
  }

  function Registered(s: State, f: nat): State
    requires f in s.files && s.files[f].dh in s.inDir
  {
    var x := s.files[f];
    var items: map<nat, nat> := s.inDir[x.dh][x.fh := f];
    s.(byFh := s.byFh[x.fh := f], byName := s.byName[Key(x) := f], inDir := s.inDir[x.dh := items])
  }

  lemma KeyIs(x: File)
    ensures Key(x) == (x.dh, x.name)
  { }

  /** The indexes once object `f` has moved to the slot of `y`. */
  function Moved(s: State, f: nat, y: File): State
    requires f in s.files && s.files[f].dh in s.inDir
  {
    var x := s.files[f];
    var items: map<nat, nat> := (s.inDir[x.dh] - {x.fh})[y.fh := f];
    s.(files := s.files[f := y], byFh := (s.byFh - {x.fh})[y.fh := f], inDir := s.inDir[x.dh := items])
  }

  function SwapWrites(t: Tables, x: File, fh: nat, fb: Option<nat>, offset: nat): Tables {
    var t1 := SetFile(t, x.fh, FileAt(t, x.fh).(child := fh));
    var t2 := WriteFile(t1, fh, FileAt(t1, fh).(size := offset));
    var t3 := if fb.None? then t2 else WriteBlock(t2, fb.value, BlockAt(t2, fb.value));
    WriteFile(t3, x.fh, FileAt(t3, x.fh))
  }

  /** ShrinkFile after its first step: a free file slot has become the heir. */
  function HeirTaken(s: State, f: nat, offset: nat): State
    requires f in s.files && s.freeFhs != []
  {
    s.(freeFhs := s.freeFhs[1..],
       tab := SetFile(s.tab, s.freeFhs[0], HeirSlot(s.tab, s.files[f], s.freeFhs[0], offset / B * B)))
  }

  lemma ShrinkFacts(s: State, f: nat, offset: nat)
    requires Inv(s) && SlotsOK(s) && f in s.files && offset < s.files[f].size
    ensures s.files[f].fb.Some? && FileShown(s.tab, s.files[f]) && BlockShown(s.tab, s.files[f]) && SameShape(s.tab)
    ensures s.files[f].fh < |s.tab.mem.files| && s.files[f].fb.value < |s.tab.mem.blocks|
    ensures CanGather(s.files[f], s.pool, s.dev, offset) && offset / B < |s.files[f].ids|
    ensures s.freeFhs != [] ==> FreeFile(s.tab, s.freeFhs[0]) && s.freeFhs[0] != s.files[f].fh
    ensures s.freeFbs != [] ==> FreeBlock(s.tab, s.freeFbs[0]) && s.files[f].fb != Some(s.freeFbs[0])
    ensures s.files[f].dh in s.inDir && Key(s.files[f]) in s.byName && s.byName[Key(s.files[f])] == f
  {
    hide DirsOK, FdsOK, AlignUp, SlotsOK;
    LiveFile(s, f);
    FreeHeads(s);
    InvHasBlocks(s, f);
    ShrinkIndexInRange(offset, s.files[f].size, |s.files[f].ids|);
    var x := s.files[f];
    assert x.ids[offset / B] in x.ids;
  }

  lemma HeirMade(s: State, f: nat, fh: nat, offset: nat)
    requires f in s.files && s.freeFhs != [] && fh == s.freeFhs[0] && fh < |s.tab.mem.files| && fh != s.files[f].fh
    requires FileShown(s.tab, s.files[f])
    ensures var x := s.files[f];
      var m := s.tab.mem.files[fh].(used := true, fh := fh, dh := x.dh, name := x.name);
      var t := SetFile(s.tab, fh, m);
      && |t.mem.files| == |s.tab.mem.files| && t.mem.files[fh] == m && t.mem.blocks == s.tab.mem.blocks
      && !t.mem.files[x.fh].isTemp
      && t.(mem := t.mem.(files := t.mem.files[fh := m.(isTemp := false, parent := x.fh, size := offset / B * B)])) ==
           HeirTaken(s, f, offset).tab
  {
    var x := s.files[f];
    var m := s.tab.mem.files[fh].(used := true, fh := fh, dh := x.dh, name := x.name);
    assert HeirSlot(s.tab, x, fh, offset / B * B) == m.(isTemp := false, parent := x.fh, size := offset / B * B);
    assert s.tab.mem.files[fh := m][fh := m.(isTemp := false, parent := x.fh, size := offset / B * B)]
        == s.tab.mem.files[fh := HeirSlot(s.tab, x, fh, offset / B * B)];
  }

  lemma LeakIs(s: State, f: nat, offset: nat)
    requires f in s.files && s.freeFhs != [] && offset / B <= |s.files[f].ids|
    ensures GatherFailed(HeirTaken(s, f, offset), s.files[f], s.freeFhs[0], offset) == ShrinkLeak(s, f, offset)
  { }

  /** ShrinkFile once its heir has all its blocks. */
  ghost function HeirFilled(s: State, f: nat, offset: nat, tail: nat): State
    requires f in s.files && s.freeFhs != [] && CanGather(s.files[f], s.pool, s.dev, offset) && !ShrinkLeaks(s, offset)
    requires offset % B > 0 ==> tail in s.pool
  {
    Gathered(HeirTaken(s, f, offset), s.files[f], s.freeFhs[0], offset, tail)
  }

  lemma GatheredSlot(s: State, f: nat, offset: nat, tail: nat)
    requires f in s.files && s.freeFhs != [] && FreeFile(s.tab, s.freeFhs[0]) && BlockShown(s.tab, s.files[f])
    requires SameShape(s.tab)
    requires s.freeFbs != [] ==> FreeBlock(s.tab, s.freeFbs[0]) && s.files[f].fb != Some(s.freeFbs[0])
    requires CanGather(s.files[f], s.pool, s.dev, offset) && !ShrinkLeaks(s, offset)
    requires (offset % B > 0 ==> tail in s.pool)
    ensures var x := s.files[f]; var u := HeirFilled(s, f, offset, tail);
      && u == s.(freeFhs := u.freeFhs, freeFbs := u.freeFbs, pool := u.pool, dev := u.dev, tab := u.tab)
      && SameShape(u.tab) && |u.tab.mem.files| == |s.tab.mem.files| && |u.tab.mem.blocks| == |s.tab.mem.blocks|
      && (offset > 0 ==> s.freeFbs != [] && u.tab.mem.blocks[s.freeFbs[0]].ids == HeirIds(x, offset, tail))
      && (x.fb.Some? ==> u.tab.mem.blocks[x.fb.value].ids == x.ids)
      && (offset == 0 ==> HeirIds(x, offset, tail) == [])
  { }

  lemma SwapShape(t: Tables, x: File, fh: nat, fb: Option<nat>, offset: nat)
    requires SameShape(t) && x.fh < |t.mem.files| && fh < |t.mem.files| && (fb.Some? ==> fb.value < |t.mem.blocks|)
    ensures var u := SwapWrites(t, x, fh, fb, offset);
      && SameShape(u) && |u.mem.files| == |t.mem.files| && |u.mem.blocks| == |t.mem.blocks|
      && forall i: nat :: i < |t.mem.blocks| && fb != Some(i) ==> u.mem.blocks[i] == t.mem.blocks[i]
  {
    hide WriteFile, WriteBlock;
    var t1 := SetFile(t, x.fh, FileAt(t, x.fh).(child := fh));
    WriteFileEffect(t1, fh, FileAt(t1, fh).(size := offset));
    var t2 := WriteFile(t1, fh, FileAt(t1, fh).(size := offset));
    if fb.Some? { WriteBlockEffect(t2, fb.value, BlockAt(t2, fb.value)); }
    var t3 := if fb.None? then t2 else WriteBlock(t2, fb.value, BlockAt(t2, fb.value));
    WriteFileEffect(t3, x.fh, FileAt(t3, x.fh));
  }

  lemma DropShape(t: Tables, x: File)
    requires SameShape(t) && x.fh < |t.mem.files| && (x.fb.Some? ==> x.fb.value < |t.mem.blocks|)
    ensures SameShape(DropWrites(t, x)) && |DropWrites(t, x).mem.files| == |t.mem.files|
  {
    hide WriteFile, WriteBlock;
    if x.fb.Some? { WriteBlockEffect(t, x.fb.value, ClearBlock(BlockAt(t, x.fb.value))); }
    var t1 := if x.fb.None? then t else WriteBlock(t, x.fb.value, ClearBlock(BlockAt(t, x.fb.value)));
    WriteFileEffect(t1, x.fh, ClearFile(FileAt(t1, x.fh)));
  }

  lemma WriteFileParts(t: Tables, h: nat, m: FileMeta)
    requires SameShape(t) && h < |t.mem.files|
    ensures var u := WriteFile(t, h, m);
      && SameShape(u) && u.mem == t.mem.(files := t.mem.files[h := SealFile(m)])
      && u.disk == t.disk.(files := FlushPage(u.mem.files, t.disk.files, h, FILES_PER_PAGE))
  { }

  lemma WriteBlockParts(t: Tables, i: nat, m: FileBlockMeta)
    requires SameShape(t) && i < |t.mem.blocks|
    ensures var u := WriteBlock(t, i, m);
      && SameShape(u) && u.mem == t.mem.(blocks := t.mem.blocks[i := SealBlock(m)])
      && u.disk == t.disk.(blocks := t.disk.blocks[i := SealBlock(m)])
  { }

  /** The child is set in memory before the heir's page goes out, so it may reach
      the device early; the write of the old slot's page makes up for that. */
  lemma EarlyChild<T>(mem: seq<T>, disk: seq<T>, g: nat, h: nat, m: T, n: T, perPage: nat)
    requires |mem| == |disk| && g < |mem| && h < |mem| && perPage > 0
    ensures FlushPage(mem[g := n], FlushPage(mem[g := m], disk, h, perPage), g, perPage)
         == FlushPage(mem[g := n], FlushPage(mem, disk, h, perPage), g, perPage)
  { }

  /** The slot writes up to the old slot's, in the source's order. */
  lemma SwapIsHeirWrites(t: Tables, x: File, y: File)
    requires SameShape(t) && x.fh < |t.mem.files| && y.fh < |t.mem.files| && x.fh != y.fh
    requires y.fb.Some? ==> y.fb.value < |t.mem.blocks|
    ensures var t0 := SetFile(t, y.fh, HeirSlot(t, x, y.fh, y.size / B * B));
      var t1 := if y.fb.None? then t0 else SetBlock(t0, y.fb.value, BlockFor(t0, y.fb.value, y.fh, y.ids));
      SwapWrites(t1, x, y.fh, y.fb, y.size) == HeirWrites(t, x, y)
  {
    hide WriteFile, WriteBlock, FlushPage;
    var t0 := SetFile(t, y.fh, HeirSlot(t, x, y.fh, y.size / B * B));
    var t1 := if y.fb.None? then t0 else SetBlock(t0, y.fb.value, BlockFor(t0, y.fb.value, y.fh, y.ids));
    var heir, child := HeirSlot(t, x, y.fh, y.size), FileAt(t, x.fh).(child := y.fh);
    var a := SetFile(t1, x.fh, FileAt(t1, x.fh).(child := y.fh));
    assert FileAt(a, y.fh).(size := y.size) == heir && FileAt(t1, x.fh).(child := y.fh) == child;
    WriteFileParts(a, y.fh, heir);
    WriteFileParts(t, y.fh, heir);
    var b, p := WriteFile(a, y.fh, heir), WriteFile(t, y.fh, heir);
    assert b.mem.files == p.mem.files[x.fh := child];
    if y.fb.Some? {
      var m := BlockFor(t, y.fb.value, y.fh, y.ids);
      assert BlockAt(b, y.fb.value) == m && BlockFor(p, y.fb.value, y.fh, y.ids) == m;
      WriteBlockParts(b, y.fb.value, m);
      WriteBlockParts(p, y.fb.value, m);
      assert t.mem.blocks[y.fb.value := m][y.fb.value := SealBlock(m)] == t.mem.blocks[y.fb.value := SealBlock(m)];
    }
    var c := if y.fb.None? then b else WriteBlock(b, y.fb.value, BlockAt(b, y.fb.value));
    var q := if y.fb.None? then p else WriteBlock(p, y.fb.value, BlockFor(p, y.fb.value, y.fh, y.ids));
    assert c.mem.files == b.mem.files && q.mem.files == p.mem.files;
    assert c.mem.blocks == q.mem.blocks && c.disk.blocks == q.disk.blocks;
    assert FileAt(c, x.fh) == child && FileAt(q, x.fh).(child := y.fh) == child;
    WriteFileParts(c, x.fh, child);
    WriteFileParts(q, x.fh, child);
    assert p.mem.files[x.fh := child][x.fh := SealFile(child)] == p.mem.files[x.fh := SealFile(child)];
    EarlyChild(p.mem.files, t.disk.files, x.fh, y.fh, child, SealFile(child), FILES_PER_PAGE);
  }

  function Recycled(s: State, x: File, offset: nat): State
    requires x.fb.Some? && offset / B <= |x.ids|
  {
    s.(pool := s.pool + Elems(x.ids[offset / B..]), freeFbs := s.freeFbs + [x.fb.value],
       freeFhs := s.freeFhs + [x.fh], tab := DropWrites(s.tab, x))
  }

  /** ShrinkFile from its filled heir to its last write. */
  function ShrinkFinished(s: State, f: nat, fh: nat, fb: Option<nat>, offset: nat): State
    requires f in s.files && s.files[f].fb.Some? && s.files[f].dh in s.inDir && offset / B <= |s.files[f].ids|
  {
    var x := s.files[f];
    var ids := if fb.Some? then BlockAt(s.tab, fb.value).ids else [];
    var v := Moved(s, f, x.(fh := fh, fb := fb, ids := ids, size := offset));
    var w := Recycled(v.(tab := SwapWrites(v.tab, x, fh, fb, offset)), x, offset);
    w.(tab := WriteFile(w.tab, fh, FileAt(w.tab, fh).(parent := -1)))
  }

  lemma MovedTab(s: State, f: nat, y: File)
    requires f in s.files && s.files[f].dh in s.inDir
    ensures Moved(s, f, y).tab == s.tab
  { }

  lemma RecycledTab(s: State, x: File, offset: nat)
    requires x.fb.Some? && offset / B <= |x.ids|
    ensures Recycled(s, x, offset).tab == DropWrites(s.tab, x)
  { }

  lemma HeirTakenFacts(s: State, f: nat, offset: nat)
    requires f in s.files && s.freeFhs != [] && (s.freeFbs != [] ==> FreeBlock(s.tab, s.freeFbs[0]))
    ensures var t := HeirTaken(s, f, offset);
      && (ShrinkLeaks(t, offset) <==> ShrinkLeaks(s, offset)) && (t.freeFbs != [] ==> FreeBlock(t.tab, t.freeFbs[0]))
      && t == s.(freeFhs := t.freeFhs, tab := t.tab)
  { }

  lemma ShrinkAssembles(s: State, f: nat, offset: nat, tail: nat)
    requires Inv(s) && SlotsOK(s) && f in s.files && offset < s.files[f].size && !ShrinkRefused(s)
    requires !ShrinkLeaks(s, offset)
    requires CanGather(s.files[f], s.pool, s.dev, offset) && (offset % B > 0 ==> tail in s.pool)
    ensures s.files[f].fb.Some? && s.files[f].dh in s.inDir && ShrinkReady(s, f, offset, tail)
    ensures var fb := if offset > 0 then Some(s.freeFbs[0]) else None;
      ShrinkFinished(HeirFilled(s, f, offset, tail), f, s.freeFhs[0], fb, offset) == ShrinkDone(s, f, offset, tail)
  {
    hide Inv, SlotsOK, WriteFile, SwapWrites, DropWrites, HeirWrites;
    ShrinkIsReady(s, f, offset, tail);
    ShrinkFacts(s, f, offset);
    GatheredSlot(s, f, offset, tail);
    SwapIsHeirWrites(s.tab, s.files[f], ShrinkDone(s, f, offset, tail).files[f]);
  }

  /** A pick that answers Truncate when it shrinks: the tail's block if there is
      one, else any block that could have been it. */
  lemma ShrinkPick(s: State, f: nat, size: nat, tail: nat, done: bool) returns (ids: seq<nat>)
    requires f in s.files && size < s.files[f].size
    requires done && size % B > 0 ==> tail in s.pool
    requires done ==> !ShrinkRefused(s) && !ShrinkLeaks(s, size) && ShrinkReady(s, f, size, tail)
    ensures TruncatePick(s, f, size, ids)
    ensures done ==> var t := if ids == [] then 0 else ids[0];
      ShrinkReady(s, f, size, t) && ShrinkDone(s, f, size, t) == ShrinkDone(s, f, size, tail)
  {
    if size % B == 0 || s.pool == {} { return []; }
    if done { return [tail]; }
    var b :| b in s.pool;
    ids := [b];
  }

  function EndOf(pieces: seq<Piece>): nat {
    if pieces == [] then 0 else pieces[|pieces| - 1].at + pieces[|pieces| - 1].size
  }

  /** Each piece starts where the one before it ends, and none goes past `size`. */
  ghost predicate Tiled(pieces: seq<Piece>, size: nat) {
    forall k :: 0 <= k < |pieces| ==>
      0 < pieces[k].size && pieces[k].at + pieces[k].size <= size && pieces[k].at == EndOf(pieces[..k])
  }

  lemma EndOfNext(pieces: seq<Piece>, i: nat)
    requires i < |pieces|
    ensures EndOf(pieces[..i + 1]) == pieces[i].at + pieces[i].size
  { }

  /** Piece `k` lies where the file's blocks are on the device. */
  ghost predicate Placed(ids: seq<nat>, offset: nat, pieces: seq<Piece>, k: nat) {
    k < |pieces| && PlacedAt(ids, offset, pieces[k])
  }

  ghost predicate PlacedAt(ids: seq<nat>, offset: nat, p: Piece) {
    forall q: nat :: offset + p.at <= q < offset + p.at + p.size ==> Addr(ids, q) == p.place + (q - offset - p.at)
  }

  lemma PieceInBlock(ids: seq<nat>, offset: nat, p: Piece, index: nat, at: nat)
    requires index < |ids| && offset + p.at == index * B + at && at + p.size <= B
    requires p.place == DATA_START + B * ids[index] + at
    ensures PlacedAt(ids, offset, p)
  { }

  lemma PieceAdded(ids: seq<nat>, offset: nat, pieces: seq<Piece>, p: Piece, index: nat, at: nat)
    requires Tiled(pieces, p.at) && p.size > 0 && p.at == EndOf(pieces) && index < |ids|
    requires forall k {:trigger Placed(ids, offset, pieces, k)} :: 0 <= k < |pieces| ==> Placed(ids, offset, pieces, k)
    requires offset + p.at == index * B + at && at + p.size <= B && p.place == DATA_START + B * ids[index] + at
    ensures Tiled(pieces + [p], p.at + p.size) && EndOf(pieces + [p]) == p.at + p.size
    ensures forall k {:trigger Placed(ids, offset, pieces + [p], k)} :: 0 <= k <= |pieces| ==>
      Placed(ids, offset, pieces + [p], k)
  {
    var q := pieces + [p];
    forall k | 0 <= k < |q| ensures 0 < q[k].size && q[k].at + q[k].size <= p.at + p.size && q[k].at == EndOf(q[..k]) {
      assert q[..k] == pieces[..k];
      assert pieces[..|pieces|] == pieces;
    }
    forall k | 0 <= k <= |pieces| ensures Placed(ids, offset, q, k) {
      if k < |pieces| { assert Placed(ids, offset, pieces, k); } else { PieceInBlock(ids, offset, p, index, at); }
    }
  }

  /** Every block of `ids` exists and is on the device. */
  ghost predicate CanReach(ids: seq<nat>, num: nat, dev: seq<byte>) {
    (forall b :: b in ids ==> b < num) && NoDup(ids) && DATA_START + num * B <= |dev|
  }

  /** A file has the blocks of its size, or none and no file block. */
  ghost predicate CanRead(s: State, f: nat)
    requires f in s.files
  {
    var x := s.files[f];
    x.fb.Some? ==>
      && CanReach(x.ids, s.num, s.dev) && Ceil(x.size) <= |x.ids|
      && x.fb.value < |s.tab.mem.blocks| && s.tab.mem.blocks[x.fb.value].ids == x.ids
  }

  lemma FileReach(s: State, f: nat)
    requires Inv(s) && SlotsOK(s) && f in s.files
    ensures CanRead(s, f)
    ensures CanReach(s.files[f].ids, s.num, s.dev) && Ceil(s.files[f].size) <= |s.files[f].ids|
    ensures s.files[f].size > 0 ==>
      && s.files[f].fb.Some? && s.files[f].fb.value < |s.tab.mem.blocks|
      && s.tab.mem.blocks[s.files[f].fb.value].ids == s.files[f].ids
  {
    LiveFile(s, f);
  }

  lemma EndsInside(offset: nat, n: nat, size: nat, blocks: nat)
    requires n > 0 && offset + n <= size && Ceil(size) <= blocks
    ensures (offset + n - 1) / B < blocks
  { }

  /** A piece's blocks exist, so the piece lies on the device. */
  lemma PieceOnDevice(ids: seq<nat>, offset: nat, p: Piece, num: nat, dev: seq<byte>)
    requires CanReach(ids, num, dev) && PlacedAt(ids, offset, p) && p.size > 0
    requires (offset + p.at + p.size - 1) / B < |ids|
    ensures p.place + p.size <= |dev|
  {
    var q := offset + p.at + p.size - 1;
    assert Addr(ids, q) == p.place + p.size - 1;
    AddrInRange(ids, q, num, |dev|);
  }

  /** What has been read is what the file's blocks hold from `offset` on. */
  ghost predicate ReadBack(got: seq<byte>, dev: seq<byte>, ids: seq<nat>, offset: nat) {
    forall j :: 0 <= j < |got| ==> got[j] == ByteAt(dev, Addr(ids, offset + j))
  }

  lemma PieceRead(ids: seq<nat>, offset: nat, p: Piece, dev: seq<byte>, before: seq<byte>, buf: seq<byte>)
    requires PlacedAt(ids, offset, p) && p.place + p.size <= |dev| && p.at + p.size == |buf| && |before| == p.at
    requires buf[..p.at] == before && buf[p.at..] == dev[p.place..p.place + p.size]
    requires ReadBack(before, dev, ids, offset)
    ensures ReadBack(buf, dev, ids, offset)
  {
    forall j | 0 <= j < |buf| ensures buf[j] == ByteAt(dev, Addr(ids, offset + j)) {
      if j < p.at {
        assert buf[j] == before[j];
      } else {
        assert buf[j] == buf[p.at..][j - p.at] == dev[p.place..p.place + p.size][j - p.at];
        assert Addr(ids, offset + j) == p.place + (j - p.at);
      }
    }
  }

  lemma PutNothing(dev: seq<byte>, ids: seq<nat>, off: nat)
    ensures Put(dev, ids, off, []) == dev
  { }

  /** A piece written as one run of bytes is the same bytes put one by one. */
  lemma {:induction false} PutPiece(dev: seq<byte>, ids: seq<nat>, off: nat, data: seq<byte>, p: Piece, m: nat)
    requires PlacedAt(ids, off, p) && m <= p.size && p.at + p.size <= |data| && p.place + p.size <= |dev|
    ensures Put(dev, ids, off, data[..p.at + m]) ==
      WithRun(Put(dev, ids, off, data[..p.at]), p.place, data[p.at..p.at + m])
    decreases m
  {
    hide WithRun, Addr, SetByte, PlacedAt;
    var d := Put(dev, ids, off, data[..p.at]);
    if m > 0 {
      PutPiece(dev, ids, off, data, p, m - 1);
      var e := Put(dev, ids, off, data[..p.at + m - 1]);
      assert data[..p.at + m][..p.at + m - 1] == data[..p.at + m - 1];
      AddrInPiece(ids, off, p, m - 1);
      assert Put(dev, ids, off, data[..p.at + m]) == SetByte(e, p.place + m - 1, data[p.at + m - 1]);
      assert data[p.at..p.at + m] == data[p.at..p.at + m - 1] + [data[p.at + m - 1]];
      RunGrows(d, p.place, data[p.at..p.at + m - 1], data[p.at + m - 1]);
    } else {
      assert data[p.at..p.at] == [];
      RunOfNothing(d, p.place);
    }
  }

  /** `d` with the bytes `run` from `at` on. */
  function WithRun(d: seq<byte>, at: nat, run: seq<byte>): seq<byte>
    requires at + |run| <= |d|
  {
    d[..at] + run + d[at + |run|..]
  }

  lemma RunOfNothing(d: seq<byte>, at: nat)
    requires at <= |d|
    ensures WithRun(d, at, []) == d
  { }

  lemma RunGrows(d: seq<byte>, at: nat, run: seq<byte>, x: byte)
    requires at + |run| < |d|
    ensures SetByte(WithRun(d, at, run), at + |run|, x) == WithRun(d, at, run + [x])
  { }

  lemma AddrInPiece(ids: seq<nat>, off: nat, p: Piece, j: nat)
    requires PlacedAt(ids, off, p) && j < p.size
    ensures Addr(ids, off + p.at + j) == p.place + j
  { }

  /** After the growth of a pwrite the file reaches to the end of the write. */
  lemma GrowsEnough(s: State, f: nat, off: nat, data: seq<byte>, ids: seq<nat>)
    requires f in s.files && data != []
    ensures var end := off + |data|; end > s.files[f].size && Extend(s, f, end, ids).1 == Done ==>
      var t := Extend(s, f, end, ids).0; f in t.files && t.files[f].size == end
  { }

  lemma CappedIdle(ids: seq<nat>)
    requires |ids| <= C
    ensures Capped(ids) == ids
  { }

  /** A slot filled in memory and then saved. */
  lemma FillThenSave(t: Tables, i: nat, m: FileBlockMeta)
    requires i < |t.mem.blocks|
    ensures var u := SetBlock(t, i, m);
      && u.disk == t.disk && u.mem.files == t.mem.files && u.mem.dirs == t.mem.dirs && |u.mem.blocks| == |t.mem.blocks|
      && u.mem.blocks[i] == m && WriteBlock(u, i, m) == WriteBlock(t, i, m)
      && (m == t.mem.blocks[i] ==> u == t)
  {
    assert m == t.mem.blocks[i] ==> t.mem.blocks[i := m] == t.mem.blocks;
  }

  lemma NeededIs(size: nat, off: nat)
    requires size < off
    ensures var left := if size % B == 0 then 0 else B - size % B;
      Needed(size, off) == if off - size <= left then 0 else AlignUp(off - size - left, B)
  { }

  lemma PickNothing(pool: set<nat>)
    ensures PickOK(pool, [], 0) && pool - Elems([]) == pool
  { }

  lemma TakenOne(pool: set<nat>, ids: seq<nat>, b: nat)
    requires NoDup(ids) && b in pool - Elems(ids)
    ensures NoDup(ids + [b]) && pool - Elems(ids + [b]) == pool - Elems(ids) - {b}
  {
    NoDupSnoc(ids, b);
    assert Elems(ids + [b]) == Elems(ids) + {b};
  }

  lemma PickSize(pool: set<nat>, ids: seq<nat>, n: nat)
    requires PickOK(pool, ids, n)
    ensures |ids| == n
  { }

  /** The slots of a live file say what its object says. */
  lemma LiveFile(s: State, f: nat)
    requires Inv(s) && SlotsOK(s) && f in s.files
    ensures SameShape(s.tab) && FileShown(s.tab, s.files[f]) && BlockShown(s.tab, s.files[f])
    ensures HoldsBlocks(s.files[f], s.num) && s.files[f].dh in s.inDir
  {
    assert Shown(s, f) && HasBlocks(s, f) && Indexed(s, f);
  }

  /** A slot taken from a free list is clean: the checks on it never fail. */
  lemma FreeHeads(s: State)
    requires Inv(s) && SlotsOK(s)
    ensures SameShape(s.tab)
    ensures s.freeFbs != [] ==> FreeBlock(s.tab, s.freeFbs[0])
    ensures s.freeFhs != [] ==> FreeFile(s.tab, s.freeFhs[0])
    ensures s.freeDhs != [] ==> FreeDir(s.tab, s.freeDhs[0])
  {
    assert s.freeFbs != [] ==> FreeBlock(s.tab, s.freeFbs[0]);
    assert s.freeFhs != [] ==> FreeFile(s.tab, s.freeFhs[0]);
    assert s.freeDhs != [] ==> FreeDir(s.tab, s.freeDhs[0]);
  }

  /** What the slot that an extension fills holds beforehand. */
  lemma ReservedSlot(s: State, f: nat)
    requires Inv(s) && SlotsOK(s) && f in s.files
    ensures ExtendSlot(s, f).Some? ==>
      ExtendSlot(s, f).value < |s.tab.mem.blocks| && s.tab.mem.blocks[ExtendSlot(s, f).value].ids == s.files[f].ids
    ensures s.files[f].size == 0 ==>
      && s.files[f].ids == [] && s.files[f].fb.None?
      && (ExtendSlot(s, f).Some? ==> !s.tab.mem.blocks[ExtendSlot(s, f).value].used)
    ensures s.files[f].size > 0 ==>
      && s.files[f].fb.Some? && ExtendSlot(s, f) == s.files[f].fb
      && s.tab.mem.blocks[s.files[f].fb.value] == BlockFor(s.tab, s.files[f].fb.value, s.files[f].fh, s.files[f].ids)
  {
    LiveFile(s, f);
    FreeHeads(s);
  }

  ghost predicate SlotMissing(s: State, f: nat)
    requires f in s.files
  {
    (s.files[f].size == 0 && s.freeFbs == []) || (s.files[f].size > 0 && |s.files[f].ids| == C)
  }

  lemma ExtendCases(s: State, f: nat, off: nat, ids: seq<nat>)
    requires f in s.files && s.files[f].size < off
    requires !ExtendRefused(s, f, off) ==> |ids| == Needed(s.files[f].size, off)
    ensures ExtendRefused(s, f, off) ==>
      Extend(s, f, off, ids) == (s.(freeFbs := ExtendGiveBack(s, f, off).freeFbs), Refused)
    ensures !ExtendRefused(s, f, off) ==>
      Extend(s, f, off, ids) ==
        if |s.files[f].ids| + |ids| > C then (ExtendOverflow(s, f, ids), Leaked) else (ExtendDone(s, f, off, ids), Done)
    ensures s.files[f].size == 0 && !ExtendRefused(s, f, off) ==> ids != []
    ensures s.files[f].ids + [] == s.files[f].ids
  {
    if s.files[f].size == 0 { GrownFromNothing(0, off); }
  }

  lemma OverflowIs(s: State, t: State, f: nat, ids: seq<nat>)
    requires f in s.files && ExtendSlot(s, f).Some?
    requires t == s.(pool := s.pool - Elems(ids), freeFbs := ExtendFree(s, f), files := t.files, tab := t.tab)
    requires t.files ==
      if s.files[f].size == 0 then s.files else s.files[f := s.files[f].(ids := Capped(s.files[f].ids + ids))]
    requires var i := ExtendSlot(s, f).value;
      t.tab == SetBlock(s.tab, i, BlockFor(s.tab, i, s.files[f].fh, Capped(s.files[f].ids + ids)))
    ensures t == ExtendOverflow(s, f, ids)
  { }

  lemma DoneIs(s: State, t: State, f: nat, off: nat, ids: seq<nat>)
    requires f in s.files && f in t.files
    requires t == s.(pool := s.pool - Elems(ids), freeFbs := ExtendFree(s, f), files := t.files, tab := t.tab)
    requires t.files == s.files[f := s.files[f].(size := off, ids := s.files[f].ids + ids, fb := ExtendSlot(s, f))]
    requires t.tab == ExtendWrites(s.tab, t.files[f], ids != [])
    ensures t == ExtendDone(s, f, off, ids)
  { }

  lemma RefusedWhen(s: State, f: nat, off: nat)
    requires f in s.files && s.files[f].size < off
    ensures ExtendRefused(s, f, off) <==> off > |s.dev| || SlotMissing(s, f) || Needed(s.files[f].size, off) > |s.pool|
  { }

  // ---------------------------------------------------------------- files by name

  lemma DirFound(s: State, path: string)
    requires Inv(s) && LookupDir(s, path).Some?
    ensures LookupDir(s, path).value in s.inDir && LookupDir(s, path).value in s.tree.names
  {
    hide IndexOK, BlocksOK, FdsOK;
    assert PathOK(s.tree, AsDir(path));
  }

  lemma FileFound(s: State, path: string)
    requires Inv(s) && |path| > 0 && LookupFile(s, path).Some?
    ensures LookupFile(s, path).value in s.files && s.files[LookupFile(s, path).value].dh in s.inDir
  {
    hide DirsOK, BlocksOK, FdsOK, LookupDir, GetDirName, GetFileName;
    var k := (LookupDir(s, GetDirName(path)).value, GetFileName(path));
    assert NameKeyOK(s, k);
    assert Indexed(s, s.byName[k]);
  }

  /** EnterNewFile's updates, in their order, are AddFile. */
  lemma AddIs(s: State, dh: nat, name: string)
    requires s.freeFhs != [] && dh in s.inDir
    ensures var fh := s.freeFhs[0];
      var t := s.(freeFhs := s.freeFhs[1..], tab := AddWrites(s.tab, fh, dh, name),
                  files := s.files[s.nextId := File(fh, dh, name, 0, None, [], 0, false)], nextId := s.nextId + 1);
      Registered(t, s.nextId) == AddFile(s, dh, name)
  {
    hide AddWrites;
  }

  lemma PoolPlusNothing(pool: set<nat>)
    ensures pool + Elems<nat>([]) == pool
  { }

  /** The blocks and the file block slot of `x` given back. */
  function BlocksDropped(s: State, x: File): State {
    s.(freeFbs := if x.fb.Some? then s.freeFbs + [x.fb.value] else s.freeFbs, pool := s.pool + Elems(x.ids),
       tab := if x.fb.None? then s.tab else WriteBlock(s.tab, x.fb.value, ClearBlock(BlockAt(s.tab, x.fb.value))))
  }

  lemma BlocksDroppedKeeps(s: State, x: File)
    ensures var t := BlocksDropped(s, x); t == s.(freeFbs := t.freeFbs, pool := t.pool, tab := t.tab)
  { }

  lemma DropIs(s: State, f: nat)
    requires f in s.files && s.files[f].dh in s.inDir && s.files[f].fh < |s.tab.mem.files|
    ensures var x := s.files[f];
      var t := BlocksDropped(s, x);
      t.(tab := WriteFile(t.tab, x.fh, ClearFile(FileAt(t.tab, x.fh))),
         byFh := t.byFh - {x.fh}, byName := t.byName - {Key(x)},
         inDir := t.inDir[x.dh := t.inDir[x.dh] - {x.fh}], files := t.files - {f}) == DropFile(s, f)
  {
    hide WriteFile, WriteBlock;
  }

  lemma CreatedIs(s: State, path: string)
    requires |path| > 0
    ensures Create(s, path).1 == Done ==> var t := Create(s, path).0; s.nextId in t.files && NextFd(t) == NextFd(s)
    ensures Create(s, path).1 != Done ==> Create(s, path) == (s, Refused)
  {
    hide LookupDir, GetDirName, GetFileName;
  }

  lemma HandleFound(s: State, f: nat)
    requires Inv(s) && f in s.files
    ensures s.files[f].fh in s.byFh && s.byFh[s.files[f].fh] == f
  {
    InvHasBlocks(s, f);
  }

  function LinkLost(s: State, f: nat): State
    requires f in s.files && s.files[f].nlink > 0 && s.files[f].dh in s.inDir
  {
    var t := s.(files := s.files[f := s.files[f].(nlink := s.files[f].nlink - 1)]);
    if t.files[f].nlink == 0 && t.files[f].deleted then DropFile(t, f) else t
  }

  /** A file can be removed before its descriptor is given back. */
  lemma CloseIs(s: State, fd: nat)
    requires fd in s.open && s.open[fd] in s.files && s.files[s.open[fd]].nlink > 0 && s.files[s.open[fd]].dh in s.inDir
    ensures Close(s, fd) == (LinkLost(s, s.open[fd]).(open := s.open - {fd}, freeFds := s.freeFds + [fd]), Done)
    ensures var t := LinkLost(s, s.open[fd]); t.open == s.open && t.freeFds == s.freeFds
  { }

  /** What the maps and slots say of a live directory. */
  lemma DirKnown(s: State, p: string)
    requires Inv(s) && SlotsOK(s) && p in s.tree.byPath
    ensures var h := s.tree.byPath[p];
      && h in s.tree.names && s.tree.names[h] == p && |p| > 0 && h in s.tree.kids && h in s.inDir
      && h < |s.tab.mem.dirs| && SameShape(s.tab)
  {
    hide IndexOK, BlocksOK, FdsOK;
    assert PathOK(s.tree, p);
    assert DirShown(s, s.tree.byPath[p]);
  }

  function WithKids(t: Tree, h: nat, kids: set<nat>): Tree {
    t.(kids := t.kids[h := kids])
  }

  /** AddDirectory2CreateNolock. */
  function Entered(t: Tree, h: nat, path: string): Tree {
    if path in t.byPath || h in t.names then t else t.(names := t.names[h := path], byPath := t.byPath[path := h])
  }

  lemma FreeDirIsNew(s: State)
    requires Inv(s) && s.freeDhs != []
    ensures s.freeDhs[0] !in s.tree.names
  { }

  lemma AddIsKids(t: Tree, h: nat, path: string)
    requires |path| > 0 && path !in t.byPath && h !in t.names
    ensures var u := if IsMountPoint(path) then t else WithKids(t, UpOf(t, path), KidsOf(t, UpOf(t, path)) + {h});
      Add(t, h, path) == Entered(WithKids(u, h, {}), h, path)
  { }

  lemma NoneCounted(dirs: set<nat>, files: map<nat, nat>)
    ensures |files| + |dirs| == 0 <==> dirs == {} && files == map[]
  { }

  lemma ElemsMore<T>(s: seq<T>, k: nat, j: nat)
    requires k <= j < |s|
    ensures Elems(s[k..j + 1]) == Elems(s[k..j]) + {s[j]}
  {
    assert s[k..j + 1] == s[k..j] + [s[j]];
  }

  /** Leaving the indexes and coming back under the new name is MoveFile. */
  lemma MoveIs(s: State, f: nat, dh: nat, name: string)
    requires f in s.files && s.files[f].dh in s.inDir && dh in s.inDir && s.files[f].fh < |s.tab.mem.files|
    requires s.files[f].fh in s.byFh && s.byFh[s.files[f].fh] == f
    ensures var x := s.files[f];
      var t := s.(byFh := s.byFh - {x.fh}, byName := s.byName - {Key(x)},
                  inDir := s.inDir[x.dh := s.inDir[x.dh] - {x.fh}],
                  files := s.files[f := x.(dh := dh, name := name)]);
      Registered(t, f).(tab := WriteFile(s.tab, x.fh, s.tab.mem.files[x.fh].(dh := dh, name := name))) ==
        MoveFile(s, f, dh, name)
  {
    hide WriteFile;
  }

  lemma RegisteredTab(s: State, f: nat)
    requires f in s.files && s.files[f].dh in s.inDir
    ensures Registered(s, f).tab == s.tab
  { }

  /** File::rename to path `to`. */
  function FileRenamed(s: State, f: nat, to: string): (State, Outcome)
    requires f in s.files && |to| > 0
  {
    var up := LookupDir(s, GetDirName(to));
    if up.None? || up.value !in s.inDir || s.files[f].dh !in s.inDir then (s, Refused)
    else (MoveFile(s, f, up.value, StoredName(GetFileName(to))), Done)
  }

  function DirMoved(s: State, h: nat, to: string): State
    requires h in s.tree.names && |s.tree.names[h]| > 0 && |to| > 0
  {
    s.(tree := Move(s.tree, h, to), tab := WriteDir(s.tab, h, DirAt(s.tab, h).(name := to)))
  }

  /** Directory::rename's updates of the tree, in their order, are Move. */
  lemma MovedKids(s: State, h: nat, to: string)
    requires h in s.tree.names && |s.tree.names[h]| > 0 && |to| > 0
    ensures var t := s.tree;
      var t1 := WithKids(t, UpOf(t, t.names[h]), KidsOf(t, UpOf(t, t.names[h])) - {h});
      var t2 := t1.(names := t1.names - {h}, byPath := t1.byPath - {t.names[h]});
      var t3 := Entered(t2, h, to);
      WithKids(t3, UpOf(t, to), KidsOf(t3, UpOf(t, to)) + {h}) == Move(t, h, to)
  {
    hide UpOf;
    assert s.tree.names - {h} + map[h := to] == s.tree.names[h := to];
    assert (s.tree.names - {h})[h := to] == s.tree.names[h := to];
  }

  function DirRenamed(s: State, from: string, to: string): State
    requires |from| > 0 && |to| > 0
  {
    var d := RenamedDir(s, from, to);
    if d.None? then s else DirMoved(s, d.value, AsDir(to))
  }

  /** Rename, taken apart into its two kinds. */
  lemma RenameIs(s: State, from: string, to: string)
    requires |from| > 0 && |to| > 0
    ensures LookupFile(s, to).Some? ==> Rename(s, from, to).0 == s
    ensures LookupFile(s, to).None? && LookupFile(s, from).Some? && LookupFile(s, from).value in s.files ==>
      Rename(s, from, to).0 == FileRenamed(s, LookupFile(s, from).value, to).0
    ensures LookupFile(s, to).None? && LookupFile(s, from).None? ==> Rename(s, from, to).0 == DirRenamed(s, from, to)
    ensures LookupDir(s, from).None? ==> DirRenamed(s, from, to) == s
  {
    hide LookupFile, LookupDir, GetDirName, GetFileName, NameClash, MoveFile;
  }

  /** So is its answer. */
  lemma AnswerIs(s: State, from: string, to: string)
    requires |from| > 0 && |to| > 0
    ensures LookupFile(s, to).Some? ==> RenameAnswer(s, from, to) == -1
    ensures LookupFile(s, to).None? && LookupFile(s, from).Some? && LookupFile(s, from).value in s.files ==>
      RenameAnswer(s, from, to) == if FileRenamed(s, LookupFile(s, from).value, to).1 == Done then 0 else -1
    ensures LookupFile(s, to).None? && LookupFile(s, from).None? ==> RenameAnswer(s, from, to) == DirAnswer(s, from, to)
    ensures LookupDir(s, from).None? ==> DirAnswer(s, from, to) == -1
  {
    hide LookupFile, LookupDir, GetDirName, GetFileName, NameClash, MoveFile;
  }

  lemma RenameValid(s: State, from: string, to: string)
    requires Inv(s) && SlotsOK(s) && |from| > 0 && |to| > 0
    ensures RenameIsSafe(s, from, to) ==> Inv(Rename(s, from, to).0) && SlotsOK(Rename(s, from, to).0)
  {
    hide Inv, SlotsOK, Rename, RenameIsSafe, Persisted, Conserved;
    if RenameIsSafe(s, from, to) {
      RenameKeeps(s, from, to);
      RenameTables(s, from, to);
    }
  }
}
