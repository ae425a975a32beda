/** The file system object: the fields that the handle classes update in place
    (lib/block_handle.*, lib/file_block_handle.*, lib/file_handle.*, lib/file.*,
    lib/dir_handle.*, lib/directory.*, lib/fd_handle.h), and the device. Every
    method is proved equal to a state change of module Calls or Store. */
module FileSystems {
  import opened Geometry
  import opened Slots
  import opened Paths
  import opened DirTree
  import opened Store
  import opened StoreProofs
  import opened Calls
  import opened CallProofs
  import opened Persist
  import opened PersistCalls
  import opened Facts
  import opened Runs
  import opened Contents
  import opened Answers
  import opened Mount
  import opened MountLoops

  class FileSystem {
    const num: nat                                 // curr_block_num
    var dev: seq<byte>                             // the raw device
    var mem: Image                                 // the slots as mapped in memory
    var disk: Image                                // the slots as they are on the device
    // DirHandle and Directory
    var freeDhs: seq<nat>
    var dirNames: map<nat, string>
    var createdDirs: map<string, nat>
    var childDirs: map<nat, set<nat>>
    var childFiles: map<nat, map<nat, nat>>
    // FileHandle, FdHandle and File
    var freeFhs: seq<nat>
    var files: map<nat, File>
    var nextId: nat
    var createdFhs: map<nat, nat>
    var createdFiles: map<(nat, string), nat>
    var openFiles: map<nat, nat>
    var freeFds: seq<nat>
    // FileBlockHandle and BlockHandle
    var freeFbhs: seq<nat>
    var blockIdPool: set<nat>

    /** The object with the fields that a mount found. */
    constructor (s: State)
      ensures View() == s
      ensures Inv(s) && SlotsOK(s) ==> Valid()
    {
      num, dev, mem, disk := s.num, s.dev, s.tab.mem, s.tab.disk;
      freeDhs, dirNames, createdDirs := s.freeDhs, s.tree.names, s.tree.byPath;
      childDirs, childFiles := s.tree.kids, s.inDir;
      freeFhs, files, nextId, createdFhs, createdFiles := s.freeFhs, s.files, s.nextId, s.byFh, s.byName;
      openFiles, freeFds, freeFbhs, blockIdPool := s.open, s.freeFds, s.freeFbs, s.pool;
    }

    ghost function Tab(): Tables reads this { Tables(mem, disk) }

    ghost function View(): State
      reads this
    {
      State(Tree(dirNames, createdDirs, childDirs), freeDhs, files, nextId, createdFhs, createdFiles, childFiles,
            freeFhs, freeFbhs, blockIdPool, num, openFiles, freeFds, dev, Tab())
    }

    ghost predicate Valid()
      reads this
    {
      Inv(View()) && SlotsOK(View())
    }

    // -------------------------------------------------------------- blocks

    /** BlockHandle::GetFreeBlockIdLock: any ids of the pool, taken one by one. */
    method GetFreeBlockId(n: nat) returns (ok: bool, ids: seq<nat>)
      modifies this`blockIdPool
      ensures ok <==> n <= |old(blockIdPool)|
      ensures ok ==> PickOK(old(blockIdPool), ids, n)
      ensures View() == old(View()).(pool := old(blockIdPool) - Elems(ids)) && (!ok ==> ids == [])
    {
      hide Elems;
      ids := [];
      PickNothing(blockIdPool);
      if |blockIdPool| < n { return false, ids; }
      while |ids| < n
        invariant |ids| <= n && NoDup(ids) && (forall b :: b in ids ==> b in old(blockIdPool))
        invariant View() == old(View()).(pool := old(blockIdPool) - Elems(ids))
        invariant |blockIdPool| == |old(blockIdPool)| - |ids|
      {
        var b := TakeOneBlock();
        TakenOne(old(blockIdPool), ids, b);
        ids := ids + [b];
      }
      ok := true;
    }

    /** The iterator's element, and its erasure. */
    method TakeOneBlock() returns (b: nat)
      requires |blockIdPool| > 0
      modifies this`blockIdPool
      ensures b in old(blockIdPool) && |blockIdPool| == |old(blockIdPool)| - 1
      ensures View() == old(View()).(pool := old(blockIdPool) - {b})
    {
      assert blockIdPool != {};
      b :| b in blockIdPool;
      blockIdPool := blockIdPool - {b};
    }

    /** BlockHandle::PutFreeBlockIdLock. */
    method PutFreeBlockId(ids: seq<nat>) returns (ok: bool)
      modifies this`blockIdPool
      ensures View() == old(View()).(pool := old(blockIdPool) + Elems(ids))
      ensures ok <==> ids != []
    {
      if ids == [] { return false; }
      for i := 0 to |ids|
        invariant blockIdPool == old(blockIdPool) + Elems(ids[..i])
      {
        ElemsMore(ids, 0, i);
        blockIdPool := blockIdPool + {ids[i]};
      }
      assert ids[..|ids|] == ids;
      ok := true;
    }

    // -------------------------------------------------------------- slot writes

    /** Setters on a file slot and File::WriteMeta: the slot is sealed and the
        page around it goes to the device. */
    method SaveFile(fh: nat, m: FileMeta)
      requires fh < |mem.files| && SameShape(Tab())
      modifies this`mem, this`disk
      ensures View() == old(View()).(tab := Tab()) && Tab() == WriteFile(old(Tab()), fh, m) && SameShape(Tab())
      ensures mem == old(mem).(files := old(mem).files[fh := SealFile(m)])
    {
      mem := mem.(files := mem.files[fh := SealFile(m)]);
      var lo := fh - fh % FILES_PER_PAGE;
      var hi := if lo + FILES_PER_PAGE < |mem.files| then lo + FILES_PER_PAGE else |mem.files|;
      disk := disk.(files := disk.files[..lo] + mem.files[lo..hi] + disk.files[hi..]);
      assert disk.files == FlushPage(mem.files, old(disk).files, fh, FILES_PER_PAGE);
    }

    /** Directory::WriteMeta. */
    method SaveDir(h: nat, m: DirMeta)
      requires h < |mem.dirs| && SameShape(Tab())
      modifies this`mem, this`disk
      ensures View() == old(View()).(tab := Tab()) && Tab() == WriteDir(old(Tab()), h, m) && SameShape(Tab())
      ensures mem == old(mem).(dirs := old(mem).dirs[h := SealDir(m)])
    {
      mem := mem.(dirs := mem.dirs[h := SealDir(m)]);
      var lo := h - h % DIRS_PER_PAGE;
      var hi := if lo + DIRS_PER_PAGE < |mem.dirs| then lo + DIRS_PER_PAGE else |mem.dirs|;
      disk := disk.(dirs := disk.dirs[..lo] + mem.dirs[lo..hi] + disk.dirs[hi..]);
      assert disk.dirs == FlushPage(mem.dirs, old(disk).dirs, h, DIRS_PER_PAGE);
    }

    /** FileBlock::WriteMeta. */
    method SaveBlock(i: nat, m: FileBlockMeta)
      requires i < |mem.blocks| && SameShape(Tab())
      modifies this`mem, this`disk
      ensures View() == old(View()).(tab := Tab()) && Tab() == WriteBlock(old(Tab()), i, m) && SameShape(Tab())
      ensures mem == old(mem).(blocks := old(mem).blocks[i := SealBlock(m)])
    {
      mem := mem.(blocks := mem.blocks[i := SealBlock(m)]);
      disk := disk.(blocks := disk.blocks[i := mem.blocks[i]]);
    }

    /** add_block_id for one id after the other, until the slot is full. */
    method AddBlockIds(i: nat, ids: seq<nat>) returns (ok: bool)
      requires i < |mem.blocks| && |mem.blocks[i].ids| <= C
      modifies this`mem
      ensures ok <==> |old(mem).blocks[i].ids| + |ids| <= C
      ensures View() == old(View()).(tab := Tab()) && disk == old(disk)
      ensures var m := old(mem).blocks[i];
        mem == old(mem).(blocks := old(mem).blocks[i := m.(ids := Capped(m.ids + ids))])
    {
      ghost var m := mem.blocks[i];
      var cursor := 0;
      assert m.ids + ids[..0] == m.ids;
      assert mem.blocks == mem.blocks[i := m.(ids := m.ids + ids[..0])];
      while cursor < |ids|
        invariant 0 <= cursor <= |ids| && |m.ids| + cursor <= C
        invariant m == old(mem).blocks[i]
        invariant |mem.blocks| == |old(mem).blocks|
        invariant mem == old(mem).(blocks := old(mem).blocks[i := m.(ids := m.ids + ids[..cursor])])
      {
        if |mem.blocks[i].ids| == C {
          assert Capped(m.ids + ids) == m.ids + ids[..cursor];
          return false;
        }
        assert m.ids + ids[..cursor] + [ids[cursor]] == m.ids + ids[..cursor + 1];
        mem := mem.(blocks := mem.blocks[i := mem.blocks[i].(ids := mem.blocks[i].ids + [ids[cursor]])]);
        cursor := cursor + 1;
      }
      assert ids[..|ids|] == ids;
      ok := true;
    }

    // -------------------------------------------------------------- growing a file

    /** FileBlockHandle::GetFileBlockLock: its assertions on the slot hold. */
    method GetFileBlock() returns (ok: bool, i: nat)
      requires freeFbhs != [] ==> FreeBlock(Tab(), freeFbhs[0])
      modifies this`freeFbhs
      ensures ok <==> old(freeFbhs) != []
      ensures !ok ==> View() == old(View())
      ensures ok ==>
        i == old(freeFbhs)[0] && FreeBlock(Tab(), i) && View() == old(View()).(freeFbs := old(freeFbhs)[1..])
    {
      if freeFbhs == [] { return false, 0; }
      i := freeFbhs[0];
      freeFbhs := freeFbhs[1..];
      assert !mem.blocks[i].used;
      assert |mem.blocks[i].ids| == 0;
      ok := true;
    }

    /** Which file block slot will take more blocks: a new one for an empty file,
        else the file's own unless it is full. */
    method TakeSlot(f: nat) returns (ok: bool, i: nat)
      requires Valid() && f in files
      modifies this`freeFbhs
      ensures ok <==> !SlotMissing(old(View()), f)
      ensures ok ==>
        ExtendSlot(old(View()), f) == Some(i) && View() == old(View()).(freeFbs := ExtendFree(old(View()), f))
      ensures !ok ==> View() == old(View())
    {
      hide Inv, SlotsOK;
      ReservedSlot(View(), f);
      FreeHeads(View());
      var x := files[f];
      i := 0;
      if x.size == 0 {
        assert x.fb.None?;
        ok, i := GetFileBlock();
        if !ok { return; }
      } else {
        assert x.fb.Some?;
        i := x.fb.value;
        if |mem.blocks[i].ids| == C { return false, i; }
      }
      ok := true;
    }

    /** ExtendFile up to the point where its blocks are found, and what is given
        back when they are not. */
    method Reserve(f: nat, offset: nat) returns (ok: bool, i: nat, ids: seq<nat>)
      requires Valid() && f in files && files[f].size < offset
      modifies this`freeFbhs, this`blockIdPool
      ensures ok <==> !ExtendRefused(old(View()), f, offset)
      ensures !ok ==> View() == old(View()).(freeFbs := ExtendGiveBack(old(View()), f, offset).freeFbs)
      ensures ok ==>
        PickOK(old(blockIdPool), ids, Needed(files[f].size, offset)) && |ids| == Needed(files[f].size, offset)
      ensures ok ==> ExtendSlot(old(View()), f) == Some(i)
      ensures ok ==>
        View() == old(View()).(freeFbs := ExtendFree(old(View()), f), pool := old(blockIdPool) - Elems(ids))
    {
      hide Inv, SlotsOK, Conserved, Persisted, AlignUp, PickOK, Needed, Elems;
      ids, i := [], 0;
      var size := files[f].size;
      RefusedWhen(View(), f, offset);
      if offset > |dev| { return false, i, ids; }
      var left := if size % B == 0 then 0 else B - size % B;
      var need := if offset - size <= left then 0 else AlignUp(offset - size - left, B);
      NeededIs(size, offset);
      ok, i := TakeSlot(f);
      if !ok { return false, i, ids; }
      PickNothing(blockIdPool);
      if need > 0 {
        ok, ids := GetFreeBlockId(need);
        if !ok {
          if size == 0 { freeFbhs := freeFbhs + [i]; }
          PickNothing(old(blockIdPool));
          return false, i, ids;
        }
        PickSize(old(blockIdPool), ids, need);
      }
    }

    /** The file block slot of an extension is claimed and filled in memory. */
    method FillSlot(x: File, i: nat, ids: seq<nat>) returns (ok: bool)
      requires i < |mem.blocks| && x.fh < |mem.files| && !mem.files[x.fh].isTemp && |x.ids| <= C
      requires mem.blocks[i] == (if x.size > 0 then BlockFor(Tab(), i, x.fh, x.ids) else mem.blocks[i].(ids := x.ids))
      modifies this`mem
      ensures ok <==> |x.ids| + |ids| <= C
      ensures View() == old(View()).(tab := SetBlock(old(Tab()), i, BlockFor(old(Tab()), i, x.fh, Capped(x.ids + ids))))
    {
      if x.size == 0 {
        mem := mem.(blocks := mem.blocks[i := mem.blocks[i].(used := true, cut := 0, fh := x.fh,
          isTemp := mem.files[x.fh].isTemp)]);
      }
      ok := AddBlockIds(i, ids);
    }

    /** The end of ExtendFile: the file block slot is written if it grew, and
        after it the file slot with the new size. `t` are the slots before. */
    method CommitExtension(f: nat, i: nat, offset: nat, grown: bool, ghost t: Tables)
      requires f in files && i < |t.mem.blocks| && files[f].fh < |t.mem.files| && SameShape(t)
      requires i < |mem.blocks| && Tab() == SetBlock(t, i, BlockFor(t, i, files[f].fh, mem.blocks[i].ids))
      requires !grown ==> Tab() == t && files[f].fb == Some(i)
      modifies this`mem, this`disk, this`files
      ensures var y := old(files)[f].(fb := Some(i), ids := old(mem).blocks[i].ids, size := offset);
        View() == old(View()).(files := old(files)[f := y], tab := ExtendWrites(t, y, grown))
    {
      hide BlockFor, BlockAt, WriteFile, WriteBlock;
      var x := files[f];
      var newIds := mem.blocks[i].ids;
      FillThenSave(t, i, BlockFor(t, i, x.fh, newIds));
      if grown {
        SaveBlock(i, mem.blocks[i]);
      }
      files := files[f := x.(fb := Some(i), ids := newIds, size := offset)];
      SaveFile(x.fh, mem.files[x.fh].(size := offset));
    }

    /** ExtendFile from the point where its blocks are found. */
    method PlaceBlocks(f: nat, i: nat, offset: nat, ids: seq<nat>) returns (ok: bool)
      requires f in files && i < |mem.blocks| && files[f].fh < |mem.files| && !mem.files[files[f].fh].isTemp
      requires SameShape(Tab())
      requires |files[f].ids| <= C && (files[f].size == 0 ==> ids != [])
      requires (files[f].size > 0 ==> files[f].fb == Some(i))
      requires mem.blocks[i] ==
        if files[f].size > 0 then BlockFor(Tab(), i, files[f].fh, files[f].ids)
        else mem.blocks[i].(ids := files[f].ids)
      modifies this`mem, this`disk, this`files
      ensures ok <==> |old(files)[f].ids| + |ids| <= C
      ensures ok ==> var y := old(files)[f].(fb := Some(i), ids := old(files)[f].ids + ids, size := offset);
        View() == old(View()).(files := old(files)[f := y], tab := ExtendWrites(old(Tab()), y, ids != []))
      ensures !ok ==> var x := old(files)[f]; var full := Capped(x.ids + ids);
        View() == old(View()).(files := if x.size == 0 then old(files) else old(files)[f := x.(ids := full)],
                               tab := SetBlock(old(Tab()), i, BlockFor(old(Tab()), i, x.fh, full)))
    {
      hide SetBlock, BlockAt, Capped, ExtendWrites;
      ghost var t := Tab();
      var x := files[f];
      ok := FillSlot(x, i, ids);
      FillThenSave(t, i, BlockFor(t, i, x.fh, Capped(x.ids + ids)));
      if !ok {
        if x.size > 0 { files := files[f := x.(ids := mem.blocks[i].ids)]; }
        return;
      }
      CappedIdle(x.ids + ids);
      assert x.ids + [] == x.ids;
      CommitExtension(f, i, offset, |ids| > 0, t);
    }

    /** File::ExtendFile. */
    method ExtendFile(f: nat, offset: nat) returns (r: int, ghost ids: seq<nat>)
      requires Valid() && f in files && files[f].size < offset
      modifies this
      ensures ExtendRefused(old(View()), f, offset) || PickOK(old(blockIdPool), ids, Needed(old(files)[f].size, offset))
      ensures View() == Extend(old(View()), f, offset, ids).0
      ensures r == (if Extend(old(View()), f, offset, ids).1 == Done then 0 else -1)
      ensures Valid()
    {
      hide Inv, SlotsOK, Conserved, Persisted, AlignUp, PickOK, Extend, ExtendDone, ExtendOverflow, ExtendRefused,
           ExtendGiveBack, Needed, ExtendSlot, ExtendFree, ExtendWrites, SetBlock, BlockAt, Capped, Elems;
      ghost var s := View();
      LiveFile(s, f);
      ReservedSlot(s, f);
      var ok, i, newIds := Reserve(f, offset);
      ids := newIds;
      ExtendKeepsInv(s, f, offset, ids);
      ExtendTables(s, f, offset, ids);
      ExtendCases(s, f, offset, ids);
      if !ok { return -1, ids; }
      ok := PlaceBlocks(f, i, offset, newIds);
      if ok { DoneIs(s, View(), f, offset, ids); } else { OverflowIs(s, View(), f, ids); }
      r := if ok then 0 else -1;
    }

    // -------------------------------------------------------------- shrinking a file

    /** File::CopyData: `len` bytes at `offset` of block `src` go to the same
        place in block `dst`, through a buffer of at most 4M. */
    method CopyData(src: nat, dst: nat, offset: nat, len: nat)
      requires src != dst && offset + len <= B
      requires DATA_START + B * (src + 1) <= |dev| && DATA_START + B * (dst + 1) <= |dev|
      modifies this`dev
      ensures View() == old(View()).(
        dev := Copied(old(dev), DATA_START + B * src + offset, DATA_START + B * dst + offset, len))
    {
      hide Copied;
      var left, at := len, offset;
      ghost var from, to := DATA_START + B * src + offset, DATA_START + B * dst + offset;
      CopiedNothing(dev, from, to);
      while left > 0
        invariant 0 <= left <= len && at == offset + (len - left)
        invariant |dev| == |old(dev)| && dev == Copied(old(dev), from, to, len - left)
      {
        var n := if left < 4194304 then left else 4194304;
        var source := DATA_START + B * src + at;
        var buffer := dev[source..source + n];
        var target := DATA_START + B * dst + at;
        CopiedMore(old(dev), from, to, len - left, n);
        dev := dev[..target] + buffer + dev[target + n..];
        left := left - n;
        at := at + n;
      }
    }

    /** FileHandle::NewFreeFileMeta: its test of the slot never fails. */
    method NewFreeFileMeta(x: File) returns (ok: bool, fh: nat)
      requires freeFhs != [] ==> FreeFile(Tab(), freeFhs[0])
      modifies this`freeFhs, this`mem
      ensures ok <==> old(freeFhs) != []
      ensures !ok ==> View() == old(View())
      ensures ok ==> fh == old(freeFhs)[0] && fh < |old(mem).files|
      ensures ok ==> View() == old(View()).(freeFhs := old(freeFhs)[1..],
        tab := SetFile(old(Tab()), fh, old(mem).files[fh].(used := true, fh := fh, dh := x.dh, name := x.name)))
      ensures ok ==> FreeFile(old(Tab()), fh)
    {
      if freeFhs == [] { return false, 0; }
      fh := freeFhs[0];
      assert !mem.files[fh].used && mem.files[fh].fh == fh && mem.files[fh].size == 0;
      mem := mem.(files := mem.files[fh := mem.files[fh].(used := true, fh := fh, dh := x.dh, name := x.name)]);
      freeFhs := freeFhs[1..];
      ok := true;
    }

    /** The loop of ShrinkFile that hands the first `k` ids on. */
    method InheritIds(i: nat, ids: seq<nat>, k: nat)
      requires i < |mem.blocks| && mem.blocks[i].ids == [] && k <= |ids| <= C
      modifies this`mem
      ensures View() == old(View()).(tab := Tab()) && disk == old(disk)
      ensures mem == old(mem).(blocks := old(mem).blocks[i := old(mem).blocks[i].(ids := ids[..k])])
    {
      ghost var m := mem.blocks[i];
      assert mem.blocks == mem.blocks[i := m.(ids := ids[..0])];
      if k == 0 { return; }
      var copied := 0;
      while true
        invariant copied < k && m == old(mem).blocks[i]
        invariant |mem.blocks| == |old(mem).blocks|
        invariant mem == old(mem).(blocks := old(mem).blocks[i := m.(ids := ids[..copied])])
        decreases k - copied
      {
        assert ids[..copied] + [ids[copied]] == ids[..copied + 1];
        mem := mem.(blocks := mem.blocks[i := mem.blocks[i].(ids := mem.blocks[i].ids + [ids[copied]])]);
        copied := copied + 1;
        if copied == k { break; }
      }
    }

    /** ShrinkFile: the heir's file block slot starts with the first `k` ids. */
    method InheritBlocks(x: File, fh: nat, k: nat) returns (ok: bool, i: nat)
      requires freeFbhs != [] ==> FreeBlock(Tab(), freeFbhs[0])
      requires k <= |x.ids| <= C
      modifies this`freeFbhs, this`mem
      ensures ok <==> old(freeFbhs) != []
      ensures !ok ==> View() == old(View())
      ensures ok ==>
        i == old(freeFbhs)[0] && i < |old(mem).blocks| && View() == old(View()).(freeFbs := old(freeFbhs)[1..],
        tab := SetBlock(old(Tab()), i, BlockFor(old(Tab()), i, fh, x.ids[..k])))
    {
      ok, i := GetFileBlock();
      if !ok { return; }
      mem := mem.(blocks := mem.blocks[i := mem.blocks[i].(used := true, cut := 0, fh := fh, isTemp := false)]);
      InheritIds(i, x.ids, k);
    }

    /** ShrinkFile: a fresh block takes over `rest` bytes of block `src`. */
    method AddTail(i: nat, src: nat, rest: nat) returns (ok: bool, tail: nat)
      requires i < |mem.blocks| && |mem.blocks[i].ids| < C && rest <= B && OnDevice(dev, src)
      requires forall b :: b in blockIdPool ==> OnDevice(dev, b) && b != src
      modifies this`mem, this`blockIdPool, this`dev
      ensures ok <==> old(blockIdPool) != {}
      ensures !ok ==> View() == old(View())
      ensures ok ==> tail in old(blockIdPool) && OnDevice(old(dev), tail)
      ensures ok ==>
        View() == old(View()).(pool := old(blockIdPool) - {tail}, dev := CopyPrefix(old(dev), src, tail, rest),
        tab := SetBlock(old(Tab()), i, old(mem).blocks[i].(ids := old(mem).blocks[i].ids + [tail])))
    {
      hide SetBlock, PickOK, Elems, Capped, Copied, CopyPrefix;
      var ids: seq<nat>;
      ok, ids := GetFreeBlockId(1);
      PoolSize(old(blockIdPool));
      if !ok {
        PickNothing(old(blockIdPool));
        return false, 0;
      }
      PickedOne(old(blockIdPool), ids);
      tail := ids[0];
      CopiedPrefix(dev, src, tail, rest);
      CopyData(src, ids[0], 0, rest);
      ghost var t := Tab();
      ok := AddBlockIds(i, ids);
      CappedIdle(t.mem.blocks[i].ids + ids);
      BlockSet(t, Tab(), i, t.mem.blocks[i].(ids := t.mem.blocks[i].ids + [tail]));
    }

    /** ShrinkFile: the heir's blocks are the whole blocks below `offset` and, for
        a partial tail, a fresh block with a copy of it. */
    method GatherBlocks(x: File, fh: nat, offset: nat) returns (ok: bool, fb: Option<nat>, ghost tail: nat)
      requires freeFbhs != [] ==> FreeBlock(Tab(), freeFbhs[0])
      requires CanGather(x, blockIdPool, dev, offset)
      modifies this`freeFbhs, this`mem, this`blockIdPool, this`dev
      ensures ok <==> !ShrinkLeaks(old(View()), offset)
      ensures !ok ==> View() == GatherFailed(old(View()), x, fh, offset)
      ensures ok ==> offset % B > 0 ==> tail in old(blockIdPool) && OnDevice(old(dev), tail)
      ensures ok ==> fb == (if offset > 0 then Some(old(freeFbhs)[0]) else None)
      ensures ok ==> View() == Gathered(old(View()), x, fh, offset, tail)
    {
      hide BlockFor, SetBlock, OnDevice;
      var k, rest := offset / B, offset % B;
      ok, fb, tail := true, None, 0;
      if k % C > 0 || rest > 0 {
        var i, spare := 0, 0;
        ok, i := InheritBlocks(x, fh, k);
        if !ok { return; }
        fb := Some(i);
        InheritedSlot(old(Tab()), i, fh, x.ids[..k]);
        if rest > 0 {
          ok, spare := AddTail(i, x.ids[k % C], rest);
          tail := spare;
          InheritedTail(old(Tab()), i, fh, x.ids[..k], spare);
        }
        assert x.ids[..k] + [] == x.ids[..k];
      }
    }

    /** ShrinkFile: the object leaves its old slot for the heir's in every index. */
    method MoveToSlot(f: nat, y: File)
      requires f in files && files[f].dh in childFiles && Key(y) == Key(files[f])
      requires Key(y) in createdFiles && createdFiles[Key(y)] == f
      modifies this`files, this`createdFhs, this`createdFiles, this`childFiles
      ensures View() == Moved(old(View()), f, y)
    {
      hide Key;
      assert Key(y) == (y.dh, y.name) && Key(files[f]) == (files[f].dh, files[f].name) by { KeyIs(y); KeyIs(files[f]); }
      Deregister(f);
      files := files[f := y];
      Register(f);
      assert createdFiles == old(createdFiles);
    }

    /** ShrinkFile: the old slot points to the heir; the heir is saved, then its
        blocks, then the old slot. */
    method SaveSwap(x: File, fh: nat, fb: Option<nat>, offset: nat)
      requires x.fh < |mem.files| && fh < |mem.files| && SameShape(Tab()) && (fb.Some? ==> fb.value < |mem.blocks|)
      modifies this`mem, this`disk
      ensures View() == old(View()).(tab := SwapWrites(old(Tab()), x, fh, fb, offset))
    {
      hide WriteFile, WriteBlock;
      mem := mem.(files := mem.files[x.fh := mem.files[x.fh].(child := fh)]);
      SaveFile(fh, mem.files[fh].(size := offset));
      if fb.Some? { SaveBlock(fb.value, mem.blocks[fb.value]); }
      SaveFile(x.fh, mem.files[x.fh]);
    }

    /** FileHandle::RemoveFileFromoDirectory. */
    method Deregister(f: nat)
      requires f in files && files[f].dh in childFiles
      modifies this`createdFhs, this`createdFiles, this`childFiles
      ensures View() == old(View()).(byFh := old(createdFhs) - {files[f].fh},
        byName := old(createdFiles) - {Key(files[f])},
        inDir := old(childFiles)[files[f].dh := old(childFiles)[files[f].dh] - {files[f].fh}])
    {
      var x := files[f];
      childFiles := childFiles[x.dh := childFiles[x.dh] - {x.fh}];
      createdFiles := createdFiles - {Key(x)};
      createdFhs := createdFhs - {x.fh};
    }

    /** FileHandle::AddFileToDirectory. */
    method Register(f: nat)
      requires f in files && files[f].dh in childFiles
      modifies this`createdFhs, this`createdFiles, this`childFiles
      ensures View() == Registered(old(View()), f)
    {
      var x := files[f];
      var items: map<nat, nat> := childFiles[x.dh][x.fh := f];
      childFiles := childFiles[x.dh := items];
      createdFhs := createdFhs[x.fh := f];
      createdFiles := createdFiles[Key(x) := f];
    }

    /** ParentFile::Recycle: the blocks that no heir has are freed one by one,
        then the file block slot and the file slot. */
    method Recycle(x: File, offset: nat)
      requires x.fb.Some? && x.fb.value < |mem.blocks| && x.fh < |mem.files| && SameShape(Tab())
      requires mem.blocks[x.fb.value].ids == x.ids && offset / B <= |x.ids|
      modifies this`mem, this`disk, this`blockIdPool, this`freeFbhs, this`freeFhs
      ensures View() == Recycled(old(View()), x, offset)
    {
      hide WriteFile, WriteBlock;
      FreeAfter(x.fb.value, offset / B);
      SaveBlock(x.fb.value, ClearBlock(mem.blocks[x.fb.value]));
      freeFbhs := freeFbhs + [x.fb.value];
      SaveFile(x.fh, ClearFile(mem.files[x.fh]));
      freeFhs := freeFhs + [x.fh];
    }

    /** PutFreeBlockIdLock for one id. */
    method PutOneBlock(id: nat)
      modifies this`blockIdPool
      ensures View() == old(View()).(pool := old(blockIdPool) + {id})
    {
      blockIdPool := blockIdPool + {id};
    }

    /** The loop of Recycle: the first `k` ids of slot `i` are skipped. */
    method FreeAfter(i: nat, k: nat)
      requires i < |mem.blocks| && k <= |mem.blocks[i].ids|
      modifies this`blockIdPool
      ensures View() == old(View()).(pool := old(blockIdPool) + Elems(mem.blocks[i].ids[k..]))
    {
      hide Elems;
      var ids := mem.blocks[i].ids;
      var skipped, j := 0, 0;
      PoolPlusNothing(blockIdPool);
      while j < |ids|
        invariant j <= |ids| && skipped == if j < k then j else k
        invariant View() == old(View()).(pool := old(blockIdPool) + Elems(ids[skipped..j]))
      {
        if skipped < k {
          skipped := skipped + 1;
          assert ids[j + 1..j + 1] == ids[j..j];
        } else {
          ElemsMore(ids, k, j);
          PutOneBlock(ids[j]);
        }
        j := j + 1;
      }
      assert ids[k..|ids|] == ids[k..];
    }

    /** ShrinkFile: a free file slot becomes the heir. */
    method TakeHeir(f: nat, offset: nat) returns (ok: bool, fh: nat)
      requires f in files && FileShown(Tab(), files[f])
      requires (freeFhs != [] ==> FreeFile(Tab(), freeFhs[0]) && freeFhs[0] != files[f].fh)
      modifies this`freeFhs, this`mem
      ensures ok <==> !ShrinkRefused(old(View()))
      ensures !ok ==> View() == old(View())
      ensures ok ==> fh == old(freeFhs)[0] && View() == HeirTaken(old(View()), f, offset)
    {
      hide SetFile;
      ghost var s := View();
      var x := files[f];
      ok, fh := NewFreeFileMeta(x);
      if !ok { return; }
      HeirMade(s, f, fh, offset);
      mem := mem.(files := mem.files[fh := mem.files[fh].(isTemp := mem.files[x.fh].isTemp, parent := x.fh,
        size := offset / B * B)]);
    }

    /** ShrinkFile once the heir has its blocks, and RecycleParentFh. */
    method FinishShrink(f: nat, fh: nat, fb: Option<nat>, offset: nat)
      requires f in files && files[f].dh in childFiles && Key(files[f]) in createdFiles
      requires createdFiles[Key(files[f])] == f
      requires SameShape(Tab()) && files[f].fh < |mem.files| && fh < |mem.files| && offset / B <= |files[f].ids|
      requires files[f].fb.Some? && files[f].fb.value < |mem.blocks|
      requires mem.blocks[files[f].fb.value].ids == files[f].ids
      requires fb.Some? ==> fb.value < |mem.blocks| && fb != files[f].fb
      modifies this
      ensures View() == ShrinkFinished(old(View()), f, fh, fb, offset)
    {
      hide Moved, Recycled, WriteFile, DropWrites, SwapWrites;
      var x := files[f];
      var y := x.(fh := fh, fb := fb, ids := if fb.Some? then mem.blocks[fb.value].ids else [], size := offset);
      MoveToSlot(f, y);
      MovedTab(old(View()), f, y);
      SwapShape(Tab(), x, fh, fb, offset);
      SaveSwap(x, fh, fb, offset);
      DropShape(Tab(), x);
      RecycledTab(View(), x, offset);
      Recycle(x, offset);
      SaveFile(fh, mem.files[fh].(parent := -1));
    }

    /** File::ShrinkFile. */
    method ShrinkFile(f: nat, offset: nat) returns (r: int, ghost tail: nat)
      requires Valid() && f in files && offset < files[f].size
      modifies this
      ensures ShrinkRefused(old(View())) ==> r == -1 && View() == old(View())
      ensures !ShrinkRefused(old(View())) && ShrinkLeaks(old(View()), offset) ==>
        r == -1 && View() == ShrinkLeak(old(View()), f, offset)
      ensures !ShrinkRefused(old(View())) && !ShrinkLeaks(old(View()), offset) ==>
        r == 0 && ShrinkReady(old(View()), f, offset, tail) && View() == ShrinkDone(old(View()), f, offset, tail)
      ensures offset % B > 0 && r == 0 ==> tail in old(blockIdPool)
    {
      hide Inv, SlotsOK, Conserved, Persisted, ShrinkReady, ShrinkDone, ShrinkLeak, ShrinkLeaks, Gathered,
           GatherFailed, ShrinkFinished, CanGather, HeirIds, SetFile, FileShown, BlockShown;
      ghost var s := View();
      tail := 0;
      ShrinkFacts(s, f, offset);
      var x := files[f];
      var ok, fh := TakeHeir(f, offset);
      if !ok { return -1, tail; }
      HeirTakenFacts(s, f, offset);
      var fb: Option<nat>;
      ok, fb, tail := GatherBlocks(x, fh, offset);
      if !ok {
        LeakIs(s, f, offset);
        return -1, tail;
      }
      GatheredSlot(s, f, offset, tail);
      FinishShrink(f, fh, fb, offset);
      ShrinkAssembles(s, f, offset, tail);
      r := 0;
    }

    /** File::ftruncate. */
    method Ftruncate(f: nat, size: nat) returns (r: int, ghost ids: seq<nat>)
      requires Valid() && f in files
      modifies this
      ensures TruncatePick(old(View()), f, size, ids)
      ensures View() == Truncate(old(View()), f, size, ids).0
      ensures r == (if Truncate(old(View()), f, size, ids).1 == Done then 0 else -1)
      ensures Valid()
    {
      hide Inv, SlotsOK, Conserved, Persisted, Extend, ShrinkReady, ShrinkDone, ShrinkLeak, ShrinkLeaks, PickOK,
           ExtendRefused, Needed;
      ghost var s := View();
      ids := [];
      if size > files[f].size {
        r, ids := ExtendFile(f, size);
      } else if size < files[f].size {
        ghost var tail: nat;
        r, tail := ShrinkFile(f, size);
        ids := ShrinkPick(s, f, size, tail, r == 0);
      } else {
        r := 0;
      }
      TruncateKeeps(s, f, size, ids);
      TruncateTables(s, f, size, ids);
    }

    // -------------------------------------------------------------- reading and writing

    /** The first loop of ReadData and of WriteData: the range is cut at the
        borders of its blocks and each piece gets its place on the device. */
    static method CutAtBlocks(ids: seq<nat>, offset: nat, size: nat) returns (pieces: seq<Piece>)
      requires size > 0 && (offset + size - 1) / B < |ids|
      ensures Tiled(pieces, size) && EndOf(pieces) == size
      ensures forall k {:trigger Placed(ids, offset, pieces, k)} :: 0 <= k < |pieces| ==> Placed(ids, offset, pieces, k)
    {
      var count, index, skip := 0, offset / B, offset % B;
      pieces := [];
      while true
        invariant 0 <= count < size && EndOf(pieces) == count && Tiled(pieces, count)
        invariant skip > 0 ==> count == 0 && skip == offset % B && index == offset / B
        invariant skip > 0 || offset + count == index * B
        invariant forall k {:trigger Placed(ids, offset, pieces, k)} :: 0 <= k < |pieces| ==>
          Placed(ids, offset, pieces, k)
        decreases size - count
      {
        assert (offset + count) / B == index;
        var id := ids[index];
        var at, n;
        if skip > 0 {
          at := skip;
          n := if size < B - skip then size else B - skip;
          skip := 0;
        } else {
          at := 0;
          n := if size - count < B then size - count else B;
        }
        ghost var before := pieces;
        pieces := pieces + [Piece(DATA_START + B * id + at, count, n)];
        PieceAdded(ids, offset, before, Piece(DATA_START + B * id + at, count, n), index, at);
        count := count + n;
        if count >= size { break; }
        index := index + 1;
      }
    }

    /** FileReader::ReadData, with every transfer complete. A file that lost its file
        block in a crash during its removal answers -1. */
    method ReadData(fb: Option<nat>, buf: array<byte>, size: nat, offset: nat) returns (n: int)
      requires 0 < size <= buf.Length && (fb.Some? ==> fb.value < |mem.blocks|)
      requires fb.Some? ==>
        var ids := mem.blocks[fb.value].ids; (offset + size - 1) / B < |ids| && CanReach(ids, num, dev)
      modifies buf
      ensures fb.None? ==> n == -1 && buf[..] == old(buf[..])
      ensures fb.Some? ==>
        n == size && buf[size..] == old(buf[size..]) && ReadBack(buf[..size], dev, mem.blocks[fb.value].ids, offset)
    {
      hide CanReach, PlacedAt, ByteAt;
      if fb.None? { return -1; }
      var ids := mem.blocks[fb.value].ids;
      n := 0;
      var pieces := CutAtBlocks(ids, offset, size);
      for i := 0 to |pieces|
        invariant n == EndOf(pieces[..i]) && n <= size
        invariant ReadBack(buf[..n], dev, ids, offset)
        invariant buf[size..] == old(buf[size..])
      {
        var p := pieces[i];
        assert Placed(ids, offset, pieces, i);
        PieceOnDevice(ids, offset, p, num, dev);
        ghost var before := buf[..n];
        ReadPiece(p, buf);
        PieceRead(ids, offset, p, dev, before, buf[..n + p.size]);
        EndOfNext(pieces, i);
        n := n + p.size;
      }
      assert pieces[..|pieces|] == pieces;
    }

    /** ReadBlockData. */
    method ReadPiece(p: Piece, buf: array<byte>)
      requires p.place + p.size <= |dev| && p.at + p.size <= buf.Length
      modifies buf
      ensures buf[..p.at] == old(buf[..p.at]) && buf[p.at + p.size..] == old(buf[p.at + p.size..])
      ensures buf[p.at..p.at + p.size] == dev[p.place..p.place + p.size]
    {
      forall j | 0 <= j < p.size {
        buf[p.at + j] := dev[p.place + j];
      }
    }

    /** OpenFile::pread: the bytes go to the front of `buf`. */
    method PreadFile(f: nat, buf: array<byte>, size: nat, offset: nat) returns (n: int)
      requires f in files && size <= buf.Length && CanRead(View(), f)
      modifies buf
      ensures files[f].fb.None? && size > 0 && offset < files[f].size ==> n == -1 && buf[..] == old(buf[..])
      ensures files[f].fb.Some? || size == 0 || offset >= files[f].size ==>
        0 <= n <= buf.Length && buf[..n] == Pread(View(), f, size, offset) && buf[n..] == old(buf[n..])
    {
      hide Addr, AlignUp, CanReach;
      n := 0;
      if size == 0 || offset >= files[f].size { return 0; }
      var x := files[f];
      var need := if offset + size > x.size then x.size - offset else size;
      if x.fb.Some? { EndsInside(offset, need, x.size, |x.ids|); }
      n := ReadData(x.fb, buf, need, offset);
    }

    /** WriteBlockData. */
    method WritePiece(p: Piece, buf: array<byte>)
      requires p.place + p.size <= |dev| && p.at + p.size <= buf.Length
      modifies this`dev
      ensures View() == old(View()).(dev := WithRun(old(dev), p.place, buf[p.at..p.at + p.size]))
    {
      dev := dev[..p.place] + buf[p.at..p.at + p.size] + dev[p.place + p.size..];
    }

    /** FileWriter::WriteData, with every transfer complete. */
    method WriteData(ids: seq<nat>, buf: array<byte>, size: nat, offset: nat) returns (n: nat)
      requires 0 < size <= buf.Length && (offset + size - 1) / B < |ids| && CanReach(ids, num, dev)
      modifies this`dev
      ensures n == size && View() == old(View()).(dev := Put(old(dev), ids, offset, buf[..size]))
    {
      hide CanReach, PlacedAt, Put;
      n := 0;
      var pieces := CutAtBlocks(ids, offset, size);
      ghost var data := buf[..size];
      PutNothing(dev, ids, offset);
      for i := 0 to |pieces|
        invariant n == EndOf(pieces[..i]) && n <= size
        invariant |dev| == |old(dev)| && View() == old(View()).(dev := Put(old(dev), ids, offset, data[..n]))
      {
        var p := pieces[i];
        assert Placed(ids, offset, pieces, i);
        PieceOnDevice(ids, offset, p, num, old(dev));
        PutPiece(old(dev), ids, offset, data, p, p.size);
        assert buf[p.at..p.at + p.size] == data[p.at..p.at + p.size];
        WritePiece(p, buf);
        EndOfNext(pieces, i);
        n := n + p.size;
      }
      assert pieces[..|pieces|] == pieces && data[..size] == data;
    }

    /** OpenFile::pwrite. */
    method PwriteFile(f: nat, buf: array<byte>, size: nat, offset: nat) returns (r: int, ghost ids: seq<nat>)
      requires Valid() && f in files && size <= buf.Length
      modifies this
      ensures PwritePick(old(View()), f, buf[..size], offset, ids)
      ensures View() == Pwrite(old(View()), f, buf[..size], offset, ids).0
      ensures r == (if Pwrite(old(View()), f, buf[..size], offset, ids).1 == Done then size else -1)
      ensures Valid()
      ensures r == size <==>
        size == 0 || offset + size <= old(files)[f].size || CanGrow(old(View()), f, offset + size)
      ensures r != size ==> r == -1
    {
      hide Inv, SlotsOK, Conserved, Persisted, Extend, AlignUp, CanReach, Put, TruncatePick, CanGrow;
      ghost var s := View();
      ghost var data := buf[..size];
      ids := [];
      if size == 0 { return 0, ids; }
      if offset + size > files[f].size {
        r, ids := Ftruncate(f, offset + size);
        if r < 0 {
          PwriteKeeps(s, f, data, offset, ids);
          PwriteTables(s, f, data, offset, ids);
          PwriteOutcome(s, f, data, offset, ids);
          return -1, ids;
        }
      }
      GrowsEnough(s, f, offset, data, ids);
      FileReach(View(), f);
      EndsInside(offset, size, files[f].size, |files[f].ids|);
      r := WriteData(mem.blocks[files[f].fb.value].ids, buf, size, offset);
      PwriteKeeps(s, f, data, offset, ids);
      PwriteTables(s, f, data, offset, ids);
      PwriteOutcome(s, f, data, offset, ids);
    }

    // -------------------------------------------------------------- creating and removing files

    /** DirHandle::GetCreatedDirectory. */
    method GetCreatedDirectory(path: string) returns (d: Option<nat>)
      ensures d == LookupDir(View(), path)
    {
      var name := if EndsWithSlash(path) then path else path + "/";
      if |name| >= MAX_DIR_NAME { return None; }
      d := if name in createdDirs then Some(createdDirs[name]) else None;
    }

    /** FileHandle::GetCreatedFile. */
    method GetCreatedFile(path: string) returns (f: Option<nat>)
      requires |path| > 0
      ensures f == LookupFile(View(), path)
    {
      hide LookupDir;
      if EndsWithSlash(path) { return None; }
      var name := GetFileName(path);
      if |name| >= MAX_FILE_NAME { return None; }
      var d := GetCreatedDirectory(GetDirName(path));
      if d.None? { return None; }
      f := if (d.value, name) in createdFiles then Some(createdFiles[(d.value, name)]) else None;
    }

    /** NewFreeFileNolock and the first write of the slot. */
    method NewFreeFile(dh: nat, name: string) returns (fh: nat)
      requires freeFhs != [] && FreeFile(Tab(), freeFhs[0]) && SameShape(Tab())
      modifies this`freeFhs, this`mem, this`disk
      ensures fh == old(freeFhs)[0]
      ensures View() == old(View()).(freeFhs := old(freeFhs)[1..], tab := AddWrites(old(Tab()), fh, dh, name))
    {
      hide WriteFile;
      fh := freeFhs[0];
      assert !mem.files[fh].used && mem.files[fh].fh == fh && mem.files[fh].size == 0;
      freeFhs := freeFhs[1..];
      SaveFile(fh, mem.files[fh].(used := true, fh := fh, dh := dh, name := name, isTemp := false));
    }

    /** A new File object. */
    method NewObject(x: File) returns (f: nat)
      modifies this`files, this`nextId
      ensures f == old(nextId) && View() == old(View()).(files := old(files)[f := x], nextId := f + 1)
    {
      f := nextId;
      nextId := nextId + 1;
      files := files[f := x];
    }

    /** NewFile, its first write and AddFileToDirectory. */
    method EnterNewFile(dh: nat, name: string)
      requires freeFhs != [] && FreeFile(Tab(), freeFhs[0]) && SameShape(Tab()) && dh in childFiles
      modifies this
      ensures View() == AddFile(old(View()), dh, name)
    {
      hide Registered, AddWrites;
      ghost var s := View();
      var fh := NewFreeFile(dh, name);
      var f := NewObject(File(fh, dh, name, 0, None, [], 0, false));
      Register(f);
      AddIs(s, dh, name);
    }

    /** FileHandle::CreateFile. */
    method CreateFile(path: string) returns (f: Option<nat>)
      requires Valid() && |path| > 0
      modifies this
      ensures View() == Create(old(View()), path).0 && Valid()
      ensures f == if Create(old(View()), path).1 == Done then Some(old(nextId)) else None
    {
      hide Inv, SlotsOK, Conserved, Persisted, AddFile, GetDirName, GetFileName, LookupDir;
      ghost var s := View();
      CreateKeeps(s, path);
      CreateTables(s, path);
      if EndsWithSlash(path) { return None; }
      var name := GetFileName(path);
      if |name| >= MAX_FILE_NAME { return None; }
      var d := GetCreatedDirectory(GetDirName(path));
      if d.None? { return None; }
      if (d.value, name) in createdFiles || freeFhs == [] { return None; }
      DirFound(s, GetDirName(path));
      FreeHeads(s);
      f := Some(nextId);
      EnterNewFile(d.value, name);
    }

    /** File::RemoveAllFileBlock for the one file block that a file has, and
        FileBlock::ReleaseAll: the ids are collected and put back together. */
    method RemoveAllFileBlock(x: File)
      requires SameShape(Tab()) && (x.fb.Some? ==> x.fb.value < |mem.blocks| && mem.blocks[x.fb.value].ids == x.ids)
      requires x.fb.None? ==> x.ids == []
      modifies this`mem, this`disk, this`blockIdPool, this`freeFbhs
      ensures View() == BlocksDropped(old(View()), x) && SameShape(Tab()) && mem.files == old(mem).files
    {
      hide WriteBlock;
      if x.fb.None? {
        PoolPlusNothing(blockIdPool);
        return;
      }
      var i := x.fb.value;
      var blockList: seq<nat> := [];
      for j := 0 to |mem.blocks[i].ids|
        invariant blockList == x.ids[..j]
      {
        blockList := blockList + [mem.blocks[i].ids[j]];
      }
      assert blockList == x.ids;
      var ok := PutFreeBlockId(blockList);
      SaveBlock(i, ClearBlock(mem.blocks[i]));
      freeFbhs := freeFbhs + [i];
    }

    /** The end of unlink and of UnlinkFileNolock: blocks, slot, indexes. */
    method RemoveFile(f: nat)
      requires f in files && files[f].dh in childFiles && files[f].fh < |mem.files| && SameShape(Tab())
      requires files[f].fb.Some? ==>
        files[f].fb.value < |mem.blocks| && mem.blocks[files[f].fb.value].ids == files[f].ids
      requires files[f].fb.None? ==> files[f].ids == []
      modifies this
      ensures View() == DropFile(old(View()), f)
    {
      hide WriteFile, BlocksDropped, DropWrites;
      ghost var s := View();
      var x := files[f];
      BlocksDroppedKeeps(s, x);
      RemoveAllFileBlock(x);
      SaveFile(x.fh, ClearFile(mem.files[x.fh]));
      Deregister(f);
      files := files - {f};
      DropIs(s, f);
    }

    /** FileHandle::unlink: a file that is open is only marked. */
    method UnlinkPath(path: string) returns (r: int)
      requires Valid() && |path| > 0
      modifies this
      ensures View() == Unlink(old(View()), path).0 && Valid()
      ensures r == if Unlink(old(View()), path).1 == Done then 0 else -1
    {
      hide Inv, SlotsOK, Conserved, Persisted, DropFile, LookupFile, LookupDir;
      ghost var s := View();
      UnlinkKeeps(s, path);
      UnlinkTables(s, path);
      var d := GetCreatedDirectory(path);
      if d.Some? { return -1; }
      var who := GetCreatedFile(path);
      if who.None? { return -1; }
      FileFound(s, path);
      LiveFile(s, who.value);
      var x := files[who.value];
      if x.nlink > 0 {
        files := files[who.value := x.(deleted := true)];
        return 0;
      }
      RemoveFile(who.value);
      r := 0;
    }

    // -------------------------------------------------------------- descriptors

    /** FdHandle::get_fd, its answer kept in an ino_t. */
    method GetFd() returns (fd: nat)
      modifies this`freeFds
      ensures fd == NextFd(old(View()))
      ensures View() == old(View()).(freeFds := if old(freeFds) == [] then [] else old(freeFds)[1..])
    {
      if freeFds == [] { return NO_FD; }
      fd := freeFds[0];
      freeFds := freeFds[1..];
    }

    /** FdHandle::put_fd. */
    method PutFd(fd: nat)
      modifies this`freeFds
      ensures View() == old(View()).(freeFds := old(freeFds) + [fd])
    {
      freeFds := freeFds + [fd];
    }

    /** The common end of open and dup: a descriptor, an entry, one more link. */
    method AddOpenFile(f: nat) returns (fd: nat)
      requires f in files
      modifies this`files, this`openFiles, this`freeFds
      ensures fd == NextFd(old(View())) && View() == AddOpen(old(View()), f)
    {
      fd := GetFd();
      openFiles := openFiles[fd := f];
      files := files[f := files[f].(nlink := files[f].nlink + 1)];
    }

    /** FileHandle::open of a named file, with or without O_CREAT. */
    method OpenPath(path: string, create: bool) returns (fd: int)
      requires Valid() && |path| > 0
      modifies this
      ensures View() == Open(old(View()), path, create).0
      ensures fd == if Open(old(View()), path, create).1 == Done then FdAnswer(NextFd(old(View()))) else -1
      ensures Valid() <==> (Open(old(View()), path, create).1 == Done ==> FdLeft(old(View())))
      ensures fd >= 0 <==> CanOpen(old(View()), path, create) && old(freeFds) != [] && old(freeFds)[0] != NO_FD
      ensures fd >= 0 ==>
        && Valid() && fd == old(freeFds)[0] && freeFds == old(freeFds)[1..] && old(freeFds)[0] !in old(openFiles)
        && openFiles == old(openFiles)[old(freeFds)[0] := FoundOrNew(old(View()), path)]
        && FoundOrNew(old(View()), path) in files
      ensures fd < 0 ==> fd == -1
      ensures !CanOpen(old(View()), path, create) ==> View() == old(View())
    {
      hide Inv, SlotsOK, Conserved, Persisted, AddFile, AddOpen, NextFd, FdLeft, FdAnswer, LookupFile, LookupDir,
           GetDirName, GetFileName, CanOpen, FoundOrNew;
      ghost var s := View();
      OpenHandsOut(s, path, create);
      OpenKeeps(s, path, create);
      OpenTables(s, path, create);
      CreatedIs(s, path);
      var d := GetCreatedDirectory(path);
      if d.Some? { return -1; }
      var who := GetCreatedFile(path);
      if who.Some? {
        FileFound(s, path);
        var next := AddOpenFile(who.value);
        return FdAnswer(next);
      }
      if !create { return -1; }
      who := CreateFile(path);
      if who.None? { return -1; }
      var next := AddOpenFile(who.value);
      fd := FdAnswer(next);
    }

    /** FileHandle::dup. */
    method DupFd(from: nat) returns (fd: int)
      requires Valid()
      modifies this
      ensures View() == Dup(old(View()), from).0
      ensures fd == if Dup(old(View()), from).1 == Done then FdAnswer(NextFd(old(View()))) else -1
      ensures Valid() <==> (Dup(old(View()), from).1 == Done ==> FdLeft(old(View())))
      ensures fd >= 0 <==> from in old(openFiles) && old(freeFds) != [] && old(freeFds)[0] != NO_FD
      ensures fd >= 0 ==>
        && Valid() && fd == old(freeFds)[0] && freeFds == old(freeFds)[1..] && old(freeFds)[0] !in old(openFiles)
        && openFiles == old(openFiles)[old(freeFds)[0] := old(openFiles)[from]] && openFiles[from] in files
      ensures fd < 0 ==> fd == -1
      ensures from !in old(openFiles) ==> View() == old(View())
    {
      hide Inv, SlotsOK, Conserved, Persisted, AddOpen, NextFd, FdLeft, FdAnswer;
      ghost var s := View();
      DupHandsOut(s, from);
      if from !in openFiles { return -1; }
      OpenMeansLinked(s, from);
      AddOpenKeeps(s, s.open[from]);
      AddOpenTables(s, s.open[from]);
      var next := AddOpenFile(openFiles[from]);
      fd := FdAnswer(next);
    }

    /** FileHandle::close: the last close of a deleted file removes it. */
    method CloseFd(fd: nat) returns (r: int)
      requires Valid()
      modifies this
      ensures View() == Close(old(View()), fd).0 && Valid()
      ensures r == if Close(old(View()), fd).1 == Done then 0 else -1
    {
      hide Inv, SlotsOK, Conserved, Persisted, DropFile, LinkLost;
      ghost var s := View();
      CloseKeeps(s, fd);
      CloseTables(s, fd);
      if fd !in openFiles { return -1; }
      OpenMeansLinked(s, fd);
      var f := openFiles[fd];
      LiveFile(s, f);
      HandleFound(s, f);
      CloseIs(s, fd);
      LoseLink(f);
      openFiles := openFiles - {fd};
      PutFd(fd);
      r := 0;
    }

    /** The link count drops; at zero a deleted file goes (UnlinkFileNolock). */
    method LoseLink(f: nat)
      requires f in files && files[f].nlink > 0 && files[f].fh in createdFhs && createdFhs[files[f].fh] == f
      requires files[f].dh in childFiles && files[f].fh < |mem.files| && SameShape(Tab())
      requires (files[f].fb.None? ==> files[f].ids == [])
      requires files[f].fb.Some? ==>
        files[f].fb.value < |mem.blocks| && mem.blocks[files[f].fb.value].ids == files[f].ids
      modifies this
      ensures View() == LinkLost(old(View()), f)
    {
      hide DropFile;
      files := files[f := files[f].(nlink := files[f].nlink - 1)];
      if files[f].nlink == 0 && files[f].deleted {
        RemoveFile(createdFhs[files[f].fh]);
      }
    }

    // -------------------------------------------------------------- directories

    /** DirHandle::CheckFileExist: no file has this path or the parent's. */
    method CheckFileExist(path: string, checkParent: bool) returns (ok: bool)
      requires |path| > 0
      ensures ok <==> !NameClash(View(), path, checkParent)
    {
      hide LookupFile;
      if IsMountPoint(path) { return true; }
      var p := path;
      if EndsWithSlash(p) { p := p[..|p| - 1]; }
      var who := GetCreatedFile(p);
      if who.Some? { return false; }
      var parent := GetDirName(path);
      if !IsMountPoint(parent) && checkParent {
        if EndsWithSlash(parent) { parent := parent[..|parent| - 1]; }
        who := GetCreatedFile(parent);
        if who.Some? { return false; }
      }
      ok := true;
    }

    /** Directory::AddChildDirectory. */
    method AddChildDirectory(up: nat, h: nat)
      modifies this`childDirs
      ensures View() == old(View()).(tree := WithKids(old(View()).tree, up, KidsOf(old(View()).tree, up) + {h}))
    {
      childDirs := childDirs[up := (if up in childDirs then childDirs[up] else {}) + {h}];
    }

    /** Directory::RemovChildDirectory. */
    method RemoveChildDirectory(up: nat, h: nat)
      modifies this`childDirs
      ensures View() == old(View()).(tree := WithKids(old(View()).tree, up, KidsOf(old(View()).tree, up) - {h}))
    {
      childDirs := childDirs[up := (if up in childDirs then childDirs[up] else {}) - {h}];
    }

    /** AddDirectory2CreateNolock: it does nothing when path or handle is taken. */
    method EnterDirectory(h: nat, path: string)
      modifies this`dirNames, this`createdDirs
      ensures View() == old(View()).(tree := Entered(old(View()).tree, h, path))
    {
      if path in createdDirs { return; }
      if h in dirNames { return; }
      createdDirs := createdDirs[path := h];
      dirNames := dirNames[h := path];
    }

    /** RemoveDirectoryFromCreateNolock. */
    method ForgetDirectory(h: nat, path: string)
      modifies this`dirNames, this`createdDirs
      ensures var t := old(View()).tree;
        View() == old(View()).(tree := t.(names := t.names - {h}, byPath := t.byPath - {path}))
    {
      createdDirs := createdDirs - {path};
      dirNames := dirNames - {h};
    }

    /** A new Directory object has no children. */
    method NewChildMaps(h: nat)
      modifies this`childDirs, this`childFiles
      ensures View() == old(View()).(tree := WithKids(old(View()).tree, h, {}), inDir := old(childFiles)[h := map[]])
    {
      childDirs := childDirs[h := {}];
      childFiles := childFiles[h := map[]];
    }

    /** The maps go with the last reference to the Directory object. */
    method DropChildMaps(h: nat)
      modifies this`childDirs, this`childFiles
      ensures var t := old(View()).tree;
        View() == old(View()).(tree := t.(kids := t.kids - {h}), inDir := old(childFiles) - {h})
    {
      childDirs := childDirs - {h};
      childFiles := childFiles - {h};
    }

    /** The directory that holds `path`. */
    method ParentOf(path: string) returns (up: nat)
      requires |path| > 0
      ensures up == UpOf(View().tree, path)
    {
      hide GetDirName;
      up := if GetDirName(path) in createdDirs then createdDirs[GetDirName(path)] else 0;
    }

    /** DirHandle::AddDirectory. */
    method AddDirectory(h: nat, path: string)
      requires |path| > 0 && path !in createdDirs && h !in dirNames
      modifies this
      ensures View() == old(View()).(tree := Add(old(View()).tree, h, path), inDir := old(childFiles)[h := map[]])
    {
      hide UpOf, KidsOf, Entered;
      AddIsKids(View().tree, h, path);
      if !IsMountPoint(path) {
        var up := ParentOf(path);
        AddChildDirectory(up, h);
      }
      NewChildMaps(h);
      EnterDirectory(h, path);
    }

    /** NewFreeDirectoryNolock and the first write of the slot. */
    method NewFreeDirectory(path: string) returns (h: nat)
      requires freeDhs != [] && FreeDir(Tab(), freeDhs[0]) && SameShape(Tab())
      modifies this`freeDhs, this`mem, this`disk
      ensures h == old(freeDhs)[0] && View() == old(View()).(freeDhs := old(freeDhs)[1..],
        tab := WriteDir(old(Tab()), h, DirAt(old(Tab()), h).(used := true, dh := h, name := path)))
    {
      hide WriteDir;
      h := freeDhs[0];
      assert !mem.dirs[h].used && mem.dirs[h].dh == h;
      freeDhs := freeDhs[1..];
      SaveDir(h, mem.dirs[h].(used := true, dh := h, name := path));
    }

    /** DirHandle::CreateDirectory. */
    method CreateDirectory(path: string) returns (r: int)
      requires Valid() && |path| > 0
      modifies this
      ensures View() == Mkdir(old(View()), path).0 && Valid()
      ensures r == if Mkdir(old(View()), path).1 == Done then 0 else -1
    {
      hide Inv, SlotsOK, Conserved, Persisted, NameClash, GetDirName, Add, WriteDir, FreeDir, DirAt;
      ghost var s := View();
      MkdirKeeps(s, path);
      MkdirTables(s, path);
      var ok := CheckFileExist(path, true);
      if !ok { return -1; }
      var p := if EndsWithSlash(path) then path else path + "/";
      if |p| >= MAX_DIR_NAME || p in createdDirs { return -1; }
      if !IsMountPoint(p) && GetDirName(p) !in createdDirs { return -1; }
      if freeDhs == [] { return -1; }
      FreeHeads(s);
      FreeDirIsNew(s);
      var h := NewFreeDirectory(p);
      AddDirectory(h, p);
      r := 0;
    }

    /** Directory::ChildCount. */
    method ChildCount(h: nat) returns (n: nat)
      requires h in childFiles && h in childDirs
      ensures n == 0 <==> KidsOf(View().tree, h) == {} && View().inDir[h] == map[]
    {
      n := |childFiles[h]| + |childDirs[h]|;
      NoneCounted(childDirs[h], childFiles[h]);
    }

    /** Suicide and RemoveDirectory: the slot is cleared and written, then `h`
        leaves its parent and the path and handle maps. */
    method EraseDirectory(h: nat)
      requires h in dirNames && |dirNames[h]| > 0 && h < |mem.dirs| && SameShape(Tab())
      modifies this
      ensures View() == old(View()).(tree := Remove(old(View()).tree, h), inDir := old(childFiles) - {h},
        tab := WriteDir(old(Tab()), h, ClearDir(DirAt(old(Tab()), h))))
    {
      hide UpOf, KidsOf, WriteDir;
      SaveDir(h, ClearDir(mem.dirs[h]));
      var up := ParentOf(dirNames[h]);
      RemoveChildDirectory(up, h);
      ForgetDirectory(h, dirNames[h]);
      DropChildMaps(h);
    }

    /** DirHandle::DeleteDirectory. */
    method DeleteDirectory(path: string) returns (r: int)
      requires Valid() && |path| > 0
      modifies this
      ensures View() == Rmdir(old(View()), path).0 && Valid()
      ensures r == if Rmdir(old(View()), path).1 == Done then 0 else -1
    {
      hide Inv, SlotsOK, Conserved, Persisted, NameClash, GetDirName, Remove, WriteDir, KidsOf;
      ghost var s := View();
      RmdirKeeps(s, path);
      RmdirTables(s, path);
      var ok := CheckFileExist(path, false);
      if !ok { return -1; }
      var p := if EndsWithSlash(path) then path else path + "/";
      if |p| >= MAX_DIR_NAME || IsMountPoint(path) { return -1; }
      if GetDirName(p) !in createdDirs || p !in createdDirs { return -1; }
      DirKnown(s, p);
      var n := ChildCount(createdDirs[p]);
      if n > 0 { return -1; }
      EraseDirectory(createdDirs[p]);
      r := 0;
    }

    // -------------------------------------------------------------- renaming

    /** File::rename once both directories are known: out of the indexes, new
        name and directory, back into them, and the slot is written. */
    method MoveEntry(f: nat, dh: nat, name: string)
      requires f in files && files[f].dh in childFiles && dh in childFiles && files[f].fh < |mem.files|
      requires SameShape(Tab())
      requires files[f].fh in createdFhs && createdFhs[files[f].fh] == f
      modifies this
      ensures View() == MoveFile(old(View()), f, dh, name)
    {
      hide Registered, MoveFile, WriteFile;
      ghost var s := View();
      var x := files[f];
      Deregister(f);
      files := files[f := x.(dh := dh, name := name)];
      RegisteredTab(View(), f);
      Register(f);
      SaveFile(x.fh, mem.files[x.fh].(dh := dh, name := name));
      MoveIs(s, f, dh, name);
    }

    /** File::rename. */
    method RenameFile(f: nat, to: string) returns (r: int)
      requires Valid() && f in files && |to| > 0
      modifies this
      ensures View() == FileRenamed(old(View()), f, to).0
      ensures r == if FileRenamed(old(View()), f, to).1 == Done then 0 else -1
    {
      hide Inv, SlotsOK, LookupDir, GetDirName, GetFileName, MoveFile;
      LiveFile(View(), f);
      HandleFound(View(), f);
      var up := GetCreatedDirectory(GetDirName(to));
      if up.None? { return -1; }
      DirFound(View(), GetDirName(to));
      MoveEntry(f, up.value, StoredName(GetFileName(to)));
      r := 0;
    }

    /** Directory::rename: neither a taken target nor children are looked at. */
    method MoveDirectory(h: nat, to: string)
      requires h in dirNames && |dirNames[h]| > 0 && |to| > 0 && h < |mem.dirs| && SameShape(Tab())
      modifies this
      ensures View() == DirMoved(old(View()), h, to)
    {
      hide UpOf, KidsOf, WriteDir, Move, Entered;
      ghost var s := View();
      var oldUp := ParentOf(dirNames[h]);
      var newUp := ParentOf(to);
      RemoveChildDirectory(oldUp, h);
      ForgetDirectory(h, dirNames[h]);
      EnterDirectory(h, to);
      AddChildDirectory(newUp, h);
      MovedKids(s, h, to);
      SaveDir(h, mem.dirs[h].(name := to));
    }

    /** DirHandle::RenameDirectory: -1 after a rename that was carried out. */
    method RenameDirectory(from: string, to: string) returns (r: int)
      requires Valid() && |from| > 0 && |to| > 0 && LookupDir(View(), from).Some?
      modifies this
      ensures View() == DirRenamed(old(View()), from, to)
      ensures r == DirAnswer(old(View()), from, to)
    {
      hide Inv, SlotsOK, LookupDir, GetDirName, NameClash, DirMoved;
      r := -1;
      var ok := CheckFileExist(to, true);
      if !ok { return; }
      if IsMountPoint(from) || IsMountPoint(to) { return; }
      var p := if EndsWithSlash(from) then from else from + "/";
      var q := if EndsWithSlash(to) then to else to + "/";
      if |p| >= MAX_DIR_NAME || |q| >= MAX_DIR_NAME { return; }
      if GetDirName(p) !in createdDirs || p !in createdDirs { return; }
      DirKnown(View(), p);
      var renamed := AskRename(createdDirs[p], q);
      if renamed == 0 { return; }
      r := 0;
    }

    /** Directory::rename with its look for the new parent. */
    method AskRename(h: nat, to: string) returns (r: int)
      requires h in dirNames && |dirNames[h]| > 0 && |to| > 0 && h < |mem.dirs| && SameShape(Tab())
      modifies this
      ensures r == if LookupDir(old(View()), GetDirName(to)).Some? then 0 else -1
      ensures View() == if r == 0 then DirMoved(old(View()), h, to) else old(View())
    {
      hide LookupDir, GetDirName, DirMoved;
      var up := GetCreatedDirectory(GetDirName(to));
      if up.None? { return -1; }
      MoveDirectory(h, to);
      r := 0;
    }

    method RenameAny(from: string, to: string) returns (r: int)
      requires Valid() && |from| > 0 && |to| > 0
      modifies this
      ensures View() == Rename(old(View()), from, to).0
      ensures r == RenameAnswer(old(View()), from, to)
    {
      hide Inv, SlotsOK, LookupDir, LookupFile, FileRenamed, DirRenamed, Rename, RenameAnswer, DirAnswer;
      ghost var s := View();
      RenameIs(s, from, to);
      AnswerIs(s, from, to);
      var dest := GetCreatedFile(to);
      if dest.Some? { return -1; }
      var who := GetCreatedFile(from);
      if who.Some? {
        FileFound(s, from);
        r := RenameFile(who.value, to);
      } else {
        var d := GetCreatedDirectory(from);
        if d.None? { return -1; }
        r := RenameDirectory(from, to);
      }
    }

    /** FileSystem::RenamePath. */
    method RenamePath(from: string, to: string) returns (r: int)
      requires Valid()
      modifies this
      ensures |from| == 0 || |to| == 0 ==> r == -1 && View() == old(View())
      ensures |from| > 0 && |to| > 0 ==> r == RenameAnswer(old(View()), from, to)
      ensures |from| > 0 && |to| > 0 ==> View() == Rename(old(View()), from, to).0
      ensures |from| > 0 && |to| > 0 && RenameIsSafe(old(View()), from, to) ==> Valid()
    {
      hide Inv, SlotsOK, Rename, RenameIsSafe, RenameAnswer;
      if |from| == 0 || |to| == 0 { return -1; }
      RenameValid(View(), from, to);
      r := RenameAny(from, to);
    }

    // -------------------------------------------------------------- by path and by descriptor

    /** FileSystem::TruncateFile by path. */
    method TruncatePath(path: string, size: nat) returns (r: int, ghost op: Op)
      requires Valid() && |path| > 0
      modifies this
      ensures op.OpTruncate? && op.path == path && op.size == size && Permitted(old(View()), op)
      ensures View() == Step(old(View()), op).0 && Valid()
      ensures r == if Step(old(View()), op).1 == Done then 0 else -1
    {
      hide Inv, SlotsOK, LookupFile, Truncate, TruncatePick;
      ghost var s := View();
      ghost var ids: seq<nat> := [];
      var who := GetCreatedFile(path);
      op := OpTruncate(path, size, ids);
      if who.None? { return -1, op; }
      FileFound(s, path);
      r, ids := Ftruncate(who.value, size);
      op := OpTruncate(path, size, ids);
    }

    /** FileSystem::TruncateFile by descriptor. */
    method TruncateFd(fd: nat, size: nat) returns (r: int, ghost op: Op)
      requires Valid()
      modifies this
      ensures op.OpFtruncate? && op.fd == fd && op.size == size && Permitted(old(View()), op)
      ensures View() == Step(old(View()), op).0 && Valid()
      ensures r == if Step(old(View()), op).1 == Done then 0 else -1
    {
      hide Inv, SlotsOK, Truncate, TruncatePick;
      ghost var s := View();
      ghost var ids: seq<nat> := [];
      op := OpFtruncate(fd, size, ids);
      if fd !in openFiles { return -1, op; }
      OpenMeansLinked(s, fd);
      r, ids := Ftruncate(openFiles[fd], size);
      op := OpFtruncate(fd, size, ids);
    }

    /** FileSystem::PwriteFile. */
    method PwriteFd(fd: nat, buf: array<byte>, size: nat, offset: nat) returns (r: int, ghost op: Op)
      requires Valid() && size <= buf.Length
      modifies this
      ensures op.OpPwrite? && op.fd == fd && op.data == buf[..size] && op.off == offset && Permitted(old(View()), op)
      ensures View() == Step(old(View()), op).0 && Valid()
      ensures r == if Step(old(View()), op).1 == Done then size else -1
      ensures r == size <==>
        && fd in old(openFiles)
        && var f := old(openFiles)[fd];
        && f in old(files)
        && (size == 0 || offset + size <= old(files)[f].size || CanGrow(old(View()), f, offset + size))
      ensures r != size ==> r == -1
    {
      hide Inv, SlotsOK, Pwrite, PwritePick, CanGrow;
      ghost var s := View();
      ghost var ids: seq<nat> := [];
      op := OpPwrite(fd, buf[..size], offset, ids);
      if fd !in openFiles { return -1, op; }
      OpenMeansLinked(s, fd);
      r, ids := PwriteFile(openFiles[fd], buf, size, offset);
      op := OpPwrite(fd, buf[..size], offset, ids);
    }

    /** FileSystem::PreadFile: what is read are the contents of the file. */
    method PreadFd(fd: nat, buf: array<byte>, size: nat, offset: nat) returns (r: int)
      requires Valid() && size <= buf.Length
      modifies buf
      ensures fd !in openFiles ==> r == -1 && buf[..] == old(buf[..])
      ensures fd in openFiles ==>
        && openFiles[fd] in files && 0 <= r <= buf.Length && buf[r..] == old(buf[r..])
        && var c := ContentOf(View(), openFiles[fd]);
        buf[..r] == if offset >= |c| then [] else c[offset..Contents.Min(offset + size, |c|)]
    {
      hide Inv, SlotsOK, Pread;
      if fd !in openFiles { return -1; }
      OpenMeansLinked(View(), fd);
      PreadReadsContents(View(), openFiles[fd], size, offset);
      FileReach(View(), openFiles[fd]);
      r := PreadFile(openFiles[fd], buf, size, offset);
    }
  }

  /** FileSystem::InitializeMeta: an object when every scan succeeds, none when one
      fails. The object is good when the device holds what a leak-free run left on
      it (Remount.RemountIsGood). */
  method MountFileSystem(super: SuperMeta, img: Image, dev: seq<byte>) returns (fs: FileSystem?)
    ensures fs == null <==> MountDevice(super, img, dev).None?
    ensures fs != null ==> fresh(fs) && Some(fs.View()) == MountDevice(super, img, dev)
  {
    hide MountDevice;
    var s := Initialize(super, img, dev);
    if s.None? { return null; }
    fs := new FileSystem(s.value);
  }
}
