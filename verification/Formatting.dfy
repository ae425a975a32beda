/** Formatting a raw device and opening it: every table is written and read through
    the range check of lib/device.cc. */
module Formatting {
  import opened Geometry
  import opened Slots
  import opened Store
  import opened Persist
  import opened Mount
  import opened MountProofs
  import opened Format
  import opened Runs
  import opened Sessions
  import opened Layouts
  import opened Devices

  /** A device by its regions: its bytes, and what the super block and the tables
      read as, whatever was written there before. */
  datatype Raw = Raw(data: seq<byte>, super: SuperMeta, img: Image)

  /** PreadCache, PreadDirect and PwriteDirect refuse what passes the end. */
  predicate Reaches(size: nat, r: Region) { r.start + r.size <= size }

  const SUPER_REGION := Region(0, PAGE)

  /** The super block that FormatAllMeta makes. */
  function FormatSuper(size: nat): SuperMeta
    requires size < U64
  {
    var l := LayoutFor(size);
    SealSuper(SuperMeta(0, MAGIC, l.blocks, l.dataStart))
  }

  function FormatTables(size: nat): Image
    requires size < U64
  {
    FormatImage(MAX_FILE_NUM, MAX_FILE_NUM, LayoutFor(size).maxFileBlocks)
  }

  /** FileSystem::Format: the handles write their regions one after the other, and
      the first that is refused ends it. */
  function FormatDevice(r: Raw): (Raw, bool)
    requires |r.data| < U64
  {
    var size := |r.data|;
    var l := LayoutFor(size);
    var img := FormatTables(size);
    if !Reaches(size, SUPER_REGION) then (r, false)
    else
      var r1 := r.(super := FormatSuper(size));
      if !Reaches(size, Region(l.dirOffset, l.dirSize)) then (r1, false)
      else
        var r2 := r1.(img := r1.img.(dirs := img.dirs));
        if !Reaches(size, Region(l.fileOffset, l.fileSize)) then (r2, false)
        else
          var r3 := r2.(img := r2.img.(files := img.files));
          if !Reaches(size, Region(l.fileBlockOffset, l.fileBlockSize)) then (r3, false)
          else (r3.(img := r3.img.(blocks := img.blocks)), true)
  }

  /** ShmManager::Initialize and FileSystem::InitializeMeta: the super block is read
      and tested, everything up to the data start is read, the tables are scanned. */
  function OpenDevice(r: Raw): Option<State> {
    if !Reaches(|r.data|, SUPER_REGION) || !SuperOK(r.super) then None
    else if !Reaches(|r.data|, Region(0, r.super.dataStart)) then None
    else MountDevice(r.super, r.img, r.data)
  }

  /** Which devices can be opened, whatever is on them. */
  lemma OpenDeviceIff(r: Raw)
    ensures OpenDevice(r).Some? <==>
      && |r.data| >= 4096 && |r.data| >= r.super.dataStart
      && r.super.crc == SuperCrc(r.super.(crc := 0)) && r.super.magic == MAGIC
      && ImageOK(r.img, r.super.num % U32)
  {
    hide MountDevice, ImageOK;
    MountDeviceIff(r.super, r.img, r.data);
  }

  /** The end of the last table; the data start is the next block boundary. */
  const TABLES_END: nat := 675041280

  /** Formatting succeeds exactly when the device reaches to the end of its tables,
      whatever was on it; then all of it is written. */
  lemma FormatSucceedsIff(r: Raw)
    requires |r.data| < U64
    ensures FormatDevice(r).1 <==> |r.data| >= TABLES_END
    ensures FormatDevice(r).1 ==> FormatDevice(r).0 == Raw(r.data, FormatSuper(|r.data|), FormatTables(|r.data|))
  {
    hide FormatImage;
  }

  lemma FormattedSuper(r: Raw)
    requires |r.data| < U64 && |r.data| >= PAGE
    ensures var super := FormatDevice(r).0.super; super == FormatSuper(|r.data|) && super.dataStart == DATA_START
    ensures FormatDevice(r).0.data == r.data
  {
    hide FormatImage;
  }

  lemma FormattedMounts(dev: seq<byte>)
    requires DATA_START <= |dev| < U64
    ensures var m := MountDevice(FormatSuper(|dev|), FormatTables(|dev|), dev);
      && m.Some? && Inv(m.value) && Conserved(m.value) && SlotsOK(m.value) && Persisted(m.value) && Named(m.value)
      && m.value == Fresh(MAX_FILE_NUM, MAX_FILE_NUM, MAX_BLOCK_SLOTS, (|dev| - DATA_START) / B % U32, dev)
  {
    hide FormatImage, MountImage, Inv, Conserved, SlotsOK, Persisted, Named, Fresh;
    var super := FormatSuper(|dev|);
    assert super.(crc := 0) == SuperMeta(0, MAGIC, LayoutFor(|dev|).blocks, DATA_START);
    BlocksFitIff(|dev|);
    var num := super.num % U32;
    MountedIsFresh(MAX_FILE_NUM, MAX_FILE_NUM, MAX_BLOCK_SLOTS, num, dev);
    FormatMounts(MAX_FILE_NUM, MAX_FILE_NUM, MAX_BLOCK_SLOTS, num, dev);
  }

  const MAX_BLOCK_SLOTS: nat := 133554

  /** Opening a device after formatting it succeeds exactly when it reaches to its
      data start, and the state is then a good one. */
  lemma FormatThenOpen(r: Raw)
    requires |r.data| < U64
    ensures var m := OpenDevice(FormatDevice(r).0);
      && (m.Some? <==> |r.data| >= DATA_START)
      && (m.Some? ==>
            && Inv(m.value) && Conserved(m.value) && SlotsOK(m.value) && Persisted(m.value) && Named(m.value)
            && m.value == Fresh(MAX_FILE_NUM, MAX_FILE_NUM, MAX_BLOCK_SLOTS, (|r.data| - DATA_START) / B % U32, r.data))
  {
    hide FormatDevice, FormatSuper, FormatTables, MountDevice, Inv, Conserved, SlotsOK, Persisted, Named, Fresh;
    if |r.data| >= PAGE { FormattedSuper(r); }
    if |r.data| >= DATA_START {
      FormatSucceedsIff(r);
      FormattedMounts(r.data);
      SuperIsSealed(|r.data|);
    } else {
      NotEnough(r);
    }
  }

  lemma NotEnough(r: Raw)
    requires |r.data| < DATA_START && |r.data| < U64
    ensures OpenDevice(FormatDevice(r).0) == None
  {
    hide MountDevice, FormatImage;
    if |r.data| >= PAGE { FormattedSuper(r); }
  }

  lemma SuperIsSealed(size: nat)
    requires size < U64
    ensures SuperOK(FormatSuper(size))
  {
    var l := LayoutFor(size);
    assert FormatSuper(size).(crc := 0) == SuperMeta(0, MAGIC, l.blocks, l.dataStart);
  }

  /** So the devices that format accepts and no mount does are exactly those that
      end between their tables and their first data block. */
  lemma FormattedButLost(r: Raw)
    requires |r.data| < U64
    ensures FormatDevice(r).1 && OpenDevice(FormatDevice(r).0).None? <==> TABLES_END <= |r.data| < DATA_START
  {
    hide FormatDevice, OpenDevice, Inv, Conserved, SlotsOK, Persisted, Named, Fresh;
    FormatSucceedsIff(r);
    FormatThenOpen(r);
  }

  /** Any number of sessions on a device, from its formatting on. */
  lemma SessionsOnDevice(r: Raw, runs: seq<seq<Op>>)
    requires DATA_START <= |r.data| < U64
    ensures OpenDevice(FormatDevice(r).0).Some?
    ensures var m := OpenDevice(FormatDevice(r).0).value; PermittedSessions(m, runs) ==> SessionsHold(m, runs)
  {
    hide FormatDevice, OpenDevice, Inv, Conserved, SlotsOK, Persisted, Named, Fresh;
    FormatThenOpen(r);
    var m := OpenDevice(FormatDevice(r).0).value;
    if PermittedSessions(m, runs) { AllSessions(m, runs); }
  }

  // ---------------------------------------------------------------- the writes themselves

  /** The kernel moves something each time and never fails. */
  predicate Complete(script: seq<Attempt>) { Moves(0) !in script && Fails !in script }

  /** What stands at the front stays, and the next stretch follows it. */
  lemma NextRegion(data: seq<byte>, front: seq<byte>, was: seq<byte>, src: seq<byte>)
    requires |front| + |src| <= |was| && data == front + was[|front|..]
    ensures Overlaid(data, |front|, src) == (front + src) + was[|front + src|..]
  { }

  /** One table is written whole, behind those that stand there already, or it is refused. */
  method WriteRegion(dev: Device, buf: array<byte>, offset: nat, script: seq<Attempt>, ghost front: seq<byte>,
      ghost was: seq<byte>) returns (ok: bool)
    requires buf != dev.data && Complete(script) && |front| == offset
    requires |was| == dev.data.Length && offset <= |was| && dev.data[..] == front + was[offset..]
    modifies dev.data
    ensures ok <==> Reaches(dev.data.Length, Region(offset, buf.Length))
    ensures !ok ==> dev.data[..] == old(dev.data[..])
    ensures ok ==> dev.data[..] == (front + buf[..]) + was[offset + buf.Length..]
  {
    hide Overlaid;
    var n := dev.Pwrite(buf, buf.Length, offset, script);
    ok := n == buf.Length;
    if ok {
      NextRegion(old(dev.data[..]), front, was, buf[..]);
      assert buf[..n] == buf[..];
    }
  }

  /** Format's four writes through the range check: on success the tables stand one
      behind the other at the front, and the rest of the device is as before. */
  method WriteTables(dev: Device, super: array<byte>, dirs: array<byte>, files: array<byte>, blocks: array<byte>,
      script: seq<Attempt>) returns (ok: bool)
    requires dev.data.Length < U64 && Complete(script)
    requires dev.data !in {super, dirs, files, blocks}
    requires var l := LayoutFor(dev.data.Length);
      super.Length == PAGE && dirs.Length == l.dirSize && files.Length == l.fileSize && blocks.Length == l.fileBlockSize
    modifies dev.data
    ensures ok <==> dev.data.Length >= TABLES_END
    ensures ok ==> dev.data[..] == super[..] + dirs[..] + files[..] + blocks[..] + old(dev.data[..])[TABLES_END..]
  {
    var l := LayoutFor(dev.data.Length);
    ghost var was := dev.data[..];
    ghost var front: seq<byte> := [];
    ok := WriteRegion(dev, super, 0, script, front, was);
    if !ok { return; }
    front := super[..];
    ok := WriteRegion(dev, dirs, l.dirOffset, script, front, was);
    if !ok { return; }
    front := front + dirs[..];
    ok := WriteRegion(dev, files, l.fileOffset, script, front, was);
    if !ok { return; }
    front := front + files[..];
    ok := WriteRegion(dev, blocks, l.fileBlockOffset, script, front, was);
  }

  /** ReadAllMeta: everything up to the data start, or nothing. */
  method ReadTables(dev: Device, dataStart: nat, buf: array<byte>, script: seq<Attempt>) returns (ok: bool)
    requires buf != dev.data && buf.Length == dataStart && Complete(script)
    modifies buf
    ensures ok <==> Reaches(dev.data.Length, Region(0, dataStart))
    ensures ok ==> buf[..] == dev.data[..dataStart]
  {
    var n := dev.Pread(buf, dataStart, 0, script);
    ok := n == dataStart;
  }
}
