/** lib/super_block.cc: where FormatAllMeta puts each region of the device. */
module Layouts {
  import opened Geometry

  const K: nat := 1024
  const M: nat := 1024 * K
  const T: nat := 1024 * 1024 * M
  const MAX_FILE_NUM: nat := 100000
  const MAX_UDISK_SIZE: nat := 128 * T
  const DIR_META_SIZE: nat := 1024
  const FILE_META_SIZE: nat := 256
  const U64: nat := 0x1_0000_0000_0000_0000

  datatype Layout = Layout(
    dirOffset: nat, dirSize: nat,
    fileOffset: nat, fileSize: nat,
    fileBlockOffset: nat, fileBlockSize: nat, maxFileBlocks: nat,
    dataStart: nat, deviceSize: nat, blocks: nat, maxBlocks: nat)

  /** The super block of a device: everything but the block count is fixed. The
      subtraction is one of unsigned 64-bit numbers. */
  function LayoutFor(deviceSize: nat): Layout
    requires deviceSize < U64
  {
    Layout(4096, 102400000, 102404096, 25600000, 128004096, 547037184, 133554, 675282944, deviceSize,
           ((deviceSize + U64 - 675282944) % U64) / B, 33554271)
  }

  lemma Sizes()
    ensures RoundUp(DIR_META_SIZE * MAX_FILE_NUM, PAGE) == 102400000
    ensures RoundUp(FILE_META_SIZE * MAX_FILE_NUM, PAGE) == 25600000
    ensures AlignUp(MAX_UDISK_SIZE - (MAX_FILE_NUM - 1) * PAGE, B * C) == 33555
    ensures RoundUp((MAX_FILE_NUM - 1) * PAGE + 33555 * PAGE, PAGE) == 547037184
    ensures RoundUp(128004096 + 547037184, B) == 675282944
    ensures (MAX_UDISK_SIZE - 675282944) / B == 33554271
  { }

  class SuperBlock {
    var dirMetaOffset: nat
    var dirMetaTotalSize: nat
    var fileMetaOffset: nat
    var fileMetaTotalSize: nat
    var fileBlockMetaOffset: nat
    var fileBlockMetaTotalSize: nat
    var maxFileBlockNum: nat
    var blockDataStartOffset: nat
    var deviceSize: nat
    var currBlockNum: nat
    var maxSupportBlockNum: nat

    ghost function View(): Layout reads this {
      Layout(dirMetaOffset, dirMetaTotalSize, fileMetaOffset, fileMetaTotalSize, fileBlockMetaOffset,
             fileBlockMetaTotalSize, maxFileBlockNum, blockDataStartOffset, deviceSize,
             currBlockNum, maxSupportBlockNum)
    }

    /** FormatAllMeta, field by field. */
    method FormatAllMeta(devSize: nat)
      requires devSize < U64
      modifies this
      ensures View() == LayoutFor(devSize)
    {
      hide RoundUp, AlignUp;
      Sizes();
      dirMetaOffset := 0 + PAGE;
      dirMetaTotalSize := DIR_META_SIZE * MAX_FILE_NUM;
      dirMetaTotalSize := RoundUp(dirMetaTotalSize, PAGE);
      fileMetaOffset := dirMetaOffset + dirMetaTotalSize;
      fileMetaTotalSize := FILE_META_SIZE * MAX_FILE_NUM;
      fileMetaTotalSize := RoundUp(fileMetaTotalSize, PAGE);
      fileBlockMetaOffset := fileMetaOffset + fileMetaTotalSize;
      var tmpNum1 := MAX_FILE_NUM - 1;
      var tmpSize1 := tmpNum1 * PAGE;
      var tmpNum2 := AlignUp(MAX_UDISK_SIZE - tmpSize1, B * C);
      var tmpSize2 := tmpNum2 * PAGE;
      fileBlockMetaTotalSize := RoundUp(tmpSize1 + tmpSize2, PAGE);
      maxFileBlockNum := tmpNum1 + tmpNum2;
      blockDataStartOffset := fileBlockMetaOffset + fileBlockMetaTotalSize;
      blockDataStartOffset := RoundUp(blockDataStartOffset, B);
      deviceSize := devSize;
      var free := (deviceSize + U64 - blockDataStartOffset) % U64;
      currBlockNum := free / B;
      maxSupportBlockNum := (MAX_UDISK_SIZE - blockDataStartOffset) / B;
    }
  }

  /** A stretch of the device. */
  datatype Region = Region(start: nat, size: nat)

  predicate Before(a: Region, b: Region) { a.start + a.size <= b.start }

  predicate Inside(a: Region, b: Region) { b.start <= a.start && a.start + a.size <= b.start + b.size }

  /** PageAlignIndex and the write of the 4K page around slot `index`. */
  function PageOf(offset: nat, slotSize: nat, index: nat): Region
    requires 0 < slotSize <= PAGE
  {
    var perPage := PAGE / slotSize;
    Region(offset + slotSize * (index - index % perPage), PAGE)
  }

  function SlotOf(offset: nat, slotSize: nat, index: nat): Region {
    Region(offset + slotSize * index, slotSize)
  }

  function DataBlock(l: Layout, id: nat): Region { Region(l.dataStart + B * id, B) }

  /** Metadata regions follow each other without overlap, the data after them, on
      a block boundary; the start that module Geometry uses is this one. */
  lemma RegionsInOrder(deviceSize: nat)
    requires deviceSize < U64
    ensures var l := LayoutFor(deviceSize);
      && l.dataStart == DATA_START && l.dataStart % B == 0
      && Before(Region(0, PAGE), Region(l.dirOffset, l.dirSize))
      && Before(Region(l.dirOffset, l.dirSize), Region(l.fileOffset, l.fileSize))
      && Before(Region(l.fileOffset, l.fileSize), Region(l.fileBlockOffset, l.fileBlockSize))
      && l.fileBlockOffset + l.fileBlockSize <= l.dataStart
  { }

  /** Every slot has room, and the page that is written for it holds it and stays
      in its own region, so a page write never touches another table. */
  lemma PagesStayInside(deviceSize: nat, h: nat, i: nat)
    requires deviceSize < U64 && h < MAX_FILE_NUM && i < LayoutFor(deviceSize).maxFileBlocks
    ensures var l := LayoutFor(deviceSize);
      && Inside(PageOf(l.dirOffset, DIR_META_SIZE, h), Region(l.dirOffset, l.dirSize))
      && Inside(SlotOf(l.dirOffset, DIR_META_SIZE, h), PageOf(l.dirOffset, DIR_META_SIZE, h))
      && Inside(PageOf(l.fileOffset, FILE_META_SIZE, h), Region(l.fileOffset, l.fileSize))
      && Inside(SlotOf(l.fileOffset, FILE_META_SIZE, h), PageOf(l.fileOffset, FILE_META_SIZE, h))
      && Inside(SlotOf(l.fileBlockOffset, PAGE, i), Region(l.fileBlockOffset, l.fileBlockSize))
      && PageOf(l.dirOffset, DIR_META_SIZE, h).start % PAGE == 0
      && PageOf(l.fileOffset, FILE_META_SIZE, h).start % PAGE == 0
  {
    assert PAGE / DIR_META_SIZE == DIRS_PER_PAGE && PAGE / FILE_META_SIZE == FILES_PER_PAGE;
  }

  /** All data blocks lie on the device exactly when the device reaches to the data
      start: below that the unsigned subtraction wraps and the count is absurd. */
  lemma BlocksFitIff(deviceSize: nat)
    requires deviceSize < U64
    ensures var l := LayoutFor(deviceSize);
      (forall id: nat {:trigger DataBlock(l, id)} :: id < l.blocks ==>
        Inside(DataBlock(l, id), Region(l.dataStart, deviceSize)) && DataBlock(l, id).start + B <= deviceSize)
      <==> deviceSize >= DATA_START
    ensures deviceSize >= DATA_START ==> LayoutFor(deviceSize).blocks == (deviceSize - DATA_START) / B
  {
    var l := LayoutFor(deviceSize);
    if deviceSize >= DATA_START {
      assert (deviceSize + U64 - 675282944) % U64 == deviceSize - 675282944;
    } else {
      assert (deviceSize + U64 - 675282944) % U64 == deviceSize + U64 - 675282944;
      assert DataBlock(l, 0).start + B > deviceSize;
    }
  }

  /** Block and offset determine the device address and are determined by it. */
  lemma AddressesDiffer(deviceSize: nat, a: nat, b: nat, p: nat, q: nat)
    requires deviceSize < U64 && p < B && q < B
    ensures var l := LayoutFor(deviceSize);
      DataBlock(l, a).start + p == DataBlock(l, b).start + q <==> a == b && p == q
  { }
}
