/** The three kinds of metadata slot (lib/meta_defines.h) and how a slot reaches
    the device: its checksum is recomputed and its whole 4K page is written. */
module Slots {
  import opened Geometry

  /** The fields of the super block that a mount looks at. */
  datatype SuperMeta = SuperMeta(crc: int, magic: nat, num: nat, dataStart: nat)

  datatype DirMeta = DirMeta(crc: int, used: bool, dh: nat, name: string)

  datatype FileMeta = FileMeta(crc: int, used: bool, isTemp: bool, fh: nat, dh: nat,
                               name: string, size: nat, child: int, parent: int)

  /** `ids` is the filled prefix of block_id_, so used_block_num_ is |ids|. */
  datatype FileBlockMeta = FileBlockMeta(crc: int, used: bool, isTemp: bool, fh: int, cut: nat, ids: seq<nat>)

  // The checksum is any function of the slot's other fields: these constants are
  // deliberately left without a value, so nothing is known about them.
  const SuperCrc: SuperMeta -> int
  const DirCrc: DirMeta -> int
  const FileCrc: FileMeta -> int
  const BlockCrc: FileBlockMeta -> int

  function SealSuper(m: SuperMeta): SuperMeta { m.(crc := SuperCrc(m.(crc := 0))) }

  function SealDir(m: DirMeta): DirMeta { m.(crc := DirCrc(m.(crc := 0))) }

  function SealFile(m: FileMeta): FileMeta { m.(crc := FileCrc(m.(crc := 0))) }

  function SealBlock(m: FileBlockMeta): FileBlockMeta { m.(crc := BlockCrc(m.(crc := 0))) }

  /** Directory::ClearMeta: the name stays. */
  function ClearDir(m: DirMeta): DirMeta { m.(used := false) }

  /** File::ClearMeta: dh, fh and the name stay. */
  function ClearFile(m: FileMeta): FileMeta {
    m.(used := false, isTemp := false, size := 0, child := -1, parent := -1)
  }

  /** FileBlock::ClearMeta. */
  function ClearBlock(m: FileBlockMeta): FileBlockMeta {
    m.(used := false, isTemp := false, fh := -1, cut := 0, ids := [])
  }

  /** Writing slot `i` writes every slot of its page: the new disk table. */
  function FlushPage<T>(mem: seq<T>, disk: seq<T>, i: nat, perPage: nat): (r: seq<T>)
    requires |mem| == |disk| && perPage > 0
    ensures |r| == |disk|
  {
    seq(|disk|, j requires 0 <= j < |disk| => if j / perPage == i / perPage then mem[j] else disk[j])
  }

  /** All metadata slots, as mapped in memory or as stored on the device. */
  datatype Image = Image(dirs: seq<DirMeta>, files: seq<FileMeta>, blocks: seq<FileBlockMeta>)

  datatype Tables = Tables(mem: Image, disk: Image)

  function SetFile(t: Tables, fh: nat, m: FileMeta): Tables {
    if fh < |t.mem.files| then t.(mem := t.mem.(files := t.mem.files[fh := m])) else t
  }

  function SetBlock(t: Tables, i: nat, m: FileBlockMeta): Tables {
    if i < |t.mem.blocks| then t.(mem := t.mem.(blocks := t.mem.blocks[i := m])) else t
  }

  /** Put `m` into slot `fh` and run File::WriteMeta: the page goes to disk. */
  function WriteFile(t: Tables, fh: nat, m: FileMeta): Tables {
    var u := SetFile(t, fh, SealFile(m));
    if |t.mem.files| == |t.disk.files|
    then u.(disk := u.disk.(files := FlushPage(u.mem.files, u.disk.files, fh, FILES_PER_PAGE))) else u
  }

  /** Directory::WriteMeta. */
  function WriteDir(t: Tables, h: nat, m: DirMeta): Tables {
    var u := if h < |t.mem.dirs| then t.(mem := t.mem.(dirs := t.mem.dirs[h := SealDir(m)])) else t;
    if |t.mem.dirs| == |t.disk.dirs|
    then u.(disk := u.disk.(dirs := FlushPage(u.mem.dirs, u.disk.dirs, h, DIRS_PER_PAGE))) else u
  }

  /** FileBlock::WriteMeta: a file block slot is a page of its own. */
  function WriteBlock(t: Tables, i: nat, m: FileBlockMeta): Tables {
    var u := SetBlock(t, i, SealBlock(m));
    if i < |u.mem.blocks| && i < |u.disk.blocks|
    then u.(disk := u.disk.(blocks := u.disk.blocks[i := u.mem.blocks[i]])) else u
  }

  function FileAt(t: Tables, fh: nat): FileMeta {
    if fh < |t.mem.files| then t.mem.files[fh] else FileMeta(0, false, false, fh, 0, "", 0, -1, -1)
  }

  function BlockAt(t: Tables, i: nat): FileBlockMeta {
    if i < |t.mem.blocks| then t.mem.blocks[i] else FileBlockMeta(0, false, false, -1, 0, [])
  }

  function DirAt(t: Tables, h: nat): DirMeta {
    if h < |t.mem.dirs| then t.mem.dirs[h] else DirMeta(0, false, h, "")
  }

  // ---------------------------------------------------------------- effects

  ghost predicate SameShape(t: Tables) {
    |t.mem.dirs| == |t.disk.dirs| && |t.mem.files| == |t.disk.files| && |t.mem.blocks| == |t.disk.blocks|
  }

  /** When memory and disk agree, a page write changes one slot of both. */
  lemma WriteFileEffect(t: Tables, fh: nat, m: FileMeta)
    requires SameShape(t) && fh < |t.mem.files|
    ensures var u := WriteFile(t, fh, m);
      && SameShape(u)
      && u.mem == t.mem.(files := t.mem.files[fh := SealFile(m)])
      && (t.mem == t.disk ==> u.mem == u.disk)
  {
    var u := WriteFile(t, fh, m);
    assert t.mem == t.disk ==> u.mem.files == u.disk.files;
  }

  lemma WriteDirEffect(t: Tables, h: nat, m: DirMeta)
    requires SameShape(t) && h < |t.mem.dirs|
    ensures var u := WriteDir(t, h, m);
      && SameShape(u)
      && u.mem == t.mem.(dirs := t.mem.dirs[h := SealDir(m)])
      && (t.mem == t.disk ==> u.mem == u.disk)
  {
    var u := WriteDir(t, h, m);
    assert t.mem == t.disk ==> u.mem.dirs == u.disk.dirs;
  }

  lemma WriteBlockEffect(t: Tables, i: nat, m: FileBlockMeta)
    requires SameShape(t) && i < |t.mem.blocks|
    ensures var u := WriteBlock(t, i, m);
      && SameShape(u)
      && u.mem == t.mem.(blocks := t.mem.blocks[i := SealBlock(m)])
      && (t.mem == t.disk ==> u.mem == u.disk)
  { }
}
