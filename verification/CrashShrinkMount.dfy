/** What a mount holds after a power cut inside a shrink, in every case in which it
    succeeds. */
module CrashShrinkMount {
  import opened Geometry
  import opened Slots
  import opened DirTree
  import opened Store
  import opened StoreProofs
  import opened Contents
  import opened Persist
  import opened Mount
  import opened MountProofs
  import opened Remount
  import opened CallProofs
  import opened PersistCalls
  import opened Crash
  import opened Faults
  import opened CrashShrink

  // ---------------------------------------------------------------- two slots with one name

  /** Slot `h` is entered under name `k`: it is in use and is nobody's parent. */
  ghost predicate EnteredAs(img: Image, h: nat, k: (nat, string)) {
    FileUsed(img, h) && img.files[h].child <= 0 && Key(FileOfSlot(img, h)) == k
  }

  /** Of the slots seen that are entered under a name, the last one has it. */
  ghost predicate LastHasName(img: Image, n: nat, r: FileScan, k: (nat, string)) {
    && (k in r.byName ==> r.byName[k] < n && EnteredAs(img, r.byName[k], k))
    && (forall h: nat {:trigger EnteredAs(img, h, k)} :: h < n && EnteredAs(img, h, k) ==>
          k in r.byName && h <= r.byName[k])
  }

  lemma {:induction false} ScanFindsLast(img: Image, dirs: set<nat>, n: nat, k: (nat, string))
    requires TempFree(img) && n <= |img.files| && ScanFiles(Tables(img, img), dirs, n).Some?
    ensures LastHasName(img, n, ScanFiles(Tables(img, img), dirs, n).value, k)
  {
    hide LastHasName, ScanFiles;
    if n == 0 {
      NothingFound(img, dirs, k);
    } else {
      ScanOneMore(img, dirs, n - 1);
      ScanFindsLast(img, dirs, n - 1, k);
      var r := ScanFiles(Tables(img, img), dirs, n - 1).value;
      OneMoreFound(img, n - 1, r, ScanFiles(Tables(img, img), dirs, n).value, k);
    }
  }

  lemma NothingFound(img: Image, dirs: set<nat>, k: (nat, string))
    ensures LastHasName(img, 0, ScanFiles(Tables(img, img), dirs, 0).value, k)
  { }

  /** How one more slot changes the names. */
  lemma ScanOneMore(img: Image, dirs: set<nat>, n: nat)
    requires TempFree(img) && n < |img.files| && ScanFiles(Tables(img, img), dirs, n + 1).Some?
    ensures ScanFiles(Tables(img, img), dirs, n).Some?
    ensures var r := ScanFiles(Tables(img, img), dirs, n).value;
      var t := ScanFiles(Tables(img, img), dirs, n + 1).value;
      var key := Key(FileOfSlot(img, n));
      t.byName == if EnteredAs(img, n, key) then r.byName[key := n] else r.byName
  {
    hide FilesScanned, CleanTemp;
    ScanFilesIff(img, dirs, n);
    ScannedDirs(img, dirs, n, ScanFiles(Tables(img, img), dirs, n).value);
    NoneMended(img, n, n);
  }

  lemma OneMoreFound(img: Image, n: nat, r: FileScan, t: FileScan, k: (nat, string))
    requires LastHasName(img, n, r, k)
    requires var key := Key(FileOfSlot(img, n));
      t.byName == if EnteredAs(img, n, key) then r.byName[key := n] else r.byName
    ensures LastHasName(img, n + 1, t, k)
  {
    assert EnteredAs(img, n, k) ==> k == Key(FileOfSlot(img, n));
  }

  // ---------------------------------------------------------------- the mounted state

  /** The bytes of the data blocks: the tail is copied before the first slot write. */
  function CutBytes(s: State, f: nat, off: nat, tail: nat): seq<byte>
    requires ShrinkReady(s, f, off, tail) && !ShrinkRefused(s) && !ShrinkLeaks(s, off)
  {
    ShrinkDone(s, f, off, tail).dev
  }

  /** The slot that the file's name finds: the heir's, unless the old slot is still
      in use, has no child but slot 0 or none, and comes later. */
  function FoundSlot(s: State, f: nat, off: nat, tail: nat, n: nat): nat
    requires CanShrink(s, f, off, tail) && 0 < n <= 6
  {
    var x, y := s.files[f], Heir(s, f, off, tail);
    if x.fh < y.fh || n >= 5 || ((n >= 3 || SamePage(x.fh, y.fh)) && y.fh > 0) then y.fh else x.fh
  }

  /** The old file object as the slots show it after `n` writes. */
  function OldFile(x: File, n: nat): File {
    x.(nlink := 0, deleted := false, fb := if n < 4 then x.fb else None, ids := if n < 4 then x.ids else [])
  }

  function NewFile(y: File, n: nat): File {
    y.(nlink := 0, deleted := false, fb := if n < 2 then None else y.fb, ids := if n < 2 then [] else y.ids)
  }

  lemma CutMountParts(s: State, f: nat, off: nat, tail: nat, n: nat, dev: seq<byte>, m: State)
    requires CanShrink(s, f, off, tail) && 0 < n <= 6
    requires MountImage(CutDisk(s, f, off, tail, n), s.num, dev) == Some(m)
    ensures m.tree == s.tree && m.num == s.num && m.dev == dev && TempFree(CutDisk(s, f, off, tail, n))
  {
    hide Sound, TreeOK, IndexOK, BlocksOK, FdsOK, SlotsOK, Persisted, Named, CutDisk, ScanDirs, LinkDirs, ScanFiles,
         ScanBlocks, ShrinkLeaks, TempFree;
    CutTempFree(s, f, off, tail, n);
    CutStart(s, f, off, tail, n);
    LiveImage(s);
    InvIsSound(s);
    TreeRebuilt(s, MountImage(s.tab.mem, s.num, s.dev).value);
  }

  /** What the scans make of slot `h`. */
  ghost predicate Holds(m: State, h: nat, x: File) {
    h in m.files && m.files[h] == x
  }

  lemma SlotFile(s: State, f: nat, off: nat, tail: nat, n: nat, h: nat)
    requires CanShrink(s, f, off, tail) && 0 < n <= 6
    ensures var img := CutDisk(s, f, off, tail, n); var x, y := s.files[f], Heir(s, f, off, tail);
      && (FileUsed(img, h) <==> h == y.fh || (h in s.byFh && (h == x.fh ==> n < 5)))
      && (h == y.fh ==> FileOfSlot(img, h) == NewFile(y, 1) && img.files[h].child == -1)
      && (h == x.fh && n < 5 ==>
            && FileOfSlot(img, h) == OldFile(x, 4)
            && img.files[h].child == if n >= 3 || SamePage(x.fh, y.fh) then y.fh else -1)
      && (h in s.byFh && h != x.fh ==>
            && s.byFh[h] in s.files && s.files[s.byFh[h]].fh == h && s.byFh[h] != f
            && FileOfSlot(img, h) == s.files[s.byFh[h]].(nlink := 0, deleted := false, fb := None, ids := [])
            && img.files[h].child == -1)
  {
    hide Inv, Sound, SlotsOK, Persisted, Named, Heir, AfterWrites, DirUsed, ShrinkLeaks, TempFree;
    var x := s.files[f];
    var y := Heir(s, f, off, tail);
    SlotsFit(s, f, off, tail);
    HeirIs(s, f, off, tail);
    AfterIs(s.tab, x, y, n);
    InvIsSound(s);
    if h in s.byFh { LiveFileIsUsed(s, h); }
    if FileUsed(s.tab.mem, h) { UsedFileIsLive(s, h); }
  }

  /** A file block slot in use is its file's, and no other slot names that file. */
  lemma SlotBlock(s: State, f: nat, off: nat, tail: nat, n: nat, i: nat)
    requires CanShrink(s, f, off, tail) && 0 < n <= 6 && BlockUsed(CutDisk(s, f, off, tail, n), i)
    ensures var m := CutDisk(s, f, off, tail, n).blocks[i]; var x, y := s.files[f], Heir(s, f, off, tail);
      && m.cut == 0
      && (m.fh == x.fh ==> n < 4 && ListedBy(m, i, x)) && (m.fh == y.fh ==> n >= 2 && ListedBy(m, i, y))
      && (m.fh != x.fh && m.fh != y.fh ==>
            && 0 <= m.fh && m.fh in s.byFh && s.byFh[m.fh] in s.files && s.byFh[m.fh] != f
            && ListedBy(m, i, s.files[s.byFh[m.fh]]))
  {
    hide Inv, SlotsOK, Persisted, Named, Heir, CutDisk, ShrinkLeaks, FileUsed, BlockUsed;
    var g := OwnerOf(s, f, off, tail, n, i);
    HeirIs(s, f, off, tail);
    SlotsFit(s, f, off, tail);
    if g != f {
      OthersElsewhere(s, f, g);
      GivenSlot(s, g);
    }
  }

  lemma GivenSlot(s: State, g: nat)
    requires Inv(s) && g in s.files
    ensures s.files[g].fh in s.byFh && s.byFh[s.files[g].fh] == g
  {
    assert Indexed(s, g);
  }

  /** The file that a live slot of another file stands for. */
  lemma BlockOfFile(s: State, f: nat, off: nat, tail: nat, n: nat, h: nat)
    requires CanShrink(s, f, off, tail) && 0 < n <= 6
    ensures var img := CutDisk(s, f, off, tail, n); var x, y := s.files[f], Heir(s, f, off, tail);
      && (n >= 2 && y.fb.Some? ==> BlockUsed(img, y.fb.value) && ListedBy(img.blocks[y.fb.value], y.fb.value, y))
      && (n < 4 ==> x.fb.Some? && BlockUsed(img, x.fb.value) && ListedBy(img.blocks[x.fb.value], x.fb.value, x))
      && (h in s.byFh && h != x.fh && s.byFh[h] in s.files && s.files[s.byFh[h]].fb.Some? ==>
            var g := s.files[s.byFh[h]]; BlockUsed(img, g.fb.value) && ListedBy(img.blocks[g.fb.value], g.fb.value, g))
  {
    hide Inv, Sound, SlotsOK, Persisted, Named, Heir, AfterWrites, ShrinkLeaks;
    var x := s.files[f];
    SlotsFit(s, f, off, tail);
    HeirIs(s, f, off, tail);
    AfterIs(s.tab, x, Heir(s, f, off, tail), n);
    InvIsSound(s);
    if h in s.byFh && h != x.fh && s.byFh[h] in s.files {
      LiveFileIsUsed(s, h);
      OthersElsewhere(s, f, s.byFh[h]);
      SelfElsewhere(s, s.byFh[h]);
      BlockOfLive(s, s.byFh[h]);
    }
  }

  /** The file block and the ids that a live slot comes to. */
  function HeldFile(s: State, f: nat, off: nat, tail: nat, n: nat, h: nat): File
    requires CanShrink(s, f, off, tail) && (h in s.byFh ==> s.byFh[h] in s.files)
  {
    var x, y := s.files[f], Heir(s, f, off, tail);
    if h == y.fh then NewFile(y, n)
    else if h == x.fh || h !in s.byFh then OldFile(x, n)
    else s.files[s.byFh[h]].(nlink := 0, deleted := false)
  }

  lemma CutFb(s: State, f: nat, off: nat, tail: nat, n: nat, files: map<nat, File>, b: BlockScan, h: nat)
    requires CanShrink(s, f, off, tail) && 0 < n <= 6 && h in files && files[h].fb == None && files[h].ids == []
    requires var img := CutDisk(s, f, off, tail, n);
      BlocksScanned(img, Tables(img, img), s.num, |img.blocks|, files, b)
    requires h == Heir(s, f, off, tail).fh || h in s.byFh
    requires h in s.byFh ==> s.byFh[h] in s.files
    ensures var z := HeldFile(s, f, off, tail, n, h);
      h in b.files && b.files[h] == files[h].(fb := z.fb, ids := z.ids)
  {
    hide Inv, SlotsOK, Persisted, Named, Heir, CutDisk, ShrinkLeaks, BlockUsed;
    var img := CutDisk(s, f, off, tail, n);
    var z := HeldFile(s, f, off, tail, n, h);
    var own := if z.fb.Some? then z.fb.value else 0;
    assert FbScanned(img, |img.blocks|, files, b, h) && SlotScanned(img, |img.blocks|, b, own);
    BlockOfFile(s, f, off, tail, n, h);
    CutFbFacts(s, f, off, tail, h);
    UsedInRange(img, own);
    if z.fb.Some? { SlotBlock(s, f, off, tail, n, own); }
    if b.files[h].fb.Some? { SlotBlock(s, f, off, tail, n, b.files[h].fb.value); }
  }

  lemma UsedInRange(img: Image, i: nat)
    ensures BlockUsed(img, i) ==> i < |img.blocks|
  { }

  lemma CutFbFacts(s: State, f: nat, off: nat, tail: nat, h: nat)
    requires CanShrink(s, f, off, tail)
    ensures var x, y := s.files[f], Heir(s, f, off, tail);
      && x.fh in s.byFh && s.byFh[x.fh] == f && y.fh !in s.byFh && (y.fb.None? ==> y.ids == [])
      && (h in s.byFh ==>
            && s.byFh[h] in s.files && s.files[s.byFh[h]].fh == h
            && (s.files[s.byFh[h]].fb.None? ==> s.files[s.byFh[h]].ids == []))
  {
    hide Inv, Sound, SlotsOK, Persisted, Named, Heir, ShrinkLeaks;
    SlotsFit(s, f, off, tail);
    HeirIs(s, f, off, tail);
    InvIsSound(s);
    if h in s.byFh {
      LiveFileIsUsed(s, h);
      BlockOfLive(s, s.byFh[h]);
    }
  }

  /** Every file object that the mount holds. */
  ghost predicate FileHeld(s: State, f: nat, off: nat, tail: nat, n: nat, m: State, h: nat)
    requires CanShrink(s, f, off, tail)
  {
    var x, y := s.files[f], Heir(s, f, off, tail);
    && (h in m.files <==> h == y.fh || (h in s.byFh && (h == x.fh ==> n < 5)))
    && (h == y.fh ==> Holds(m, h, NewFile(y, n)))
    && (h == x.fh && n < 5 ==> Holds(m, h, OldFile(x, n)))
    && (h in s.byFh && h != x.fh ==>
          && s.byFh[h] in s.files && s.byFh[h] != f
          && Holds(m, h, s.files[s.byFh[h]].(nlink := 0, deleted := false)))
  }

  lemma CutFileHeld(s: State, f: nat, off: nat, tail: nat, n: nat, dev: seq<byte>, m: State, h: nat)
    requires CanShrink(s, f, off, tail) && 0 < n <= 6
    requires MountImage(CutDisk(s, f, off, tail, n), s.num, dev) == Some(m)
    ensures FileHeld(s, f, off, tail, n, m, h)
  {
    hide Inv, SlotsOK, Persisted, Named, Heir, CutDisk, MountImage, ShrinkLeaks, TempFree, ScanFiles, ScanBlocks,
         FileUsed, BlockUsed;
    var img := CutDisk(s, f, off, tail, n);
    CutMountParts(s, f, off, tail, n, dev, m);
    MountedParts(img, s.num, dev);
    var r := ScanFiles(Tables(img, img), m.tree.names.Keys, |img.files|).value;
    var b := ScanBlocks(Tables(img, img), r.files, r.byFh, s.num, |img.blocks|).value;
    assert FileScanned(img, |img.files|, r, h);
    SlotFile(s, f, off, tail, n, h);
    CutFbFacts(s, f, off, tail, h);
    if h in r.files { CutFb(s, f, off, tail, n, r.files, b, h); }
  }

  // ---------------------------------------------------------------- names

  /** The name of another file finds what it found before. */
  lemma OtherName(s: State, f: nat, off: nat, tail: nat, n: nat, dev: seq<byte>, m: State, k: (nat, string))
    requires CanShrink(s, f, off, tail) && 0 < n <= 6 && k != Key(s.files[f])
    requires MountImage(CutDisk(s, f, off, tail, n), s.num, dev) == Some(m)
    ensures k in m.byName <==> k in s.byName
    ensures k in s.byName ==>
      && s.byName[k] in s.files && s.byName[k] != f && s.files[s.byName[k]].fh in s.byFh
      && s.byFh[s.files[s.byName[k]].fh] == s.byName[k] && m.byName[k] == s.files[s.byName[k]].fh
  {
    hide DirsOK, BlocksOK, FdsOK, SlotsOK, Persisted, Named, Heir, CutDisk, MountImage, ShrinkLeaks, TempFree,
         ScanFiles;
    hide ScanBlocks, FileUsed, FilesScanned, BlocksScanned, FilesKnown;
    var img := CutDisk(s, f, off, tail, n);
    CutMountParts(s, f, off, tail, n, dev, m);
    MountedParts(img, s.num, dev);
    ScanFindsLast(img, m.tree.names.Keys, |img.files|, k);
    HeirIs(s, f, off, tail);
    if k in m.byName {
      SlotFile(s, f, off, tail, n, m.byName[k]);
      NamedSlot(s, m.byName[k]);
    }
    if k in s.byName {
      assert NameKeyOK(s, k) && Indexed(s, s.byName[k]);
      CutFbFacts(s, f, off, tail, s.files[s.byName[k]].fh);
      SlotFile(s, f, off, tail, n, s.files[s.byName[k]].fh);
      UsedFileInRange(img, s.files[s.byName[k]].fh);
      assert EnteredAs(img, s.files[s.byName[k]].fh, k);
    }
  }

  lemma NamedSlot(s: State, h: nat)
    requires Inv(s)
    ensures h in s.byFh ==>
      && s.byFh[h] in s.files && s.files[s.byFh[h]].fh == h
      && Key(s.files[s.byFh[h]]) in s.byName && s.byName[Key(s.files[s.byFh[h]])] == s.byFh[h]
  {
    hide DirsOK, BlocksOK, FdsOK;
    if h in s.byFh { assert FhOK(s, h) && Indexed(s, s.byFh[h]); }
  }

  lemma UsedFileInRange(img: Image, h: nat)
    ensures FileUsed(img, h) ==> h < |img.files|
  { }

  /** No third slot is entered under the name of the shrunk file. */
  lemma OnlyTwoSlots(s: State, f: nat, off: nat, tail: nat, n: nat, h: nat)
    requires CanShrink(s, f, off, tail) && 0 < n <= 6
    requires EnteredAs(CutDisk(s, f, off, tail, n), h, Key(s.files[f]))
    ensures h == s.files[f].fh || h == Heir(s, f, off, tail).fh
  {
    hide DirsOK, BlocksOK, FdsOK, SlotsOK, Persisted, Named, Heir, CutDisk, ShrinkLeaks, FileUsed;
    SlotFile(s, f, off, tail, n, h);
    NamedSlot(s, h);
    CutFbFacts(s, f, off, tail, s.files[f].fh);
    NamedSlot(s, s.files[f].fh);
  }

  /** Of two slots the last one that is entered. */
  lemma LastOfTwo(img: Image, n: nat, r: FileScan, k: (nat, string), a: nat, b: nat)
    requires LastHasName(img, n, r, k) && EnteredAs(img, b, k) && b < n && (EnteredAs(img, a, k) ==> a < n)
    requires forall h: nat {:trigger EnteredAs(img, h, k)} :: EnteredAs(img, h, k) ==> h == a || h == b
    ensures k in r.byName && r.byName[k] == if EnteredAs(img, a, k) && a > b then a else b
  {
    hide EnteredAs;
  }

  /** The two slots of the shrunk file. */
  lemma TwoSlots(s: State, f: nat, off: nat, tail: nat, n: nat)
    requires CanShrink(s, f, off, tail) && 0 < n <= 6
    ensures var img := CutDisk(s, f, off, tail, n); var x, y := s.files[f], Heir(s, f, off, tail);
      && EnteredAs(img, y.fh, Key(x)) && y.fh < |img.files| && x.fh != y.fh
      && (EnteredAs(img, x.fh, Key(x)) <==> n < 5 && !((n >= 3 || SamePage(x.fh, y.fh)) && y.fh > 0))
      && (EnteredAs(img, x.fh, Key(x)) ==> x.fh < |img.files|)
  {
    hide Inv, SlotsOK, Persisted, Named, Heir, CutDisk, ShrinkLeaks, FileUsed;
    var img := CutDisk(s, f, off, tail, n);
    var x, y := s.files[f], Heir(s, f, off, tail);
    HeirIs(s, f, off, tail);
    CutFbFacts(s, f, off, tail, x.fh);
    SlotFile(s, f, off, tail, n, y.fh);
    SlotFile(s, f, off, tail, n, x.fh);
    UsedFileInRange(img, y.fh);
    UsedFileInRange(img, x.fh);
  }

  /** The name of the shrunk file finds the one slot or the other. */
  lemma OwnName(s: State, f: nat, off: nat, tail: nat, n: nat, dev: seq<byte>, m: State)
    requires CanShrink(s, f, off, tail) && 0 < n <= 6
    requires MountImage(CutDisk(s, f, off, tail, n), s.num, dev) == Some(m)
    ensures Key(s.files[f]) in m.byName && m.byName[Key(s.files[f])] == FoundSlot(s, f, off, tail, n)
  {
    hide Inv, SlotsOK, Persisted, Named, Heir, CutDisk, MountImage, ShrinkLeaks, TempFree, ScanFiles, ScanBlocks;
    hide FileUsed, FilesScanned, BlocksScanned, FilesKnown, EnteredAs, LastHasName, SamePage;
    var img := CutDisk(s, f, off, tail, n);
    var k := Key(s.files[f]);
    CutMountParts(s, f, off, tail, n, dev, m);
    MountedParts(img, s.num, dev);
    ScanFindsLast(img, m.tree.names.Keys, |img.files|, k);
    TwoSlots(s, f, off, tail, n);
    forall h: nat | EnteredAs(img, h, k) ensures h == s.files[f].fh || h == Heir(s, f, off, tail).fh {
      OnlyTwoSlots(s, f, off, tail, n, h);
    }
    var r := ScanFiles(Tables(img, img), m.tree.names.Keys, |img.files|).value;
    LastOfTwo(img, |img.files|, r, k, s.files[f].fh, Heir(s, f, off, tail).fh);
  }

  // ---------------------------------------------------------------- bytes

  lemma BytesAfterCopy(s: State, f: nat, off: nat, tail: nat, g: nat)
    requires Inv(s) && ShrinkReady(s, f, off, tail) && !ShrinkRefused(s) && !ShrinkLeaks(s, off) && g in s.files
    ensures Bytes(CutBytes(s, f, off, tail), s.files[g].ids, s.files[g].size) == ContentOf(s, g)
    ensures Bytes(CutBytes(s, f, off, tail), Heir(s, f, off, tail).ids, off) == ContentOf(s, f)[..off]
    ensures |CutBytes(s, f, off, tail)| == |s.dev|
  {
    hide DirsOK, IndexOK, FdsOK, CopyPrefix, NoDup, ShrinkWrites, Bytes, ShrinkLeaks, AlignUp;
    var x := s.files[f];
    ShrinkContents(s, f, off, tail);
    assert HasBlocks(s, f) && HasBlocks(s, g);
    if off % B > 0 {
      assert x.ids[off / B] in x.ids;
      if s.files[g].size > 0 { LastIndex(s.files[g].size, |s.files[g].ids|); }
      CopyPrefixKeeps(s.dev, x.ids[off / B], tail, off % B, s.files[g].ids, s.files[g].size, s.num);
    }
  }

  // ---------------------------------------------------------------- block lists

  lemma CutLists(s: State, f: nat, off: nat, tail: nat, n: nat, dev: seq<byte>, m: State, g: nat, h: nat)
    requires CanShrink(s, f, off, tail) && 0 < n <= 6 && g in m.files && h in m.files
    requires MountImage(CutDisk(s, f, off, tail, n), s.num, dev) == Some(m)
    ensures HasLists(m, g) && (g != h ==> FilesApart(m, g, h))
  {
    hide Inv, SlotsOK, Persisted, Named, Heir, CutDisk, MountImage, ShrinkLeaks, TempFree, ScanFiles, ScanBlocks,
         FileUsed;
    hide BlockSlotGood, NoDup;
    var img := CutDisk(s, f, off, tail, n);
    CutMountParts(s, f, off, tail, n, dev, m);
    MountedParts(img, s.num, dev);
    MountAcceptsIff(img, s.num, dev);
    MountChecksBlocks(img, s.num, dev);
    var r := ScanFiles(Tables(img, img), m.tree.names.Keys, |img.files|).value;
    var b := ScanBlocks(Tables(img, img), r.files, r.byFh, s.num, |img.blocks|).value;
    ListOf(img, s.num, r.files, b, g);
    ListOf(img, s.num, r.files, b, h);
  }

  /** The list of a file is that of its slot, which is not free. */
  lemma ListOf(img: Image, num: nat, files: map<nat, File>, b: BlockScan, g: nat)
    requires BlocksScanned(img, Tables(img, img), num, |img.blocks|, files, b) && g in files
    requires BlocksGood(img, num, |img.blocks|)
    ensures g in b.files
    ensures var x := b.files[g];
      && ListsBlocks(x, num) && NotFree(x, b.free, b.pool)
      && (x.fb.Some? ==>
            var i := x.fb.value; BlockUsed(img, i) && img.blocks[i].fh == g && img.blocks[i].ids == x.ids)
  {
    hide NoDup;
    assert FbScanned(img, |img.blocks|, files, b, g);
    var x := b.files[g];
    if x.fb.Some? {
      var i := x.fb.value;
      assert BlockSlotGood(img, num, i) && SlotScanned(img, |img.blocks|, b, i);
      forall c | c in x.ids ensures c !in b.pool {
        assert PoolScanned(img, num, |img.blocks|, b, c);
        assert Listed(img, |img.blocks|, c);
      }
    } else {
      NoDupEmpty();
    }
  }

  // ---------------------------------------------------------------- the theorem

  /** What the mount holds after `n > 0` writes: block lists that are disjoint and
      not free, every other name with its bytes, and the name of the shrunk file.
      The heir's slot has the new size, and the bytes too once its file block slot
      is written; the old one has all that it had until its own is cleared. */
  ghost predicate CutMounted(s: State, f: nat, off: nat, tail: nat, n: nat, m: State)
    requires CanShrink(s, f, off, tail) && 0 < n <= 6
  {
    var x, y := s.files[f], Heir(s, f, off, tail);
    var found := FoundSlot(s, f, off, tail, n);
    && (forall g {:trigger HasLists(m, g)} :: g in m.files ==> HasLists(m, g))
    && (forall g, h {:trigger FilesApart(m, g, h)} :: g in m.files && h in m.files && g != h ==> FilesApart(m, g, h))
    && (forall k {:trigger SameBytesUnder(s, m, k)} :: k != Key(x) ==> SameBytesUnder(s, m, k))
    && Key(x) in m.byName && m.byName[Key(x)] == found && found in m.files
    && (found == y.fh ==>
          && m.files[found].size == off && (n < 2 ==> m.files[found].fb == None)
          && (n >= 2 || off == 0 ==> ContentOf(m, found) == ContentOf(s, f)[..off]))
    && (found != y.fh ==>
          && m.files[found].size == x.size && (n >= 4 ==> m.files[found].fb == None)
          && (n < 4 ==> ContentOf(m, found) == ContentOf(s, f)))
  }

  lemma CutKeeps(s: State, f: nat, off: nat, tail: nat, n: nat, m: State)
    requires CanShrink(s, f, off, tail) && 0 < n <= 6
    requires MountImage(CutDisk(s, f, off, tail, n), s.num, CutBytes(s, f, off, tail)) == Some(m)
    ensures CutMounted(s, f, off, tail, n, m)
  {
    hide Inv, SlotsOK, Persisted, Named, Heir, CutDisk, CutBytes, MountImage, ShrinkLeaks, TempFree, HasLists,
         FilesApart, Bytes;
    var x, y := s.files[f], Heir(s, f, off, tail);
    var dev := CutBytes(s, f, off, tail);
    CutMountParts(s, f, off, tail, n, dev, m);
    forall g, h | g in m.files && h in m.files ensures HasLists(m, g) && (g != h ==> FilesApart(m, g, h)) {
      CutLists(s, f, off, tail, n, dev, m, g, h);
    }
    forall k | k != Key(x) ensures SameBytesUnder(s, m, k) {
      OtherName(s, f, off, tail, n, dev, m, k);
      if k in s.byName {
        CutFileHeld(s, f, off, tail, n, dev, m, m.byName[k]);
        CutFbFacts(s, f, off, tail, x.fh);
        BytesAfterCopy(s, f, off, tail, s.byName[k]);
      }
    }
    OwnName(s, f, off, tail, n, dev, m);
    CutFileHeld(s, f, off, tail, n, dev, m, FoundSlot(s, f, off, tail, n));
    CutFbFacts(s, f, off, tail, x.fh);
    HeirIs(s, f, off, tail);
    BytesAfterCopy(s, f, off, tail, f);
    NoBytes(m.dev);
  }

  lemma NoBytes(dev: seq<byte>)
    ensures forall ids :: Bytes(dev, ids, 0) == []
  { }

  /** Before the first slot write the device is as it was but for the free block
      into which the tail was copied. */
  lemma UncutKeeps(s: State, f: nat, off: nat, tail: nat, m: State)
    requires CanShrink(s, f, off, tail) && NoneLost(s)
    requires MountImage(CutDisk(s, f, off, tail, 0), s.num, CutBytes(s, f, off, tail)) == Some(m)
    ensures Rebuilt(s.(dev := CutBytes(s, f, off, tail)), m)
    ensures forall k {:trigger SameBytesUnder(s, m, k)} :: SameBytesUnder(s, m, k)
  {
    hide Inv, Sound, SlotsOK, Persisted, NoneLost, CutDisk, CutBytes, MountImage, ShrinkLeaks, Bytes, Rebuilt;
    var u := s.(dev := CutBytes(s, f, off, tail));
    BytesAfterCopy(s, f, off, tail, f);
    CutStart(s, f, off, tail, 0);
    UncutIsGood(s, CutBytes(s, f, off, tail));
    InvIsSound(u);
    RemountRebuilds(u);
    MemoryIsDevice(s);
    forall k ensures SameBytesUnder(s, m, k) {
      RemountKeepsContents(u, m, k);
      if k in s.byName { BytesAfterCopy(s, f, off, tail, s.byName[k]); }
    }
  }

  lemma UncutIsGood(s: State, dev: seq<byte>)
    requires Inv(s) && NoneLost(s) && SlotsOK(s) && Persisted(s) && Named(s) && |dev| == |s.dev|
    ensures var u := s.(dev := dev); Inv(u) && NoneLost(u) && SlotsOK(u) && Persisted(u) && Named(u)
  {
    hide TreeOK, IndexOK, FdsOK;
    var u := s.(dev := dev);
    DevFrame(s, dev);
    SlotsSameDev(s, dev);
    forall b: nat | b < u.num && b !in u.pool ensures Owned(u, b) { assert Owned(s, b); OwnedSameDev(s, dev, b); }
  }

  lemma OwnedSameDev(s: State, dev: seq<byte>, b: nat)
    requires Owned(s, b)
    ensures Owned(s.(dev := dev), b)
  {
    var f :| f in s.files && b in s.files[f].ids;
    assert b in s.(dev := dev).files[f].ids;
  }

  lemma SlotsSameDev(s: State, dev: seq<byte>)
    requires SlotsOK(s) && Persisted(s)
    ensures SlotsOK(s.(dev := dev)) && Persisted(s.(dev := dev))
  {
    hide SlotsOK, Persisted;
    SlotsSame(s, s.(dev := dev));
  }

  /** Power cut inside a shrink, anywhere: the mount succeeds under the condition of
      CrashInShrink, and then holds this. */
  lemma CrashInShrinkKeeps(s: State, f: nat, off: nat, tail: nat, n: nat)
    requires CanShrink(s, f, off, tail) && NoneLost(s) && n <= 6
    ensures var again := MountImage(CutDisk(s, f, off, tail, n), s.num, CutBytes(s, f, off, tail));
      && (again.Some? <==> !OldIsStale(s, f, off, tail, n) && !(2 <= n <= 3 && off >= B))
      && (again.Some? && n > 0 ==> CutMounted(s, f, off, tail, n, again.value))
      && (again.Some? && n == 0 ==>
            && Rebuilt(s.(dev := CutBytes(s, f, off, tail)), again.value)
            && forall k {:trigger SameBytesUnder(s, again.value, k)} :: SameBytesUnder(s, again.value, k))
  {
    hide Inv, SlotsOK, Persisted, Named, NoneLost, CutDisk, CutBytes, MountImage, ImageOK, OldIsStale, Rebuilt,
         CutMounted, ShrinkLeaks;
    CrashInShrink(s, f, off, tail, n);
    var img := CutDisk(s, f, off, tail, n);
    MountAcceptsIff(img, s.num, s.dev);
    MountAcceptsIff(img, s.num, CutBytes(s, f, off, tail));
    var again := MountImage(img, s.num, CutBytes(s, f, off, tail));
    if again.Some? {
      if n > 0 { CutKeeps(s, f, off, tail, n, again.value); } else { UncutKeeps(s, f, off, tail, again.value); }
    }
  }
}
