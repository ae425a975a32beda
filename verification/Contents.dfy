/** Each file is a byte sequence: what every call does to the contents of the
    file it names, and that it does nothing to any other. */
module Contents {
  import opened Geometry
  import opened Paths
  import opened DirTree
  import opened Store
  import opened StoreProofs
  import opened Calls
  import opened CallProofs
  import opened Runs

  function ContentOf(s: State, f: nat): seq<byte>
    requires f in s.files
  {
    Bytes(s.dev, s.files[f].ids, s.files[f].size)
  }

  function Contents(s: State): map<nat, seq<byte>> {
    map f | f in s.files :: ContentOf(s, f)
  }

  // ---------------------------------------------------------------- the simple specification

  /** `data` replaces exactly the bytes at `off`; a gap before it is unspecified. */
  ghost predicate Wrote(c: seq<byte>, off: nat, data: seq<byte>, d: seq<byte>) {
    if data == [] then d == c
    else
      && |d| == (if off + |data| > |c| then off + |data| else |c|)
      && (forall p :: off <= p < off + |data| ==> d[p] == data[p - off])
      && (forall p :: 0 <= p < |c| && !(off <= p < off + |data|) ==> d[p] == c[p])
  }

  /** The common prefix is kept; bytes past the old end are unspecified. */
  ghost predicate Resized(c: seq<byte>, size: nat, d: seq<byte>) {
    |d| == size && forall p :: 0 <= p < |c| && p < size ==> d[p] == c[p]
  }

  ghost predicate OnlyAt<T>(c: map<nat, T>, f: nat, d: map<nat, T>) {
    f in c && d.Keys == c.Keys && forall g :: g in c && g != f ==> d[g] == c[g]
  }

  ghost predicate SameOrNew(c: map<nat, seq<byte>>, d: map<nat, seq<byte>>) {
    d == c || exists g: nat :: g !in c && d == c[g := []]
  }

  /** What a call may do to the map from files to byte sequences; `f` is the file
      its path or descriptor stands for. */
  ghost predicate ContentStep(c: map<nat, seq<byte>>, f: Option<nat>, op: Op, out: Outcome, d: map<nat, seq<byte>>) {
    if out != Done then d == c
    else match op
      case OpTruncate(_, size, _) => f.Some? && OnlyAt(c, f.value, d) && Resized(c[f.value], size, d[f.value])
      case OpFtruncate(_, size, _) => f.Some? && OnlyAt(c, f.value, d) && Resized(c[f.value], size, d[f.value])
      case OpPwrite(_, data, off, _) => f.Some? && OnlyAt(c, f.value, d) && Wrote(c[f.value], off, data, d[f.value])
      case OpCreate(_) => exists g: nat :: g !in c && d == c[g := []]
      case OpOpen(_, _) => SameOrNew(c, d)
      case OpUnlink(_) => f.Some? && (d == c || d == c - {f.value})
      case OpClose(_) => f.Some? && (d == c || d == c - {f.value})
      case _ => d == c
  }

  // ---------------------------------------------------------------- byte level

  lemma BytesAgree(dev: seq<byte>, ids: seq<nat>, size: nat, dev2: seq<byte>, ids2: seq<nat>, n: nat)
    requires n <= size
    requires forall p: nat :: p < n ==> ByteAt(dev2, Addr(ids2, p)) == ByteAt(dev, Addr(ids, p))
    ensures Bytes(dev2, ids2, n) == Bytes(dev, ids, size)[..n]
  { }

  lemma InFile(s: State, f: nat, p: nat)
    requires Inv(s) && f in s.files && p < s.files[f].size
    ensures p / B < |s.files[f].ids|
  {
    assert HasBlocks(s, f);
    ShrinkIndexInRange(p, s.files[f].size, |s.files[f].ids|);
  }

  /** A write leaves the bytes of another block list alone. */
  lemma PutOther(dev: seq<byte>, ids: seq<nat>, off: nat, data: seq<byte>, other: seq<nat>, size: nat)
    requires data != [] ==> (off + |data| - 1) / B < |ids|
    requires size > 0 ==> (size - 1) / B < |other|
    requires forall b :: b in ids ==> b !in other
    ensures Bytes(Put(dev, ids, off, data), other, size) == Bytes(dev, other, size)
  {
    forall p: nat | p < size ensures ByteAt(Put(dev, ids, off, data), Addr(other, p)) == ByteAt(dev, Addr(other, p)) {
      forall q: nat | off <= q < off + |data| ensures Addr(ids, q) != Addr(other, p) {
        AddrDisjoint(ids, other, q, p);
      }
      PutMisses(dev, ids, off, data, Addr(other, p));
    }
  }

  /** A write replaces exactly its own range of the file. */
  lemma PutSelf(dev: seq<byte>, ids: seq<nat>, off: nat, data: seq<byte>, size: nat, num: nat)
    requires NoDup(ids) && (forall b :: b in ids ==> b < num) && DATA_START + num * B <= |dev|
    requires data != [] && off + |data| <= size && (size - 1) / B < |ids|
    ensures Wrote(Bytes(dev, ids, size), off, data, Bytes(Put(dev, ids, off, data), ids, size))
  {
    var after := Put(dev, ids, off, data);
    forall p | off <= p < off + |data| ensures ByteAt(after, Addr(ids, p)) == data[p - off] {
      PutHits(dev, ids, off, data, p - off, num);
    }
    forall p: nat | p < size && !(off <= p < off + |data|)
      ensures ByteAt(after, Addr(ids, p)) == ByteAt(dev, Addr(ids, p))
    {
      forall q: nat | off <= q < off + |data| ensures Addr(ids, q) != Addr(ids, p) {
        AddrInjective(ids, q, p);
      }
      PutMisses(dev, ids, off, data, Addr(ids, p));
    }
  }

  lemma CopyPrefixAt(dev: seq<byte>, src: nat, dst: nat, len: nat, blk: nat, o: nat)
    requires len <= B && DATA_START + B * (src + 1) <= |dev| && DATA_START + B * (dst + 1) <= |dev|
    requires DATA_START + B * (blk + 1) <= |dev| && o < B
    ensures blk != dst ==> CopyPrefix(dev, src, dst, len)[DATA_START + B * blk + o] == dev[DATA_START + B * blk + o]
    ensures o < len ==> CopyPrefix(dev, src, dst, len)[DATA_START + B * dst + o] == dev[DATA_START + B * src + o]
  { }

  lemma CopyPrefixKeeps(dev: seq<byte>, src: nat, dst: nat, len: nat, ids: seq<nat>, size: nat, num: nat)
    requires len <= B && src < num && dst < num && DATA_START + B * num <= |dev|
    requires (forall b :: b in ids ==> b < num) && dst !in ids && (size > 0 ==> (size - 1) / B < |ids|)
    ensures Bytes(CopyPrefix(dev, src, dst, len), ids, size) == Bytes(dev, ids, size)
  {
    forall p: nat | p < size ensures ByteAt(CopyPrefix(dev, src, dst, len), Addr(ids, p)) == ByteAt(dev, Addr(ids, p)) {
      assert ids[p / B] in ids;
      CopyPrefixAt(dev, src, dst, len, ids[p / B], p % B);
    }
  }

  // ---------------------------------------------------------------- calls

  lemma LastIndex(size: nat, n: nat)
    requires size > 0 && Ceil(size) <= n
    ensures (size - 1) / B < n
  { }

  /** An extension adds block ids at the end, whatever its outcome. */
  lemma ExtendPrefix(s: State, f: nat, off: nat, ids: seq<nat>)
    requires f in s.files && s.files[f].size < off && |s.files[f].ids| <= C
    ensures var (t, out) := Extend(s, f, off, ids);
      && f in t.files && s.files[f].ids <= t.files[f].ids
      && t.files[f].size == (if out == Done then off else s.files[f].size)
  {
    hide ExtendRefused, ExtendOverflows, ExtendWrites, OverflowWrites, ExtendSlot, ExtendFree;
  }

  /** Extending keeps every byte of every file, whether it succeeds or not. */
  lemma ExtendContents(s: State, f: nat, off: nat, ids: seq<nat>)
    requires Inv(s) && f in s.files && s.files[f].size < off
    requires ExtendRefused(s, f, off) || PickOK(s.pool, ids, Needed(s.files[f].size, off))
    ensures var (t, out) := Extend(s, f, off, ids);
      && t.files.Keys == s.files.Keys && t.dev == s.dev
      && (forall g :: g in s.files && g != f ==> t.files[g] == s.files[g])
      && (if out == Done then t.files[f].size == off && Resized(ContentOf(s, f), off, ContentOf(t, f))
          else ContentOf(t, f) == ContentOf(s, f))
  {
    hide Inv, ExtendRefused, PickOK, AlignUp, Extend;
    var t := Extend(s, f, off, ids).0;
    ExtendShape(s, f, off, ids);
    assert |s.files[f].ids| <= C by { InvHasBlocks(s, f); }
    ExtendPrefix(s, f, off, ids);
    forall p: nat | p < s.files[f].size ensures Addr(t.files[f].ids, p) == Addr(s.files[f].ids, p) {
      InFile(s, f, p);
    }
  }

  lemma ShrinkContents(s: State, f: nat, off: nat, tail: nat)
    requires Inv(s) && ShrinkReady(s, f, off, tail) && !ShrinkRefused(s) && !ShrinkLeaks(s, off)
    ensures var t := ShrinkDone(s, f, off, tail);
      && t.files.Keys == s.files.Keys
      && (forall g :: g in s.files && g != f ==> ContentOf(t, g) == ContentOf(s, g))
      && ContentOf(t, f) == ContentOf(s, f)[..off]
  {
    hide Inv, AlignUp, CopyPrefix, ShrinkLeaks, ShrinkRefused, NoDup, ShrinkWrites;
    var t := ShrinkDone(s, f, off, tail);
    forall g | g in s.files && g != f ensures ContentOf(t, g) == ContentOf(s, g) {
      ShrinkOther(s, f, off, tail, g);
    }
    forall p: nat | p < off ensures ByteAt(t.dev, Addr(t.files[f].ids, p)) == ByteAt(s.dev, Addr(s.files[f].ids, p)) {
      ShrinkByte(s, f, off, tail, p);
    }
    BytesAgree(s.dev, s.files[f].ids, s.files[f].size, t.dev, t.files[f].ids, off);
  }

  lemma ShrinkOther(s: State, f: nat, off: nat, tail: nat, g: nat)
    requires Inv(s) && ShrinkReady(s, f, off, tail) && !ShrinkRefused(s) && !ShrinkLeaks(s, off)
    requires g in s.files && g != f
    ensures ContentOf(ShrinkDone(s, f, off, tail), g) == ContentOf(s, g)
  {
    hide DirsOK, IndexOK, FdsOK, AlignUp, CopyPrefix, NoDup, ShrinkWrites;
    assert HasBlocks(s, f) && HasBlocks(s, g);
    var x := s.files[f];
    if off % B > 0 {
      assert x.ids[off / B] in x.ids;
      if s.files[g].size > 0 { LastIndex(s.files[g].size, |s.files[g].ids|); }
      CopyPrefixKeeps(s.dev, x.ids[off / B], tail, off % B, s.files[g].ids, s.files[g].size, s.num);
    }
  }

  lemma ShrinkByte(s: State, f: nat, off: nat, tail: nat, p: nat)
    requires Inv(s) && ShrinkReady(s, f, off, tail) && !ShrinkRefused(s) && !ShrinkLeaks(s, off) && p < off
    ensures f in ShrinkDone(s, f, off, tail).files
    ensures var t := ShrinkDone(s, f, off, tail);
      ByteAt(t.dev, Addr(t.files[f].ids, p)) == ByteAt(s.dev, Addr(s.files[f].ids, p))
  {
    hide DirsOK, IndexOK, FdsOK, CopyPrefix, NoDup, ShrinkWrites;
    var t := ShrinkDone(s, f, off, tail);
    var x := s.files[f];
    assert HasBlocks(s, f);
    assert x.ids[off / B] in x.ids && x.ids[p / B] in x.ids;
    if off % B > 0 {
      CopyPrefixAt(s.dev, x.ids[off / B], tail, off % B, x.ids[p / B], p % B);
    }
  }

  lemma TruncateContents(s: State, f: nat, size: nat, ids: seq<nat>)
    requires Inv(s) && f in s.files && TruncatePick(s, f, size, ids)
    ensures var (t, out) := Truncate(s, f, size, ids);
      if out == Done then
        && OnlyAt(Contents(s), f, Contents(t))
        && f in t.files && Resized(ContentOf(s, f), size, ContentOf(t, f))
      else Contents(t) == Contents(s)
  {
    hide Inv, ShrinkReady, ShrinkDone, ShrinkLeaks, Extend, ExtendRefused, Bytes;
    var x := s.files[f];
    if size > x.size {
      ExtendContents(s, f, size, ids);
    } else if size < x.size && !ShrinkRefused(s) && !ShrinkLeaks(s, size) {
      var tail := if ids == [] then 0 else ids[0];
      PickIsTail(s, f, size, ids);
      ShrinkIsReady(s, f, size, tail);
      ShrinkContents(s, f, size, tail);
    }
  }

  // ---------------------------------------------------------------- the gap of a file that grows

  /** What the device held, before the call, where position `p` of the grown file is. */
  function Leftover(s: State, f: nat, ids: seq<nat>, p: nat): byte
    requires f in s.files
  {
    ByteAt(s.dev, Addr(s.files[f].ids + ids, p))
  }

  lemma ExtendGap(s: State, f: nat, off: nat, ids: seq<nat>)
    requires f in s.files && s.files[f].size < off && Extend(s, f, off, ids).1 == Done
    ensures f in Extend(s, f, off, ids).0.files
    ensures var c := ContentOf(Extend(s, f, off, ids).0, f);
      |c| == off && forall p: nat :: s.files[f].size <= p < off ==> c[p] == Leftover(s, f, ids, p)
  {
    hide ExtendRefused, ExtendOverflows, ExtendWrites, ExtendSlot, ExtendFree, Addr;
  }

  /** Growing by truncate: the new bytes are what the blocks held, so they are
      zeros exactly when the device had zeros there. */
  lemma TruncateGap(s: State, f: nat, size: nat, ids: seq<nat>)
    requires Inv(s) && f in s.files && s.files[f].size < size && Truncate(s, f, size, ids).1 == Done
    ensures f in Truncate(s, f, size, ids).0.files
    ensures var c := ContentOf(Truncate(s, f, size, ids).0, f);
      && |c| == size
      && (forall p: nat :: s.files[f].size <= p < size ==> c[p] == Leftover(s, f, ids, p))
      && ((forall p: nat :: s.files[f].size <= p < size ==> c[p] == 0) <==>
          (forall p: nat :: s.files[f].size <= p < size ==> Leftover(s, f, ids, p) == 0))
  {
    hide Inv, Extend, Leftover, ContentOf;
    ExtendGap(s, f, size, ids);
  }

  /** A write past the end: the gap before it is not filled either. */
  lemma PwriteGap(s: State, f: nat, data: seq<byte>, off: nat, ids: seq<nat>)
    requires Inv(s) && f in s.files && data != [] && s.files[f].size <= off && PwritePick(s, f, data, off, ids)
    requires Pwrite(s, f, data, off, ids).1 == Done
    ensures f in Pwrite(s, f, data, off, ids).0.files
    ensures var c := ContentOf(Pwrite(s, f, data, off, ids).0, f);
      && |c| == off + |data|
      && (forall p: nat :: s.files[f].size <= p < off ==> c[p] == Leftover(s, f, ids, p))
      && ((forall p: nat :: s.files[f].size <= p < off ==> c[p] == 0) <==>
          (forall p: nat :: s.files[f].size <= p < off ==> Leftover(s, f, ids, p) == 0))
  {
    hide Inv, Extend, ExtendRefused, Put, Leftover, Bytes;
    var end := off + |data|;
    var t := Extend(s, f, end, ids).0;
    ExtendGap(s, f, end, ids);
    ExtendKeepsInv(s, f, end, ids);
    WriteAfter(t, f, data, off);
  }

  lemma PickIsTail(s: State, f: nat, size: nat, ids: seq<nat>)
    requires f in s.files && TruncatePick(s, f, size, ids) && size < s.files[f].size
    ensures size % B > 0 && !ShrinkLeaks(s, size) ==> ids != [] && ids[0] in s.pool
  { }

  lemma PwriteContents(s: State, f: nat, data: seq<byte>, off: nat, ids: seq<nat>)
    requires Inv(s) && f in s.files && PwritePick(s, f, data, off, ids)
    ensures var (t, out) := Pwrite(s, f, data, off, ids);
      if out == Done then
        && OnlyAt(Contents(s), f, Contents(t))
        && f in t.files && Wrote(ContentOf(s, f), off, data, ContentOf(t, f))
      else Contents(t) == Contents(s)
  {
    hide Inv, Extend, ExtendRefused, Put, Wrote, Bytes, ExtendWrites, OverflowWrites;
    if data == [] {
      assert Wrote(ContentOf(s, f), off, data, ContentOf(s, f)) by { WroteNothing(ContentOf(s, f), off); }
    } else {
      var end := off + |data|;
      var (t, out) := if end > s.files[f].size then Extend(s, f, end, ids) else (s, Done);
      if end > s.files[f].size {
        ExtendContents(s, f, end, ids);
        ExtendKeepsInv(s, f, end, ids);
      }
      if out == Done {
        WriteAfter(t, f, data, off);
        var u := t.(dev := Put(t.dev, t.files[f].ids, off, data));
        WroteAfterResize(ContentOf(s, f), ContentOf(t, f), off, data, ContentOf(u, f));
        forall g | g in s.files && g != f ensures ContentOf(u, g) == ContentOf(s, g) { }
      }
    }
  }

  lemma WroteNothing(c: seq<byte>, off: nat)
    ensures Wrote(c, off, [], c)
  { }

  lemma WroteAfterResize(c: seq<byte>, d: seq<byte>, off: nat, data: seq<byte>, e: seq<byte>)
    requires data != [] && Wrote(d, off, data, e)
    requires if off + |data| > |c| then Resized(c, off + |data|, d) else d == c
    ensures Wrote(c, off, data, e)
  { }

  lemma WriteAfter(t: State, f: nat, data: seq<byte>, off: nat)
    requires Inv(t) && f in t.files && data != [] && off + |data| <= t.files[f].size
    ensures var u := t.(dev := Put(t.dev, t.files[f].ids, off, data));
      && Wrote(ContentOf(t, f), off, data, ContentOf(u, f))
      && (forall g :: g in t.files && g != f ==> ContentOf(u, g) == ContentOf(t, g))
  {
    hide DirsOK, IndexOK, FdsOK, Put, Wrote, Bytes, AlignUp, NoDup;
    var x := t.files[f];
    assert HasBlocks(t, f);
    LastIndex(x.size, |x.ids|);
    PutSelf(t.dev, x.ids, off, data, x.size, t.num);
    forall g | g in t.files && g != f
      ensures Bytes(Put(t.dev, x.ids, off, data), t.files[g].ids, t.files[g].size) == ContentOf(t, g)
    {
      assert HasBlocks(t, g) && FilesApart(t, f, g);
      if t.files[g].size > 0 { LastIndex(t.files[g].size, |t.files[g].ids|); }
      PutOther(t.dev, x.ids, off, data, t.files[g].ids, t.files[g].size);
    }
  }

  lemma SameBytes(s: State, t: State)
    requires t.dev == s.dev && t.files.Keys == s.files.Keys
    requires forall f :: f in s.files ==> SameBlocks(t.files[f], s.files[f])
    ensures Contents(t) == Contents(s)
  { }

  lemma DropFileContents(s: State, f: nat)
    requires f in s.files && s.files[f].dh in s.inDir
    ensures Contents(DropFile(s, f)) == Contents(s) - {f}
  { }

  lemma CreateContents(s: State, path: string)
    requires Inv(s) && |path| > 0
    ensures var (t, out) := Create(s, path);
      if out == Done then s.nextId !in Contents(s) && Contents(t) == Contents(s)[s.nextId := []] && s.nextId in t.files
      else t == s
  {
    hide Inv, LookupDir, GetDirName, GetFileName;
    NextIdIsNew(s);
  }

  lemma OpenContents(s: State, path: string, create: bool)
    requires Inv(s) && |path| > 0
    ensures var (t, out) := Open(s, path, create);
      if out == Done then SameOrNew(Contents(s), Contents(t)) else t == s
  {
    hide Inv, LookupDir, LookupFile, Create;
    CreateContents(s, path);
    var who := LookupFile(s, path);
    var (t, out) := Create(s, path);
    if who.Some? && who.value in s.files { SameBytes(s, AddOpen(s, who.value)); }
    else if out == Done { SameBytes(t, AddOpen(t, s.nextId)); }
  }

  lemma CloseContents(s: State, fd: nat)
    requires Inv(s)
    ensures var (t, out) := Close(s, fd);
      if out == Done then
        && fd in s.open && s.open[fd] in s.files
        && (Contents(t) == Contents(s) || Contents(t) == Contents(s) - {s.open[fd]})
      else t == s
  {
    hide Inv;
    if fd in s.open {
      OpenMeansLinked(s, fd);
      var t := DropLink(s, fd);
      SameBytes(s, t);
      if t.files[s.open[fd]].dh in t.inDir { DropFileContents(t, s.open[fd]); }
    }
  }

  lemma UnlinkContents(s: State, path: string)
    requires Inv(s) && |path| > 0
    ensures var (t, out) := Unlink(s, path); var f := LookupFile(s, path);
      if out == Done then
        && f.Some? && f.value in s.files
        && (Contents(t) == Contents(s) || Contents(t) == Contents(s) - {f.value})
      else t == s
  {
    hide Inv, LookupDir, LookupFile;
    var who := LookupFile(s, path);
    if who.Some? && who.value in s.files {
      if s.files[who.value].nlink > 0 { SameBytes(s, Unlink(s, path).0); }
      else if s.files[who.value].dh in s.inDir { DropFileContents(s, who.value); }
    }
  }

  lemma RenameContents(s: State, from: string, to: string)
    requires |from| > 0 && |to| > 0
    ensures Contents(Rename(s, from, to).0) == Contents(s)
  {
    hide LookupDir, LookupFile, GetDirName, GetFileName, Move, RenamedDir, MoveFile;
    SameBytes(s, Rename(s, from, to).0) by { RenameSame(s, from, to); }
  }

  lemma RenameSame(s: State, from: string, to: string)
    requires |from| > 0 && |to| > 0
    ensures var t := Rename(s, from, to).0;
      && t.dev == s.dev && t.files.Keys == s.files.Keys
      && (forall f :: f in s.files ==> SameBlocks(t.files[f], s.files[f]))
  {
    hide LookupDir, LookupFile, GetDirName, GetFileName, Move, RenamedDir;
  }

  /** Data refinement of one call. */
  lemma StepRefines(s: State, op: Op)
    requires Inv(s) && Callable(s, op)
    ensures ContentStep(Contents(s), FileOf(s, op), op, Step(s, op).1, Contents(Step(s, op).0))
  {
    hide Inv, Contents, ContentOf, TruncatePick, PwritePick, RenameIsSafe, LookupFile, Create, Truncate, Pwrite,
         Open, Close, Unlink, Rename, SameOrNew, Wrote, Resized, OnlyAt;
    var f := FileOf(s, op);
    match op
    case OpCreate(path) => CreateContents(s, path);
    case OpTruncate(_, size, ids) => if f.Some? { TruncateStep(s, f.value, size, ids); }
    case OpFtruncate(_, size, ids) => if f.Some? { TruncateStep(s, f.value, size, ids); }
    case OpPwrite(_, data, off, ids) => if f.Some? { PwriteStep(s, f.value, data, off, ids); }
    case OpOpen(path, create) => OpenContents(s, path, create);
    case OpDup(fd) => if f.Some? { SameBytes(s, AddOpen(s, f.value)); }
    case OpClose(fd) => CloseContents(s, fd);
    case OpUnlink(path) => UnlinkContents(s, path);
    case OpRename(path, to) => RenameContents(s, path, to);
    case OpMkdir(path) => MkdirSame(s, path); SameBytes(s, Mkdir(s, path).0);
    case OpRmdir(path) => RmdirSame(s, path); SameBytes(s, Rmdir(s, path).0);
  }

  lemma TruncateStep(s: State, f: nat, size: nat, ids: seq<nat>)
    requires Inv(s) && f in s.files && TruncatePick(s, f, size, ids)
    ensures var (t, out) := Truncate(s, f, size, ids); var c := Contents(s); var d := Contents(t);
      if out == Done then OnlyAt(c, f, d) && Resized(c[f], size, d[f]) else d == c
  {
    hide Inv, Truncate, TruncatePick, ContentOf, Resized;
    TruncateContents(s, f, size, ids);
  }

  lemma PwriteStep(s: State, f: nat, data: seq<byte>, off: nat, ids: seq<nat>)
    requires Inv(s) && f in s.files && PwritePick(s, f, data, off, ids)
    ensures var (t, out) := Pwrite(s, f, data, off, ids); var c := Contents(s); var d := Contents(t);
      if out == Done then OnlyAt(c, f, d) && Wrote(c[f], off, data, d[f]) else d == c
  {
    hide Inv, Pwrite, PwritePick, ContentOf, Wrote;
    PwriteContents(s, f, data, off, ids);
  }

  lemma MkdirSame(s: State, path: string)
    requires |path| > 0
    ensures var t := Mkdir(s, path).0; t.dev == s.dev && t.files == s.files
  {
    hide GetDirName, NameClash, Add;
  }

  lemma RmdirSame(s: State, path: string)
    requires |path| > 0
    ensures var t := Rmdir(s, path).0; t.dev == s.dev && t.files == s.files
  {
    hide GetDirName, NameClash, Remove;
  }

  /** Data refinement of a whole run: call by call, the contents follow the
      simple specification. */
  ghost predicate Refines(s: State, ops: seq<Op>)
    requires PermittedRun(s, ops)
    decreases |ops|
  {
    ops != [] ==>
      && ContentStep(Contents(s), FileOf(s, ops[0]), ops[0], Step(s, ops[0]).1, Contents(Step(s, ops[0]).0))
      && Refines(Step(s, ops[0]).0, ops[1..])
  }

  lemma {:induction false} RunRefines(s: State, ops: seq<Op>)
    requires Inv(s) && PermittedRun(s, ops)
    ensures Refines(s, ops)
    decreases |ops|
  {
    hide Inv, Conserved, Step, ContentStep, Contents, Keeps;
    if ops != [] {
      StepRefines(s, ops[0]);
      StepKeepsInv(s, ops[0]);
      RunRefines(Step(s, ops[0]).0, ops[1..]);
    }
  }

  lemma StepKeepsInv(s: State, op: Op)
    requires Inv(s) && Permitted(s, op)
    ensures Inv(Step(s, op).0)
  {
    StepKeeps(s, op);
  }

  function Min(a: nat, b: nat): nat { if a < b then a else b }

  /** pread returns exactly the requested part of the contents. */
  lemma PreadReadsContents(s: State, f: nat, size: nat, off: nat)
    requires f in s.files
    ensures off >= s.files[f].size ==> Pread(s, f, size, off) == []
    ensures off < s.files[f].size ==> Pread(s, f, size, off) == ContentOf(s, f)[off..Min(off + size, s.files[f].size)]
  {
    hide Addr, ByteAt;
    var c := ContentOf(s, f);
    var r := Pread(s, f, size, off);
    forall i | 0 <= i < |r| ensures r[i] == c[off + i] { }
  }
}
