/** Sizes and offsets fixed by lib/meta_defines.h, the two rounding macros of
    lib/comm_utils.h, and the byte address of a position inside a file. */
module Geometry {

  const PAGE: nat := 4096
  const B: nat := 4194304              // kBlockSize
  const C: nat := 1000                 // kFileBlockCapacity
  const FILES_PER_PAGE: nat := 16      // kBlockFsPageSize / kBlockFsFileMetaSize
  const DIRS_PER_PAGE: nat := 4        // kBlockFsPageSize / kBlockFsDirMetaSize
  const MAX_FILE_NAME: nat := 64       // kBlockFsMaxFileNameLen
  const MAX_DIR_NAME: nat := 768       // kBlockFsMaxDirNameLen
  const DATA_START: nat := 675282944   // see Layouts.RegionsInOrder

  newtype byte = x: int | 0 <= x < 256

  function AlignUp(size: nat, align: nat): nat
    requires align > 0
  {
    (size + (align - 1)) / align
  }

  function RoundUp(size: nat, align: nat): nat
    requires align > 0
  {
    AlignUp(size, align) * align
  }

  /** Blocks needed to hold `size` bytes. */
  function Ceil(size: nat): nat {
    AlignUp(size, B)
  }

  predicate NoDup<T(==)>(s: seq<T>) {
    forall i, j :: 0 <= i < j < |s| ==> s[i] != s[j]
  }

  function Elems<T>(s: seq<T>): set<T> {
    set x | x in s
  }

  lemma NoDupConcat<T>(a: seq<T>, b: seq<T>)
    requires NoDup(a) && NoDup(b) && forall x :: x in a ==> x !in b
    ensures NoDup(a + b)
  {
    forall i, j | 0 <= i < j < |a + b| ensures (a + b)[i] != (a + b)[j] {
      if i < |a| <= j {
        assert a[i] in a && b[j - |a|] in b;
      }
    }
  }

  lemma NoDupSnoc<T>(a: seq<T>, x: T)
    requires NoDup(a) && x !in a
    ensures NoDup(a + [x])
  {
    NoDupConcat(a, [x]);
  }

  lemma NoDupRotate<T>(a: seq<T>)
    requires NoDup(a) && a != []
    ensures NoDup(a[1..]) && NoDup(a[1..] + [a[0]]) && a[0] in a && a[0] !in a[1..]
    ensures forall x :: x in a[1..] ==> x in a
    ensures forall x :: x in a[1..] + [a[0]] ==> x in a
  {
    NoDupConcat(a[1..], [a[0]]);
  }

  lemma NoDupSlice<T>(a: seq<T>, n: nat)
    requires NoDup(a) && n <= |a|
    ensures NoDup(a[..n]) && NoDup(a[n..])
    ensures forall x :: x in a[..n] ==> x in a && x !in a[n..]
    ensures forall x :: x in a[n..] ==> x in a && x !in a[..n]
    ensures forall x :: x in a ==> x in a[..n] || x in a[n..]
  {
    assert a == a[..n] + a[n..];
  }

  /** Device offset of byte `p` of a file whose blocks are `ids`. */
  function Addr(ids: seq<nat>, p: nat): nat {
    if p / B < |ids| then DATA_START + B * ids[p / B] + p % B else 0
  }

  function ByteAt(dev: seq<byte>, a: nat): byte {
    if a < |dev| then dev[a] else 0
  }

  /** The contents of a file: its blocks read in order, cut at its size. */
  function Bytes(dev: seq<byte>, ids: seq<nat>, size: nat): (r: seq<byte>)
    ensures |r| == size
  {
    seq(size, p requires 0 <= p => ByteAt(dev, Addr(ids, p)))
  }

  function SetByte(dev: seq<byte>, a: nat, x: byte): (r: seq<byte>)
    ensures |r| == |dev|
  {
    if a < |dev| then dev[a := x] else dev
  }

  /** Reference definition of a file write: one byte after the other. */
  function Put(dev: seq<byte>, ids: seq<nat>, off: nat, buf: seq<byte>): (r: seq<byte>)
    ensures |r| == |dev|
    decreases |buf|
  {
    if buf == [] then dev
    else
      var n := |buf| - 1;
      SetByte(Put(dev, ids, off, buf[..n]), Addr(ids, off + n), buf[n])
  }

  lemma AddrInjective(ids: seq<nat>, p: nat, q: nat)
    requires NoDup(ids) && p / B < |ids| && q / B < |ids| && p != q
    ensures Addr(ids, p) != Addr(ids, q)
  {
    if p / B != q / B {
      assert ids[p / B] != ids[q / B];
    }
  }

  lemma AddrDisjoint(ids: seq<nat>, other: seq<nat>, p: nat, q: nat)
    requires p / B < |ids| && q / B < |other|
    requires forall x :: x in ids ==> x !in other
    ensures Addr(ids, p) != Addr(other, q)
  {
    assert ids[p / B] in ids && other[q / B] in other;
    assert ids[p / B] != other[q / B];
  }

  lemma AddrInRange(ids: seq<nat>, p: nat, num: nat, devSize: nat)
    requires p / B < |ids| && forall x :: x in ids ==> x < num
    requires DATA_START + num * B <= devSize
    ensures DATA_START <= Addr(ids, p) < DATA_START + num * B
  {
    assert ids[p / B] in ids;
  }

  /** What a write changes: position `off + k` of the file holds `buf[k]`. */
  lemma {:induction false} PutHits(dev: seq<byte>, ids: seq<nat>, off: nat, buf: seq<byte>, k: nat, num: nat)
    requires k < |buf| && NoDup(ids) && (forall x :: x in ids ==> x < num)
    requires (off + |buf| - 1) / B < |ids| && DATA_START + num * B <= |dev|
    ensures ByteAt(Put(dev, ids, off, buf), Addr(ids, off + k)) == buf[k]
    decreases |buf|
  {
    var n := |buf| - 1;
    AddrInRange(ids, off + n, num, |dev|);
    if k < n {
      PutHits(dev, ids, off, buf[..n], k, num);
      AddrInjective(ids, off + k, off + n);
    }
  }

  /** What a write keeps: every address that is none of the written positions. */
  lemma {:induction false} PutMisses(dev: seq<byte>, ids: seq<nat>, off: nat, buf: seq<byte>, a: nat)
    requires forall p: nat :: off <= p < off + |buf| ==> Addr(ids, p) != a
    ensures ByteAt(Put(dev, ids, off, buf), a) == ByteAt(dev, a)
    decreases |buf|
  {
    if buf != [] {
      var n := |buf| - 1;
      PutMisses(dev, ids, off, buf[..n], a);
      assert Addr(ids, off + n) != a;
    }
  }
}
