/** lib/device.cc: whole transfers built from short ones, and the range check. */
module Devices {
  import opened Geometry

  /** What the kernel does with one pread or pwrite: it moves at most `upto`
      bytes, or is interrupted, or fails with another error. */
  datatype Attempt = Moves(upto: nat) | Interrupted | Fails

  /** `dst` with `src` laid over it from `at` on. */
  function Overlaid(dst: seq<byte>, at: nat, src: seq<byte>): seq<byte>
    requires at + |src| <= |dst|
  {
    dst[..at] + src + dst[at + |src|..]
  }

  lemma OverlaidNothing(dst: seq<byte>, at: nat)
    requires at <= |dst|
    ensures Overlaid(dst, at, []) == dst
  { }

  lemma OverlaidMore(dst: seq<byte>, at: nat, src: seq<byte>, k: nat, r: nat)
    requires k + r <= |src| && at + k + r <= |dst|
    ensures Overlaid(Overlaid(dst, at, src[..k]), at + k, src[k..k + r]) == Overlaid(dst, at, src[..k + r])
  { }

  class Device {
    const data: array<byte>

    constructor (d: array<byte>)
      ensures data == d
    {
      data := d;
    }

    /** One system call at `offset + done` for `left` bytes: how many it moved. */
    method Transfer(writing: bool, buf: array<byte>, done: nat, left: nat, offset: nat, upto: nat) returns (r: nat)
      requires buf != data && done + left <= buf.Length && offset + done <= data.Length
      modifies if writing then data else buf
      ensures r <= upto && r <= left && offset + done + r <= data.Length
      ensures r == 0 ==> upto == 0 || left == 0 || offset + done == data.Length
      ensures writing ==> data[..] == Overlaid(old(data[..]), offset + done, buf[done..done + r])
      ensures !writing ==> buf[..] == Overlaid(old(buf[..]), done, data[offset + done..offset + done + r])
    {
      r := if upto < left then upto else left;
      if offset + done + r > data.Length { r := data.Length - offset - done; }
      if writing {
        forall j | 0 <= j < r { data[offset + done + j] := buf[done + j]; }
      } else {
        forall j | 0 <= j < r { buf[done + j] := data[offset + done + j]; }
      }
    }

    /** wrapFull over pread or pwrite: the call is repeated until everything is
        moved, nothing more moves, or it fails. `script` is what the kernel will
        do; after its end every call moves all it can. */
    method WrapFull(writing: bool, buf: array<byte>, count: nat, offset: nat, script: seq<Attempt>)
      returns (total: int, ghost moved: nat)
      requires buf != data && count <= buf.Length && offset <= data.Length
      modifies if writing then data else buf
      ensures moved <= count && offset + moved <= data.Length && (total == moved || total == -1)
      ensures writing ==> data[..] == Overlaid(old(data[..]), offset, buf[..moved])
      ensures !writing ==> buf[..] == Overlaid(old(buf[..]), 0, data[offset..offset + moved])
      ensures total == -1 ==> Fails in script
      ensures 0 <= total < count ==> Moves(0) in script || offset + total == data.Length
    {
      hide Overlaid;
      ghost var src := if writing then buf[..] else data[offset..];
      ghost var dst := if writing then data[..] else buf[..];
      ghost var to := if writing then offset else 0;
      var b, left, i := 0, count, 0;
      total := 0;
      OverlaidNothing(dst, to);
      while true
        invariant 0 <= i <= |script| && 0 <= b <= |src| && 0 <= left && b + left == count && total == b
        invariant offset + b <= data.Length && to + b <= |dst| && |dst| == (if writing then data.Length else buf.Length)
        invariant src == if writing then buf[..] else data[offset..]
        invariant writing ==> data[..] == Overlaid(dst, offset, src[..b])
        invariant !writing ==> buf[..] == Overlaid(dst, 0, src[..b])
        decreases |script| - i, left
      {
        var attempt := if i < |script| then script[i] else Moves(left);
        var scripted := i < |script|;
        if scripted { i := i + 1; }
        if attempt == Fails {
          assert src[..b] == if writing then buf[..b] else data[offset..offset + b];
          return -1, b;
        }
        if attempt == Interrupted {
          if left == 0 { break; }
          continue;
        }
        var r := Transfer(writing, buf, b, left, offset, attempt.upto);
        OverlaidMore(dst, to, src, b, r);
        assert src[b..b + r] == if writing then buf[b..b + r] else data[offset + b..offset + b + r];
        total := total + r;
        b := b + r;
        left := left - r;
        if r == 0 || left == 0 {
          assert left > 0 ==> offset + b == data.Length || (scripted && attempt == Moves(0));
          break;
        }
      }
      assert src[..b] == if writing then buf[..b] else data[offset..offset + b];
      moved := b;
    }

    /** PreadCache and PreadDirect. */
    method Pread(buf: array<byte>, len: nat, offset: nat, script: seq<Attempt>) returns (n: int)
      requires buf != data && len <= buf.Length
      modifies buf
      ensures offset + len > data.Length ==> n == -1 && buf[..] == old(buf[..])
      ensures 0 <= n ==>
        n <= len && offset + n <= data.Length && buf[..] == Overlaid(old(buf[..]), 0, data[offset..offset + n])
      ensures offset + len <= data.Length && Moves(0) !in script && Fails !in script ==> n == len
    {
      if offset + len > data.Length { return -1; }
      ghost var moved: nat;
      n, moved := WrapFull(false, buf, len, offset, script);
    }

    /** PwriteCache and PwriteDirect. */
    method Pwrite(buf: array<byte>, len: nat, offset: nat, script: seq<Attempt>) returns (n: int)
      requires buf != data && len <= buf.Length
      modifies data
      ensures offset + len > data.Length ==> n == -1 && data[..] == old(data[..])
      ensures 0 <= n ==> n <= len && offset + n <= data.Length && data[..] == Overlaid(old(data[..]), offset, buf[..n])
      ensures offset + len <= data.Length && Moves(0) !in script && Fails !in script ==> n == len
    {
      if offset + len > data.Length { return -1; }
      ghost var moved: nat;
      n, moved := WrapFull(true, buf, len, offset, script);
    }
  }
}
