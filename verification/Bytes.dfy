/** Byte buffers: host memory, storage and shared memory as flat arrays of bytes. */
module Bytes {
  import opened NvmeTypes

  function Zeros(n: nat): (r: seq<u8>)
    ensures |r| == n && forall k :: 0 <= k < n ==> r[k] == 0
  {
    seq(n, (k: nat) => 0)
  }

  /** The n bytes at an address. */
  function Peek(m: seq<u8>, at: nat, n: nat): (r: seq<u8>)
    requires at + n <= |m|
    ensures |r| == n
  {
    m[at..at + n]
  }

  /** Memory m with the bytes at an address overwritten. */
  function Poke(m: seq<u8>, at: nat, bytes: seq<u8>): (r: seq<u8>)
    requires at + |bytes| <= |m|
    ensures |r| == |m|
    ensures forall k :: 0 <= k < |m| ==> r[k] == if at <= k < at + |bytes| then bytes[k - at] else m[k]
  {
    m[..at] + bytes + m[at + |bytes|..]
  }

  /** A little-endian 32-bit word. */
  function Word32(m: seq<u8>, at: nat): u32
    requires at + 4 <= |m|
  {
    var b0: int, b1: int, b2: int, b3: int := m[at], m[at + 1], m[at + 2], m[at + 3];
    b0 + 0x100 * b1 + 0x1_0000 * b2 + 0x100_0000 * b3
  }

  function Word64(m: seq<u8>, at: nat): u64
    requires at + 8 <= |m|
  {
    Word32(m, at) + 0x1_0000_0000 * Word32(m, at + 4)
  }

  /** The bytes of a word in memory, least significant first. */
  function Le32(x: u32): (r: seq<u8>)
    ensures |r| == 4
  {
    [x % 0x100, x / 0x100 % 0x100, x / 0x1_0000 % 0x100, x / 0x100_0000]
  }

  function Le64(x: u64): (r: seq<u8>)
    ensures |r| == 8
  {
    Le32(x % 0x1_0000_0000) + Le32(x / 0x1_0000_0000)
  }

  lemma {:induction false} SliceSlice(m: seq<u8>, at: nat, n: nat, i: nat, j: nat)
    requires at + n <= |m| && i <= j <= n
    ensures m[at..at + n][i..j] == m[at + i..at + j]
  {
    var a, b := m[at..at + n][i..j], m[at + i..at + j];
    assert |a| == |b| && forall k :: 0 <= k < |a| ==> a[k] == b[k];
  }

  lemma {:induction false} FourBytes(x: u32)
    ensures x % 0x100 + 0x100 * (x / 0x100 % 0x100) + 0x1_0000 * (x / 0x1_0000 % 0x100) + 0x100_0000 * (x / 0x100_0000)
            == x
  {
    var a: int := x / 0x100;
    var b: int := a / 0x100;
    assert x / 0x1_0000 == b && x / 0x100_0000 == b / 0x100;
  }

  lemma {:induction false} ReadsLe32(m: seq<u8>, at: nat, x: u32)
    requires at + 4 <= |m| && m[at..at + 4] == Le32(x)
    ensures Word32(m, at) == x
  {
    var le := Le32(x);
    FourBytes(x);
    assert m[at] == le[0] && m[at + 1] == le[1] && m[at + 2] == le[2] && m[at + 3] == le[3] by {
      assert m[at..at + 4][0] == le[0] && m[at..at + 4][1] == le[1];
      assert m[at..at + 4][2] == le[2] && m[at..at + 4][3] == le[3];
    }
  }

  /** A word stored with its least significant byte first is read back. */
  lemma {:induction false} ReadsLe64(m: seq<u8>, at: nat, x: u64)
    requires at + 8 <= |m| && m[at..at + 8] == Le64(x)
    ensures Word64(m, at) == x
  {
    SliceSlice(m, at, 8, 0, 4);
    SliceSlice(m, at, 8, 4, 8);
    assert Le64(x)[0..4] == Le32(x % 0x1_0000_0000) && Le64(x)[4..8] == Le32(x / 0x1_0000_0000);
    ReadsLe32(m, at, x % 0x1_0000_0000);
    ReadsLe32(m, at + 4, x / 0x1_0000_0000);
  }

  lemma {:induction false} PeekPoke(m: seq<u8>, at: nat, bytes: seq<u8>)
    requires at + |bytes| <= |m|
    ensures Peek(Poke(m, at, bytes), at, |bytes|) == bytes
  {
  }

  /** Two adjoining writes are one. */
  lemma {:induction false} PokeTwice(m: seq<u8>, at: nat, a: seq<u8>, b: seq<u8>)
    requires at + |a| + |b| <= |m|
    ensures Poke(Poke(m, at, a), at + |a|, b) == Poke(m, at, a + b)
  {
  }

  /** A write of a stretch. */
  datatype Update = Update(at: nat, bytes: seq<u8>) {
    predicate Covers(k: int) { at <= k < at + |bytes| }
    predicate Fits(size: nat) { at + |bytes| <= size }
  }

  predicate AllFit(us: seq<Update>, size: nat)
  {
    forall i :: 0 <= i < |us| ==> us[i].Fits(size)
  }

  function Replay(m: seq<u8>, us: seq<Update>): (r: seq<u8>)
    requires AllFit(us, |m|)
    ensures |r| == |m|
    decreases |us|
  {
    if us == [] then m
    else
      assert us[0].Fits(|m|);
      Replay(Poke(m, us[0].at, us[0].bytes), us[1..])
  }

  /** The byte that the latest update covering an address put there, or the one before them all. */
  function Latest(us: seq<Update>, k: nat, before: u8): u8
    decreases |us|
  {
    if us == [] then before
    else
      var u := us[|us| - 1];
      if u.Covers(k) then u.bytes[k - u.at] else Latest(us[..|us| - 1], k, before)
  }

  lemma {:induction false} ReplayAppend(m: seq<u8>, us: seq<Update>, vs: seq<Update>)
    requires AllFit(us, |m|) && AllFit(vs, |m|)
    ensures AllFit(us + vs, |m|)
    ensures Replay(m, us + vs) == Replay(Replay(m, us), vs)
    decreases |us|
  {
    if us == [] {
      assert us + vs == vs;
    } else {
      assert (us + vs)[0] == us[0] && (us + vs)[1..] == us[1..] + vs;
      assert us[0].Fits(|m|);
      ReplayAppend(Poke(m, us[0].at, us[0].bytes), us[1..], vs);
    }
  }

  /** After any history of writes every byte is the one written last. */
  lemma {:induction false} ReplayIsLatest(m: seq<u8>, us: seq<Update>, k: nat)
    requires AllFit(us, |m|) && k < |m|
    ensures Replay(m, us)[k] == Latest(us, k, m[k])
    decreases |us|
  {
    if us != [] {
      var n := |us| - 1;
      assert us == us[..n] + [us[n]];
      assert us[n].Fits(|m|);
      ReplayAppend(m, us[..n], [us[n]]);
      ReplayIsLatest(m, us[..n], k);
      assert Replay(Replay(m, us[..n]), [us[n]]) == Poke(Replay(m, us[..n]), us[n].at, us[n].bytes) by {
        assert [us[n]][1..] == [];
      }
    }
  }

  /** A copy between buffers. */
  method Copy(dst: array<u8>, dstAt: nat, src: array<u8>, srcAt: nat, n: nat)
    requires dst != src && dstAt + n <= dst.Length && srcAt + n <= src.Length
    modifies dst
    ensures dst[..] == Poke(old(dst[..]), dstAt, Peek(src[..], srcAt, n))
  {
    forall k | 0 <= k < n {
      dst[dstAt + k] := src[srcAt + k];
    }
  }

  method ZeroMemory(dst: array<u8>, at: nat, n: nat)
    requires at + n <= dst.Length
    modifies dst
    ensures dst[..] == Poke(old(dst[..]), at, Zeros(n))
  {
    forall k | 0 <= k < n {
      dst[at + k] := 0;
    }
  }
}
