/** Bytes, little-endian words and bits inside a disk block. */
module Bytes {

  type byte = x: int | 0 <= x < 0x100
  type u16 = x: int | 0 <= x < 0x1_0000
  type u32 = x: int | 0 <= x < 0x1_0000_0000

  const BLOCKSIZE := 2048
  const WORDS := 512

  function Zeros(n: nat): (z: seq<byte>)
    ensures |z| == n && forall k :: 0 <= k < n ==> z[k] == 0
  {
    seq(n, _ => 0)
  }

  type Block = b: seq<byte> | |b| == BLOCKSIZE witness Zeros(BLOCKSIZE)

  /** memcpy(b + o, s, |s|). */
  function Splice(b: seq<byte>, o: nat, s: seq<byte>): (r: seq<byte>)
    requires o + |s| <= |b|
    ensures |r| == |b|
    ensures forall k :: 0 <= k < |b| ==> r[k] == if o <= k < o + |s| then s[k - o] else b[k]
  {
    b[..o] + s + b[o + |s|..]
  }

  function U16At(b: seq<byte>, o: nat): u16
    requires o + 2 <= |b|
  {
    (b[o] as int) + 0x100 * (b[o + 1] as int)
  }

  function U32At(b: seq<byte>, o: nat): u32
    requires o + 4 <= |b|
  {
    (b[o] as int) + 0x100 * (b[o + 1] as int) + 0x1_0000 * (b[o + 2] as int) + 0x100_0000 * (b[o + 3] as int)
  }

  function LE16(v: u16): seq<byte> {
    [v % 0x100, v / 0x100]
  }

  function LE32(v: u32): (s: seq<byte>)
    ensures |s| == 4 && U32At(s, 0) == v
  {
    [v % 0x100, v / 0x100 % 0x100, v / 0x1_0000 % 0x100, v / 0x100_0000]
  }

  function PutU16(b: seq<byte>, o: nat, v: u16): (r: seq<byte>)
    requires o + 2 <= |b|
    ensures |r| == |b| && U16At(r, o) == v
  {
    Splice(b, o, LE16(v))
  }

  function PutU32(b: seq<byte>, o: nat, v: u32): (r: seq<byte>)
    requires o + 4 <= |b|
    ensures |r| == |b| && U32At(r, o) == v
  {
    Splice(b, o, LE32(v))
  }

  /** A store leaves every disjoint word of the block alone. */
  lemma PutU32Elsewhere(b: seq<byte>, o: nat, v: u32, q: nat)
    requires o + 4 <= |b| && q + 4 <= |b|
    requires q + 4 <= o || o + 4 <= q
    ensures U32At(PutU32(b, o, v), q) == U32At(b, q)
  {
  }

  /** Bit k of a value: x & (1 << k). */
  predicate Bit(x: nat, k: nat)
    decreases k
  {
    if k == 0 then x % 2 == 1 else Bit(x / 2, k - 1)
  }

  /** x | (1 << k) */
  function SetBit(x: nat, k: nat): (r: nat)
    ensures r >= x
    decreases k
  {
    if k == 0 then x / 2 * 2 + 1 else 2 * SetBit(x / 2, k - 1) + x % 2
  }

  /** x & ~(1 << k) */
  function ClearBit(x: nat, k: nat): (r: nat)
    ensures r <= x
    decreases k
  {
    if k == 0 then x / 2 * 2 else 2 * ClearBit(x / 2, k - 1) + x % 2
  }

  lemma {:induction false} BitLaws(x: nat, k: nat, j: nat)
    ensures Bit(SetBit(x, k), j) == (j == k || Bit(x, j))
    ensures Bit(ClearBit(x, k), j) == (j != k && Bit(x, j))
    decreases k
  {
    var s, c := SetBit(x, k), ClearBit(x, k);
    if k > 0 {
      assert s / 2 == SetBit(x / 2, k - 1) && c / 2 == ClearBit(x / 2, k - 1);
      if j > 0 {
        BitLaws(x / 2, k - 1, j - 1);
      }
    }
  }

  /** Setting a bit below w keeps a value below 2^w, so a byte stays a byte. */
  lemma {:induction false} SetBitRange(x: nat, k: nat, w: nat)
    requires k < w && x < Pow2(w)
    ensures SetBit(x, k) < Pow2(w)
    decreases k
  {
    if k > 0 {
      SetBitRange(x / 2, k - 1, w - 1);
    }
  }

  function Pow2(w: nat): (r: nat)
    ensures r > 0
  {
    if w == 0 then 1 else 2 * Pow2(w - 1)
  }
}
