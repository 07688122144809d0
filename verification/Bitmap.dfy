/** The block bitmap and the two free-block counters that mirror it. */
module Bitmap {
  import opened Bytes
  import opened Layout

  const BITS := 8 * BLOCKSIZE

  /** tstbit */
  predicate TestBit(m: Block, i: nat)
    requires i < BITS
  {
    Bit(m[i / 8], i % 8)
  }

  function ByteSet(x: byte, k: nat): byte
    requires k < 8
  {
    assert Pow2(8) == 256 by { assert Pow2(4) == 16; }
    SetBitRange(x, k, 8);
    SetBit(x, k)
  }

  /** setbit */
  function Marked(m: Block, i: nat): (r: Block)
    requires i < BITS
    ensures forall j :: 0 <= j < BITS ==> TestBit(r, j) == (j == i || TestBit(m, j))
  {
    var r := m[i / 8 := ByteSet(m[i / 8], i % 8)];
    assert forall j :: 0 <= j < BITS ==> TestBit(r, j) == (j == i || TestBit(m, j)) by {
      forall j | 0 <= j < BITS ensures TestBit(r, j) == (j == i || TestBit(m, j)) {
        BitLaws(m[i / 8], i % 8, j % 8);
      }
    }
    r
  }

  /** clrbit */
  function Cleared(m: Block, i: nat): (r: Block)
    requires i < BITS
    ensures forall j :: 0 <= j < BITS ==> TestBit(r, j) == (j != i && TestBit(m, j))
  {
    var r := m[i / 8 := ClearBit(m[i / 8], i % 8)];
    assert forall j :: 0 <= j < BITS ==> TestBit(r, j) == (j != i && TestBit(m, j)) by {
      forall j | 0 <= j < BITS ensures TestBit(r, j) == (j != i && TestBit(m, j)) {
        BitLaws(m[i / 8], i % 8, j % 8);
      }
    }
    r
  }

  ghost predicate GeometryOk(g: Geometry, disk: Disk, base: set<nat>) {
    && 2 < g.maxBlocks == |disk| <= BITS
    && 1 < g.bitmap < g.inodeStart
    && g.inodeStart + g.inodeBlocks <= g.maxBlocks
    && 0 in base && 1 in base && g.bitmap in base
    && forall b :: g.inodeStart <= b < g.inodeStart + g.inodeBlocks ==> b in base
  }

  /** The clear bits of the bitmap. */
  ghost function FreeBlocks(g: Geometry, disk: Disk): set<nat>
    requires g.bitmap < |disk| && g.maxBlocks <= BITS
  {
    set b: nat | b < g.maxBlocks && !TestBit(disk[g.bitmap], b)
  }

  /** No block of the volume is free. */
  ghost predicate Full(g: Geometry, disk: Disk) {
    g.bitmap < |disk| && g.maxBlocks <= BITS && FreeBlocks(g, disk) == {}
  }

  /** s_free_blocks_count */
  function SuperFree(disk: Disk): u32
    requires |disk| > 0
  {
    U32At(disk[0], SUPER_FREE)
  }

  /** bg_free_blocks_count, a 16-bit field */
  function GroupFree(disk: Disk): u16
    requires |disk| > 1
  {
    U16At(disk[1], GROUP_FREE)
  }

  /** The bitmap marks exactly `used`, and both counters count its clear bits. */
  ghost predicate Accounted(g: Geometry, disk: Disk, used: set<nat>)
    requires 1 < g.bitmap < |disk| && g.maxBlocks <= BITS
  {
    && (forall b: nat :: b < g.maxBlocks ==> (TestBit(disk[g.bitmap], b) <==> b in used))
    && SuperFree(disk) == |FreeBlocks(g, disk)|
    && GroupFree(disk) == |FreeBlocks(g, disk)| % 0x1_0000
  }

  /** The disk with both counters moved by d (as 32- and 16-bit values). */
  function Counted(disk: Disk, d: int): (r: Disk)
    requires |disk| > 1
    ensures |r| == |disk| && forall b :: 2 <= b < |disk| ==> r[b] == disk[b]
  {
    disk[0 := PutU32(disk[0], SUPER_FREE, (SuperFree(disk) + d) % 0x1_0000_0000)]
        [1 := PutU16(disk[1], GROUP_FREE, (GroupFree(disk) + d) % 0x1_0000)]
  }

  function AfterAlloc(g: Geometry, disk: Disk, b: nat): (r: Disk)
    requires 1 < g.bitmap < |disk| && b < BITS
    ensures |r| == |disk|
    ensures forall c :: 2 <= c < |disk| && c != g.bitmap ==> r[c] == disk[c]
  {
    Counted(disk[g.bitmap := Marked(disk[g.bitmap], b)], -1)
  }

  function AfterFree(g: Geometry, disk: Disk, b: nat): (r: Disk)
    requires 1 < g.bitmap < |disk| && b < BITS
    ensures |r| == |disk|
    ensures forall c :: 2 <= c < |disk| && c != g.bitmap ==> r[c] == disk[c]
  {
    Counted(disk[g.bitmap := Cleared(disk[g.bitmap], b)], 1)
  }

  function Range(n: nat): (r: set<nat>)
    ensures |r| == n && forall k: nat :: k in r <==> k < n
  {
    if n == 0 then {} else Range(n - 1) + {n - 1}
  }

  lemma FreeBlocksBound(g: Geometry, disk: Disk)
    requires g.bitmap < |disk| && g.maxBlocks <= BITS
    ensures |FreeBlocks(g, disk)| <= g.maxBlocks
  {
    assert FreeBlocks(g, disk) <= Range(g.maxBlocks);
    SubsetSize(FreeBlocks(g, disk), Range(g.maxBlocks));
  }

  lemma SubsetSize<T>(a: set<T>, b: set<T>)
    requires a <= b
    ensures |a| <= |b|
  {
    assert b == a + (b - a);
  }

  lemma ModShift(n: nat, d: int)
    requires 0 <= n + d
    ensures (n % 0x1_0000 + d) % 0x1_0000 == (n + d) % 0x1_0000
  {
    assert n == n / 0x1_0000 * 0x1_0000 + n % 0x1_0000;
  }

  /** Counting from n, within the range a bitmap allows, the 16-bit field stays n modulo 2^16. */
  lemma CountedCounters(disk: Disk, d: int, n: nat)
    requires |disk| > 1 && SuperFree(disk) == n && GroupFree(disk) == n % 0x1_0000
    requires 0 <= n + d < 0x1_0000_0000
    ensures SuperFree(Counted(disk, d)) == n + d
    ensures GroupFree(Counted(disk, d)) == (n + d) % 0x1_0000
  {
    hide U32At;
    hide U16At;
    hide PutU32;
    hide PutU16;
    ModShift(n, d);
    var v: u32 := (SuperFree(disk) + d) % 0x1_0000_0000;
    var w: u16 := (GroupFree(disk) + d) % 0x1_0000;
    assert Counted(disk, d)[0] == PutU32(disk[0], SUPER_FREE, v);
    assert Counted(disk, d)[1] == PutU16(disk[1], GROUP_FREE, w);
  }

  lemma AllocAccounted(g: Geometry, disk: Disk, used: set<nat>, b: nat)
    requires 1 < g.bitmap < |disk| && g.maxBlocks <= BITS
    requires Accounted(g, disk, used) && b < g.maxBlocks && b !in used
    ensures Accounted(g, AfterAlloc(g, disk, b), used + {b})
  {
    var mid := disk[g.bitmap := Marked(disk[g.bitmap], b)];
    assert FreeBlocks(g, mid) == FreeBlocks(g, disk) - {b};
    FreeBlocksBound(g, disk);
    KeepBits(g, mid, -1, FreeBlocks(g, disk));
  }

  lemma FreeAccounted(g: Geometry, disk: Disk, used: set<nat>, b: nat)
    requires 1 < g.bitmap < |disk| && g.maxBlocks <= BITS
    requires Accounted(g, disk, used) && b < g.maxBlocks && b in used
    ensures Accounted(g, AfterFree(g, disk, b), used - {b})
  {
    var mid := disk[g.bitmap := Cleared(disk[g.bitmap], b)];
    assert FreeBlocks(g, mid) == FreeBlocks(g, disk) + {b};
    FreeBlocksBound(g, mid);
    KeepBits(g, mid, 1, FreeBlocks(g, disk));
  }

  lemma KeepBits(g: Geometry, mid: Disk, d: int, free: set<nat>)
    requires 1 < g.bitmap < |mid| && g.maxBlocks <= BITS
    requires SuperFree(mid) == |free| && GroupFree(mid) == |free| % 0x1_0000
    requires |FreeBlocks(g, mid)| == |free| + d <= BITS
    ensures Counted(mid, d)[g.bitmap] == mid[g.bitmap]
    ensures FreeBlocks(g, Counted(mid, d)) == FreeBlocks(g, mid)
    ensures SuperFree(Counted(mid, d)) == |FreeBlocks(g, mid)|
    ensures GroupFree(Counted(mid, d)) == |FreeBlocks(g, mid)| % 0x1_0000
  {
    CountedCounters(mid, d, |free|);
  }
}
