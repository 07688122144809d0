/** The formats on disk and in memory, byte by byte and word by word. */
module Formats {
  import opened Bytes
  import opened Layout
  import Bitmap
  import InodeTable
  import FileData
  import DirBlock
  import UserMemory

  /** A word of four bytes, the lowest first. */
  function Word(a: byte, b: byte, c: byte, d: byte): int {
    a + 256 * b as int + 65536 * c as int + 16777216 * d as int
  }

  /** Words are stored lowest byte first. */
  lemma StoredWord(b: seq<byte>, o: nat, v: u32, h: u16)
    requires o + 4 <= |b|
    ensures var r := PutU32(b, o, v); Word(r[o], r[o + 1], r[o + 2], r[o + 3]) == v
    ensures var r := PutU16(b, o, h); r[o] as int + 256 * r[o + 1] as int == h
    ensures U32At(b, o) == Word(b[o], b[o + 1], b[o + 2], b[o + 3]) && U16At(b, o) == b[o] as int + 256 * b[o + 1] as int
  {
    var r := PutU32(b, o, v);
    assert U32At(r, o) == v;
    assert U16At(PutU16(b, o, h), o) == h;
  }

  lemma HalfThenDivide(x: nat, p: nat)
    requires p > 0
    ensures x / 2 / p == x / (2 * p)
  {
    var q := x / (2 * p);
    var r := x % (2 * p);
    assert x == 2 * (p * q) + r;
    assert x / 2 == p * q + r / 2 && r / 2 < p;
    Quotient(x / 2, p, q, r / 2);
  }

  lemma Quotient(y: nat, p: nat, q: nat, r: nat)
    requires r < p && y == p * q + r
    ensures y / p == q
  {
    var d := y / p;
    assert y == p * d + y % p;
    Multiples(p, d, q);
    Multiples(p, q, d);
  }

  lemma Multiples(p: nat, a: nat, b: nat)
    ensures a < b ==> p * a + p <= p * b
  {
    assert p * b == p * a + p * (b - a);
    if a < b {
      assert p * (b - a) == p + p * (b - a - 1);
    }
  }

  /** Bit k of a byte is its k-th binary digit. */
  lemma {:induction false} BitIs(x: nat, k: nat)
    ensures Bit(x, k) <==> x / Pow2(k) % 2 == 1
  {
    if k > 0 {
      BitIs(x / 2, k - 1);
      HalfThenDivide(x, Pow2(k - 1));
    }
  }

  /** Bit i of a map is bit i % 8 of byte i / 8. */
  lemma MapBit(m: Block, i: nat, b: UserMemory.RamMap, f: nat)
    requires i < Bitmap.BITS && f < UserMemory.FRAMES
    ensures Bitmap.TestBit(m, i) <==> m[i / 8] / Pow2(i % 8) % 2 == 1
    ensures UserMemory.Marked(b, f) <==> b[f / 8] / Pow2(f % 8) % 2 == 1
  {
    BitIs(m[i / 8], i % 8);
    BitIs(b[f / 8], f % 8);
  }

  /** s_free_blocks_count is word 3 of the superblock, which starts at byte 1024 of block 0;
      bg_free_blocks_count is the half-word at byte 12 of block 1. */
  lemma Counters(disk: Disk)
    requires |disk| > 1
    ensures Bitmap.SuperFree(disk) == Word(disk[0][1036], disk[0][1037], disk[0][1038], disk[0][1039])
    ensures Bitmap.GroupFree(disk) == disk[1][12] as int + 256 * disk[1][13] as int
  {
  }

  /** The fields of struct ext2_inode the operations use. */
  lemma InodeFields(s: seq<byte>, k: nat)
    requires |s| == 128 && k < 15
    ensures var i := InodeTable.Decode(s);
            && i.size == Word(s[4], s[5], s[6], s[7])
            && i.blocks == Word(s[28], s[29], s[30], s[31])
            && i.block[k] == Word(s[40 + 4 * k], s[41 + 4 * k], s[42 + 4 * k], s[43 + 4 * k])
            && (IsDir(i) <==> s[1] / 16 == 4)
  {
    var w := seq(32, j requires 0 <= j < 32 => U32At(s, 4 * j));
    assert w[10..25][k] == w[10 + k];
    assert U32At(s, 0) % 0x1_0000 == s[0] as int + 256 * s[1] as int;
  }

  /** Inode n lies in block (n - 1) / 16 of the table, 128 bytes behind the one before it. */
  lemma InodePlace(g: Geometry, n: nat)
    requires n > 0
    ensures InodeTable.InodeBlock(g, 1) == g.inodeStart && InodeTable.InodeOffset(1) == 0
    ensures InodeTable.InodeBlock(g, n) * 2048 + InodeTable.InodeOffset(n) == g.inodeStart * 2048 + (n - 1) * 128
  {
  }

  /** struct ext2_dir_entry_2 */
  lemma RecordFields(b: Block, o: nat)
    requires DirBlock.RecOk(b, o)
    ensures o + 8 + b[o + 6] as int <= 2048
    ensures var r := DirBlock.RecAt(b, o);
            && r.ino == Word(b[o], b[o + 1], b[o + 2], b[o + 3])
            && r.len == b[o + 4] as int + 256 * b[o + 5] as int
            && r.name == b[o + 8..o + 8 + b[o + 6] as int]
  {
    DirBlock.LenFacts(b, o);
  }

  /** Where positions hang in the pointer tree, and what an entry of a pointer table is. */
  lemma TreeShape(disk: Disk, i: Inode, t: nat, k: nat)
    requires 0 < t < |disk| && k < 512
    ensures PathOf(0) == Dir(0) && PathOf(11) == Dir(11) && PathOf(12) == IndData(0) && PathOf(523) == IndData(511)
    ensures PathOf(524) == TabData(0, 0) && PathOf(1035) == TabData(0, 511) && PathOf(1036) == TabData(1, 0)
    ensures Ptr(disk, i, Ind) == i.block[12] && Ptr(disk, i, Dbl) == i.block[13]
    ensures Entry(disk, t, k) == Word(disk[t][4 * k], disk[t][4 * k + 1], disk[t][4 * k + 2], disk[t][4 * k + 3])
  {
  }

  /** i_blocks counts sectors of 512 bytes, four to a block. */
  lemma Sectors(x: u32)
    requires x + 4 < 0x1_0000_0000
    ensures FileData.AddBlocks(x, 1) == x + 4
  {
  }

  /** Directory words carry 0x31, table words 0xFFE, behind the frame's address. */
  lemma PageWords(f: nat)
    requires f < UserMemory.FRAMES
    ensures UserMemory.Pde(f) == 4096 * f + 49 && UserMemory.TableAt(4096 * f + 49) == f
    ensures UserMemory.Pte(f) == 4096 * f + 4094 && UserMemory.FrameAt(4096 * f + 4094) == f
  {
    UserMemory.WordFrames(f);
  }

  /** User page k has the addresses from 0x80000000 + 4096 * k on: directory word address / 1 MiB, table word
      address % 1 MiB / 4096. */
  lemma PageSlot(m: UserMemory.Mem, p: nat, k: nat)
    requires UserMemory.Shape(m) && p < UserMemory.NPROCS && k < UserMemory.LIMIT
    ensures var address := 0x8000_0000 + 4096 * k;
            var t := UserMemory.TableAt(m.pgdir[p][address / 0x10_0000]);
            t < UserMemory.FRAMES ==> UserMemory.Word(m, p, k) == m.ram[t][address % 0x10_0000 / 0x1000]
  {
    AddressParts(k);
  }

  lemma AddressParts(k: nat)
    ensures (0x8000_0000 + 4096 * k) / 0x10_0000 == 2048 + k / 256
    ensures (0x8000_0000 + 4096 * k) % 0x10_0000 / 0x1000 == k % 256
  {
    assert k == 256 * (k / 256) + k % 256;
  }
}
