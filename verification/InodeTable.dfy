/** struct ext2_inode as it lies in the inode table: 32 little-endian words, sixteen inodes to a block. */
module InodeTable {
  import opened Bytes
  import opened Layout

  const INODESIZE := 128
  const INODES_PER_BLOCK := 16

  function Words(i: Inode): (w: seq<u32>)
    ensures |w| == 32
  {
    [i.modeUid, i.size, i.atime, i.ctime, i.mtime, i.dtime, i.gidLinks, i.blocks, i.flags, i.osd1] + i.block + i.tail
  }

  function FromWords(w: seq<u32>): (i: Inode)
    requires |w| == 32
  {
    Inode(w[0], w[1], w[2], w[3], w[4], w[5], w[6], w[7], w[8], w[9], w[10..25], w[25..32])
  }

  function Flatten(w: seq<u32>): (s: seq<byte>)
    ensures |s| == 4 * |w|
  {
    if w == [] then [] else LE32(w[0]) + Flatten(w[1..])
  }

  lemma AfterWord(a: seq<byte>, s: seq<byte>, o: nat)
    requires |a| == 4 && o + 4 <= |s|
    ensures U32At(a + s, 4 + o) == U32At(s, o)
  {
  }

  lemma {:induction false} FlattenAt(w: seq<u32>, k: nat)
    requires k < |w|
    ensures U32At(Flatten(w), 4 * k) == w[k]
  {
    if k == 0 {
      assert Flatten(w)[..4] == LE32(w[0]);
    } else {
      FlattenAt(w[1..], k - 1);
      AfterWord(LE32(w[0]), Flatten(w[1..]), 4 * (k - 1));
    }
  }

  function Encode(i: Inode): (s: seq<byte>)
    ensures |s| == INODESIZE
  {
    Flatten(Words(i))
  }

  function Decode(s: seq<byte>): Inode
    requires |s| == INODESIZE
  {
    FromWords(seq(32, k requires 0 <= k < 32 => U32At(s, 4 * k)))
  }

  lemma InodeRoundTrip(i: Inode)
    ensures Decode(Encode(i)) == i
  {
    var w := Words(i);
    forall k | 0 <= k < 32 ensures U32At(Encode(i), 4 * k) == w[k] {
      FlattenAt(w, k);
    }
    assert seq(32, k requires 0 <= k < 32 => U32At(Encode(i), 4 * k)) == w;
    assert w[10..25] == i.block && w[25..32] == i.tail;
  }

  function InodeBlock(g: Geometry, n: nat): nat
    requires n > 0
  {
    (n - 1) / INODES_PER_BLOCK + g.inodeStart
  }

  function InodeOffset(n: nat): (o: nat)
    requires n > 0
    ensures o + INODESIZE <= BLOCKSIZE
  {
    (n - 1) % INODES_PER_BLOCK * INODESIZE
  }

  /** Inode n as the inode table on disk has it. */
  function OnDisk(g: Geometry, disk: Disk, n: nat): Inode
    requires n > 0 && InodeBlock(g, n) < |disk|
  {
    Decode(disk[InodeBlock(g, n)][InodeOffset(n)..InodeOffset(n) + INODESIZE])
  }

  function Saved(g: Geometry, disk: Disk, n: nat, i: Inode): (r: Disk)
    requires n > 0 && InodeBlock(g, n) < |disk|
    ensures |r| == |disk| && forall b :: 0 <= b < |disk| && b != InodeBlock(g, n) ==> r[b] == disk[b]
  {
    disk[InodeBlock(g, n) := Splice(disk[InodeBlock(g, n)], InodeOffset(n), Encode(i))]
  }

  /** Saving inode n makes the table hold it, and leaves every other table entry alone. */
  lemma SavedInode(g: Geometry, disk: Disk, n: nat, i: Inode)
    requires n > 0 && InodeBlock(g, n) < |disk|
    ensures OnDisk(g, Saved(g, disk, n, i), n) == i
    ensures forall m :: m > 0 && m != n && InodeBlock(g, m) < |disk| ==>
              OnDisk(g, Saved(g, disk, n, i), m) == OnDisk(g, disk, m)
  {
    InodeRoundTrip(i);
    hide Encode;
    hide Decode;
    var b, o := InodeBlock(g, n), InodeOffset(n);
    assert Saved(g, disk, n, i)[b][o..o + INODESIZE] == Encode(i);
    forall m | m > 0 && m != n && InodeBlock(g, m) < |disk|
      ensures OnDisk(g, Saved(g, disk, n, i), m) == OnDisk(g, disk, m)
    {
      var p := InodeOffset(m);
      if InodeBlock(g, m) == b {
        assert p + INODESIZE <= o || o + INODESIZE <= p;
        assert Saved(g, disk, n, i)[b][p..p + INODESIZE] == disk[b][p..p + INODESIZE];
      }
    }
  }
}
