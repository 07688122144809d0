/** Linked directories on the volume: lookup, insertion and removal in the direct blocks of a directory inode. */
module Directories {
  import opened Bytes
  import opened Layout
  import opened Bitmap
  import opened Volume
  import opened InodeTable
  import opened FileData
  import opened Truncate
  import opened FileSystem
  import opened DirBlock
  import opened DirSpec
  import opened DirBytes

  /** A directory of n direct blocks, each a chain of records. */
  ghost predicate DirInode(disk: Disk, i: Inode, n: nat) {
    && n <= NDIRECT && i.size == n * BLOCKSIZE && i.block[IND] == 0 && i.block[DBL] == 0
    && forall k :: 0 <= k < n ==> i.block[k] < |disk| && Chain(disk[i.block[k]], 0)
  }

  ghost predicate DirsOk(v: Vol) {
    forall m :: m in v.inodes && IsDir(v.inodes[m]) ==> m in v.npos && DirInode(v.disk, v.inodes[m], v.npos[m])
  }

  /** The blocks of the directory. */
  ghost function DirBlocks(v: Vol, n: nat): (s: seq<Block>)
    requires n in v.inodes && n in v.npos && DirInode(v.disk, v.inodes[n], v.npos[n])
    ensures |s| == v.npos[n] && Chains(s) && forall k :: 0 <= k < |s| ==> s[k] == v.disk[v.inodes[n].block[k]]
  {
    seq(v.npos[n], k requires 0 <= k < v.npos[n] => v.disk[v.inodes[n].block[k]])
  }

  /** The directory as a list of record lists. */
  ghost function DirView(v: Vol, n: nat): (d: Dir)
    requires n in v.inodes && n in v.npos && DirInode(v.disk, v.inodes[n], v.npos[n])
    ensures |d| == v.npos[n] && NoEmptyBlock(d)
  {
    View(DirBlocks(v, n))
  }

  /** Where the byte comparison first succeeds. */
  ghost function FindBytes(v: Vol, n: nat, q: seq<byte>): (p: Place)
    requires n in v.inodes && n in v.npos && DirInode(v.disk, v.inodes[n], v.npos[n])
    ensures p.At? ==> p.block < v.npos[n] && p.rec < |DirView(v, n)[p.block]|
  {
    FindIn(DirBlocks(v, n), q, 0)
  }

  /** The inode number find_inode comes back with: the one of that record, 0 if there is none. */
  ghost function FoundIno(v: Vol, n: nat, q: seq<byte>): u32
    requires n in v.inodes && n in v.npos && DirInode(v.disk, v.inodes[n], v.npos[n])
  {
    match FindBytes(v, n, q)
    case Nowhere => 0
    case At(i, j) => DirView(v, n)[i][j].ino
  }

  lemma ViewAt(v: Vol, n: nat)
    requires n in v.inodes && n in v.npos && DirInode(v.disk, v.inodes[n], v.npos[n])
    ensures forall k :: 0 <= k < v.npos[n] ==> DirView(v, n)[k] == Recs(v.disk[v.inodes[n].block[k]], 0)
  {
  }

  /** Without a shadowing record the inode number found is the one the names say. */
  lemma FoundNamed(v: Vol, n: nat, q: seq<byte>)
    requires n in v.inodes && n in v.npos && DirInode(v.disk, v.inodes[n], v.npos[n])
    ensures FindBytes(v, n, q) == Find(DirView(v, n), q) <==> Unshadowed(DirBlocks(v, n), q, 0)
    ensures Unshadowed(DirBlocks(v, n), q, 0) ==> FoundIno(v, n, q) == Lookup(DirView(v, n), q)
  {
    hide Unshadowed;
    hide Find;
    hide FindIn;
    FindInExact(DirBlocks(v, n), q, 0);
  }

  /** A directory's direct slots: exactly the first npos are set, to distinct blocks it owns. */
  lemma DirSlots(g: Geometry, base: set<nat>, v: Vol, n: nat)
    requires VolOk(g, base, v) && n in v.inodes
    ensures n in v.npos
    ensures forall k :: 0 <= k < NDIRECT ==>
              var b := v.inodes[n].block[k];
              && (b != 0 <==> k < v.npos[n]) && b == Ptr(v.disk, v.inodes[n], PathOf(k))
              && (b != 0 ==> b in v.owner && v.owner[b] == Key(n, Dir(k)) && b < |v.disk|)
  {
    hide VolOk;
    hide Ptr;
    hide Dense;
    Walk(v.disk, v.inodes[n]);
    VolFacts(g, base, v, n);
    forall k | 0 <= k < NDIRECT
      ensures var b := v.inodes[n].block[k];
              && (b != 0 <==> k < v.npos[n]) && b == Ptr(v.disk, v.inodes[n], PathOf(k))
              && (b != 0 ==> b in v.owner && v.owner[b] == Key(n, Dir(k)) && b < |v.disk|)
    {
      OwnerAt(g, base, v, n, Dir(k));
      DirectMapped(v.disk, v.inodes[n], v.npos[n], k);
    }
  }

  lemma DirectMapped(disk: Disk, i: Inode, np: nat, k: nat)
    requires Dense(disk, i, np) && k < NDIRECT
    ensures Ptr(disk, i, Dir(k)) != 0 <==> k < np
  {
    hide Ptr;
    assert PathOf(k) == Dir(k);
  }

  /** What does not touch other inodes' blocks keeps every other directory. */
  lemma DirsKept(g: Geometry, base: set<nat>, v: Vol, v': Vol, n: nat)
    requires VolOk(g, base, v) && DirsOk(v) && OthersKept(v, v', n)
    requires n in v'.inodes && IsDir(v'.inodes[n]) ==> n in v'.npos && DirInode(v'.disk, v'.inodes[n], v'.npos[n])
    ensures DirsOk(v')
  {
    hide VolOk;
    hide Chain;
    forall m | m in v'.inodes && IsDir(v'.inodes[m]) && m != n
      ensures m in v'.npos && DirInode(v'.disk, v'.inodes[m], v'.npos[m])
    {
      DirSlots(g, base, v, m);
      assert DirInode(v.disk, v.inodes[m], v.npos[m]);
    }
  }

  /** Rewriting block k of a directory with a chain. */
  lemma StoreDir(g: Geometry, base: set<nat>, v: Vol, n: nat, k: nat, blk: Block, v': Vol)
    requires VolOk(g, base, v) && DirsOk(v) && n in v.inodes && IsDir(v.inodes[n])
    requires n in v.npos && k < v.npos[n] && k < NDIRECT && Chain(blk, 0)
    requires v.inodes[n].block[k] < |v.disk| && v' == v.(disk := v.disk[v.inodes[n].block[k] := blk])
    ensures VolOk(g, base, v') && DirsOk(v') && OthersKept(v, v', n) && MetaKept(g, base, v.disk, v'.disk)
    ensures DirBlocks(v', n) == DirBlocks(v, n)[k := blk]
  {
    hide VolOk;
    hide Ptr;
    hide Chain;
    hide OthersKept;
    hide ByteAt;
    hide Recs;
    var b := v.inodes[n].block[k];
    DirSlots(g, base, v, n);
    StoreStep(g, base, v, n, k, b, blk, v');
    StoredView(v, n, k, blk, v');
    DirsKept(g, base, v, v', n);
  }

  lemma StoredView(v: Vol, n: nat, k: nat, blk: Block, v': Vol)
    requires n in v.inodes && n in v.npos && DirInode(v.disk, v.inodes[n], v.npos[n]) && k < v.npos[n]
    requires v' == v.(disk := v.disk[v.inodes[n].block[k] := blk]) && Chain(blk, 0)
    requires forall j :: 0 <= j < v.npos[n] ==>
               v.inodes[n].block[j] in v.owner && v.owner[v.inodes[n].block[j]] == Key(n, Dir(j))
    ensures DirInode(v'.disk, v'.inodes[n], v'.npos[n]) && DirBlocks(v', n) == DirBlocks(v, n)[k := blk]
  {
    hide Chain;
    hide Recs;
    var i := v.inodes[n];
    forall j | 0 <= j < v.npos[n] ensures v'.disk[i.block[j]] == if j == k then blk else v.disk[i.block[j]] {
      if j != k { assert v.owner[i.block[j]] != v.owner[i.block[k]]; }
    }
  }

  // ---------------------------------------------------------------------------------------------
  // find_inode and insert_child

  /** find_inode over the direct blocks: the inode number behind a name, 0 if there is none or n is no directory. */
  method FindInode(fs: Ext2, n: nat, q: seq<byte>) returns (ino: nat)
    requires fs.Valid() && DirsOk(fs.State()) && n in fs.inodes
    ensures !IsDir(fs.inodes[n]) ==> ino == 0
    ensures IsDir(fs.inodes[n]) ==>
              && n in fs.npos && DirInode(fs.disk, fs.inodes[n], fs.npos[n])
              && ino == FoundIno(fs.State(), n, q)
              && (Unshadowed(DirBlocks(fs.State(), n), q, 0) ==> ino == Lookup(DirView(fs.State(), n), q))
  {
    hide VolOk;
    hide Chain;
    hide Recs;
    hide FirstMatch;
    hide Unshadowed;
    hide Lookup;
    hide RecOk;
    hide RecLen;
    hide U32At;
    ghost var v := fs.State();
    if !IsDir(fs.inodes[n]) {
      return 0;
    }
    DirSlots(fs.g, fs.base, v, n);
    FoundNamed(v, n, q);
    ghost var s := DirBlocks(v, n);
    var i := 0;
    while i < NDIRECT
      invariant i <= NDIRECT && i <= fs.npos[n] && FindIn(s, q, 0) == FindIn(s, q, i)
    {
      if fs.inodes[n].block[i] == 0 {
        return 0;
      }
      var buf := fs.disk[fs.inodes[n].block[i]];
      var found, at, prev := ScanBlock(buf, q);
      if found {
        RecInChain(buf, at);
        return U32At(buf, at);
      }
      i := i + 1;
    }
    return 0;
  }

  /** The record at a boundary is the one of that index in the chain. */
  lemma RecInChain(b: Block, at: nat)
    requires Chain(b, 0) && Reach(b, 0, at) && RecOk(b, at)
    ensures at + HEADER <= BLOCKSIZE && |Upto(b, 0, at)| < |Recs(b, 0)| && Recs(b, 0)[|Upto(b, 0, at)|] == RecAt(b, at)
    ensures Recs(b, 0)[..|Upto(b, 0, at)|] == Upto(b, 0, at) && RecAt(b, at).ino == U32At(b, at)
    ensures Chain(b, at) && Recs(b, 0) == Upto(b, 0, at) + Recs(b, at)
  {
    LenFacts(b, at);
    ReachChain(b, 0, at);
    hide RecLen;
  }

  /** The inode kept every field but i_size and slot k. */
  predicate SlotChanged(i: Inode, i': Inode, k: nat) {
    && i' == i.(size := i'.size, block := i'.block)
    && forall j :: 0 <= j < 15 && j != k ==> i'.block[j] == i.block[j]
  }

  datatype InsertResult = Done | NoBlocks | BeyondDirect

  /** strncpy(name, entry_name, 255) */
  function Name255(s: seq<byte>): (r: seq<byte>)
    ensures |r| <= 255 && (NulFree(s) ==> NulFree(r))
  {
    if |s| <= 255 then s else s[..255]
  }

  /** A fresh last block with one record. */
  lemma NewDirBlock(g: Geometry, base: set<nat>, v: Vol, w: Vol, n: nat, k: nat, b: u32, blk: Block,
                    size: u32, v': Vol)
    requires VolOk(g, base, v) && DirsOk(v) && n in v.inodes && IsDir(v.inodes[n]) && n in v.npos
    requires VolOk(g, base, w) && Grown(v, w, n) && MetaKept(g, base, v.disk, w.disk) && n in w.inodes && n in w.npos
    requires k == v.npos[n] < NDIRECT && w.npos[n] == k + 1 && size == (k + 1) * BLOCKSIZE
    requires w.inodes[n].block == v.inodes[n].block[k := b] && w.inodes[n].size as int == k * BLOCKSIZE
    requires Chain(blk, 0) && 0 < b < |w.disk|
    requires v' == w.(inodes := w.inodes[n := w.inodes[n].(size := size)], disk := w.disk[b := blk])
    ensures VolOk(g, base, v') && DirsOk(v') && OthersKept(v, v', n) && MetaKept(g, base, v.disk, v'.disk)
    ensures n in v'.inodes && n in v'.npos && DirInode(v'.disk, v'.inodes[n], v'.npos[n])
    ensures DirInode(v.disk, v.inodes[n], v.npos[n]) && DirBlocks(v', n) == DirBlocks(v, n) + [blk]
  {
    hide VolOk;
    hide Ptr;
    hide Chain;
    hide Recs;
    hide ByteAt;
    hide OthersKept;
    hide MetaKept;
    hide DirInode;
    var i := w.inodes[n].(size := size);
    var x := w.(inodes := w.inodes[n := i]);
    GrownKeepsOthers(v, w, n);
    FieldStep(g, base, w, n, i, x);
    DirSlots(g, base, w, n);
    DirSlots(g, base, x, n);
    StoreStep(g, base, x, n, k, b, blk, v');
    OthersKeptTransitive(v, w, x, n);
    OthersKeptTransitive(v, x, v', n);
    MetaKeptTransitive(g, base, v.disk, w.disk, v'.disk);
    GrownView(g, base, v, w, n, k, b, blk, size, v');
    DirsKept(g, base, v, v', n);
  }

  lemma GrownView(g: Geometry, base: set<nat>, v: Vol, w: Vol, n: nat, k: nat, b: u32, blk: Block,
                    size: u32, v': Vol)
    requires VolOk(g, base, v) && DirsOk(v) && n in v.inodes && IsDir(v.inodes[n]) && n in v.npos
    requires VolOk(g, base, w) && Grown(v, w, n) && n in w.inodes && n in w.npos
    requires k == v.npos[n] < NDIRECT && w.npos[n] == k + 1 && size == (k + 1) * BLOCKSIZE
    requires w.inodes[n].block == v.inodes[n].block[k := b] && Chain(blk, 0) && 0 < b < |w.disk|
    requires v' == w.(inodes := w.inodes[n := w.inodes[n].(size := size)], disk := w.disk[b := blk])
    ensures n in v'.inodes && n in v'.npos && DirInode(v'.disk, v'.inodes[n], v'.npos[n]) && IsDir(v'.inodes[n])
    ensures DirInode(v.disk, v.inodes[n], v.npos[n]) && DirBlocks(v', n) == DirBlocks(v, n) + [blk]
  {
    hide VolOk;
    hide Ptr;
    hide Chain;
    hide Recs;
    DirSlots(g, base, v, n);
    DirSlots(g, base, w, n);
    assert DirInode(v.disk, v.inodes[n], k);
    forall j | 0 <= j < k
      ensures w.inodes[n].block[j] == v.inodes[n].block[j] && v'.disk[v.inodes[n].block[j]] == v.disk[v.inodes[n].block[j]]
    {
      assert w.owner[w.inodes[n].block[j]] != w.owner[w.inodes[n].block[k]];
    }
  }

  /** insert_child at a null slot: a new block holding one record. */
  method AddDirBlock(fs: Ext2, n: nat, i: nat, child: u32, name: seq<byte>) returns (r: InsertResult)
    requires fs.Valid() && DirsOk(fs.State()) && n in fs.inodes && n in fs.npos && IsDir(fs.inodes[n])
    requires DirInode(fs.disk, fs.inodes[n], fs.npos[n]) && NulFree(name) && |name| <= 255
    requires i == fs.npos[n] < NDIRECT && fs.inodes[n].block[i] == 0
    modifies fs
    ensures fs.Valid() && DirsOk(fs.State()) && fs.base == old(fs.base) && fs.files == old(fs.files)
    ensures OthersKept(old(fs.State()), fs.State(), n) && MetaKept(fs.g, fs.base, old(fs.disk), fs.disk)
    ensures n in fs.inodes && n in fs.npos && DirInode(fs.disk, fs.inodes[n], fs.npos[n])
    ensures r == Done ==> DirBlocks(fs.State(), n) == PutRecord(old(DirBlocks(fs.State(), n)), i, child, name)
    ensures r == Done || r == NoBlocks
    ensures SlotChanged(old(fs.inodes[n]), fs.inodes[n], i)
    ensures r == NoBlocks ==> fs.State() == old(fs.State())
    ensures r == NoBlocks <==> Full(fs.g, old(fs.disk))
  {
    hide VolOk;
    hide Chain;
    hide Recs;
    hide OthersKept;
    hide MetaKept;
    hide Grown;
    hide WithRec;
    hide Ptr;
    hide Full;
    ghost var v := fs.State();
    StartProgress(fs.g, fs.base, v, n, 0);
    MapFacts(fs.g, fs.base, v, n, i);
    DirSlots(fs.g, fs.base, v, n);
    assert fs.inodes[n].size as int == i * BLOCKSIZE;
    var blk := fs.AllocRoot(n, i);
    if blk == 0 {
      return NoBlocks;
    }
    ghost var w := fs.State();
    VolFacts(fs.g, fs.base, w, n);
    DirSlots(fs.g, fs.base, w, n);
    fs.inodes := fs.inodes[n := fs.inodes[n].(size := fs.inodes[n].size + BLOCKSIZE)];
    var buf := WithRec(Zeros(BLOCKSIZE), 0, child, BLOCKLEN, name);
    OneRec(child, name);
    fs.disk := fs.disk[blk := buf];
    NewDirBlock(fs.g, fs.base, v, w, n, i, blk, buf, fs.inodes[n].size, fs.State());
    return Done;
  }

  /** insert_child at a mapped slot: the new record goes behind the block's last one, if that leaves room. */
  method SplitDirBlock(fs: Ext2, n: nat, i: nat, child: u32, name: seq<byte>) returns (ok: bool)
    requires fs.Valid() && DirsOk(fs.State()) && n in fs.inodes && n in fs.npos && IsDir(fs.inodes[n])
    requires DirInode(fs.disk, fs.inodes[n], fs.npos[n]) && NulFree(name) && |name| <= 255 && i < fs.npos[n]
    modifies fs
    ensures fs.Valid() && DirsOk(fs.State()) && fs.base == old(fs.base) && fs.files == old(fs.files)
    ensures OthersKept(old(fs.State()), fs.State(), n) && MetaKept(fs.g, fs.base, old(fs.disk), fs.disk)
    ensures n in fs.inodes && n in fs.npos && DirInode(fs.disk, fs.inodes[n], fs.npos[n])
    ensures ok <==> HasRoom(old(DirBlocks(fs.State(), n))[i], Ideal(|name|))
    ensures ok ==> DirBlocks(fs.State(), n) == PutRecord(old(DirBlocks(fs.State(), n)), i, child, name)
    ensures fs.inodes == old(fs.inodes) && (!ok ==> fs.State() == old(fs.State()))
  {
    hide VolOk;
    hide Chain;
    hide Recs;
    hide OthersKept;
    hide MetaKept;
    hide HasRoom;
    hide SplitBlock;
    ghost var v := fs.State();
    StartProgress(fs.g, fs.base, v, n, 0);
    DirSlots(fs.g, fs.base, v, n);
    var buf := fs.disk[fs.inodes[n].block[i]];
    var buf';
    ok, buf' := SplitBuf(buf, child, name);
    if ok {
      fs.disk := fs.disk[fs.inodes[n].block[i] := buf'];
      StoreDir(fs.g, fs.base, v, n, i, buf', fs.State());
    }
  }

  /** insert_child over the direct blocks. */
  method InsertChild(fs: Ext2, n: nat, child: u32, entryName: seq<byte>) returns (r: InsertResult)
    requires fs.Valid() && DirsOk(fs.State()) && n in fs.inodes && n in fs.npos && IsDir(fs.inodes[n])
    requires DirInode(fs.disk, fs.inodes[n], fs.npos[n]) && NulFree(entryName)
    modifies fs
    ensures fs.Valid() && DirsOk(fs.State()) && fs.base == old(fs.base) && fs.files == old(fs.files)
    ensures OthersKept(old(fs.State()), fs.State(), n) && MetaKept(fs.g, fs.base, old(fs.disk), fs.disk)
    ensures n in fs.inodes && n in fs.npos && DirInode(fs.disk, fs.inodes[n], fs.npos[n])
    ensures r == Done ==> DirBlocks(fs.State(), n) == WithChild(old(DirBlocks(fs.State(), n)), child, Name255(entryName))
    ensures r == Done ==> DirView(fs.State(), n) == Inserted(old(DirView(fs.State(), n)), child, Name255(entryName))
    ensures SlotChanged(old(fs.inodes[n]), fs.inodes[n], old(fs.npos[n]))
    ensures r != Done ==> fs.State() == old(fs.State())
    ensures var d := old(DirView(fs.State(), n)); var i := Room(d, Ideal(|Name255(entryName)|));
            && (r == Done <==> i < |d| || (i < NDIRECT && !Full(fs.g, old(fs.disk))))
            && (r == BeyondDirect <==> i == |d| == NDIRECT)
            && (r == NoBlocks <==> i == |d| < NDIRECT && Full(fs.g, old(fs.disk)))
  {
    hide VolOk;
    hide Chain;
    hide Recs;
    hide OthersKept;
    hide MetaKept;
    hide PutRecord;
    hide View;
    hide HasRoom;
    hide Room;
    hide NulFree;
    hide Full;
    var name := Name255(entryName);
    ghost var v, need := fs.State(), Ideal(|name|);
    ghost var s := DirBlocks(v, n);
    StartProgress(fs.g, fs.base, v, n, 0);
    ChildView(s, child, name);
    var i := 0;
    while i < NDIRECT
      invariant i <= NDIRECT && fs.State() == v && i <= v.npos[n] && fs.base == old(fs.base) && fs.files == old(fs.files)
      invariant forall k :: 0 <= k < i ==> !HasRoom(s[k], need)
    {
      DirSlots(fs.g, fs.base, v, n);
      if fs.inodes[n].block[i] == 0 {
        RoomAt(s, need, i);
        r := AddDirBlock(fs, n, i, child, name);
        return;
      }
      var ok := SplitDirBlock(fs, n, i, child, name);
      if ok {
        RoomAt(s, need, i);
        return Done;
      }
      i := i + 1;
    }
    RoomAt(s, need, NDIRECT);
    return BeyondDirect;
  }

  // ---------------------------------------------------------------------------------------------
  // remove_child

  /** The blocks the walks over a directory see: those of the direct slots before the first null one. */
  ghost function Seen(disk: Disk, i: Inode, k: nat): seq<Block>
    requires k <= NDIRECT
    decreases NDIRECT - k
  {
    if k == NDIRECT || i.block[k] == 0 || i.block[k] >= |disk| then []
    else [disk[i.block[k]]] + Seen(disk, i, k + 1)
  }

  lemma {:induction false} SeenIs(disk: Disk, i: Inode, k: nat, s: seq<Block>)
    requires k <= |s| <= NDIRECT && (|s| < NDIRECT ==> i.block[|s|] == 0)
    requires forall j :: 0 <= j < |s| ==> 0 < i.block[j] < |disk| && disk[i.block[j]] == s[j]
    ensures Seen(disk, i, k) == s[k..]
    decreases NDIRECT - k
  {
    if k < |s| {
      SeenIs(disk, i, k + 1, s);
      assert s[k..] == [s[k]] + s[k + 1..];
    }
  }

  /** On a valid volume they are all blocks of the directory. */
  lemma SeenAll(g: Geometry, base: set<nat>, v: Vol, n: nat)
    requires VolOk(g, base, v) && DirsOk(v) && n in v.inodes && IsDir(v.inodes[n])
    ensures n in v.npos && DirInode(v.disk, v.inodes[n], v.npos[n])
    ensures Seen(v.disk, v.inodes[n], 0) == DirBlocks(v, n)
  {
    hide VolOk;
    hide Ptr;
    hide Chain;
    hide Seen;
    DirSlots(g, base, v, n);
    SeenIs(v.disk, v.inodes[n], 0, DirBlocks(v, n));
    assert DirBlocks(v, n)[0..] == DirBlocks(v, n);
  }

  /** What remove_child does to slot k of directory n when the slot's block holds one record. */
  ghost predicate SlotDropped(g: Geometry, base: set<nat>, v: Vol, n: nat, k: nat, v': Vol) {
    && n in v.inodes && n in v.npos && k < v.npos[n] <= NDIRECT && v.inodes[n].block[k] < BITS
    && BLOCKSIZE <= v.inodes[n].size && 1 < g.bitmap < |v.disk| && g.maxBlocks <= BITS
    && var b, i := v.inodes[n].block[k], v.inodes[n];
       v' == Vol(AfterFree(g, v.disk, b), v.inodes[n := i.(block := i.block[k := 0], size := i.size - BLOCKSIZE)],
                 v.owner - {b}, v.npos[n := k])
  }

  /** The accounts are right again at once, and every other inode and the metadata are as before. */
  lemma DropSlot(g: Geometry, base: set<nat>, v: Vol, n: nat, k: nat, v': Vol)
    requires VolOk(g, base, v) && DirsOk(v) && n in v.inodes && IsDir(v.inodes[n])
    requires SlotDropped(g, base, v, n, k, v') && Accounted(g, v'.disk, Used(base, v) - {v.inodes[n].block[k]})
    ensures Loosened(g, base, v', n, {}) && OthersKept(v, v', n) && MetaKept(g, base, v.disk, v'.disk)
    ensures SameOn(v.disk, v'.disk, v.owner.Keys)
  {
    hide VolOk;
    hide Loosened;
    hide Accounted;
    hide AfterFree;
    hide Ptr;
    hide Dense;
    hide OthersKept;
    hide Rest;
    hide Chain;
    hide Recs;
    var b := v.inodes[n].block[k];
    var w := v.(inodes := v.inodes[n := v.inodes[n].(block := v.inodes[n].block[k := 0])],
                owner := Truncate.Without(v.owner, Subtree(v.owner, n, k)));
    DirSlots(g, base, v, n);
    StartLoose(g, base, v, n);
    SubtreeSplit(g, base, v, n, k);
    assert Subtree(v.owner, n, k) == {b};
    NullSlot(g, base, v, n, k, {}, w);
    assert {} + {b} == {b} && {b} - {b} == {};
    assert Used(base, w) + {b} == Used(base, v) by { OwnedNotBase(g, base, v, b); }
    FreeLoose(g, base, w, n, {b}, b, v'.disk);
    var x := w.(disk := v'.disk);
    assert v.owner - {b} == w.owner;
    LooseInode(g, base, x, n, v'.inodes[n], k);
    OthersKeptTransitive(v, w, x, n);
    OthersKeptSize(v, x, v', n, k);
    MetaAfterFree(g, base, v, b, v'.disk);
  }

  /** While n is taken apart its size and its prefix are free. */
  lemma LooseInode(g: Geometry, base: set<nat>, v: Vol, n: nat, i: Inode, np: nat)
    requires Loosened(g, base, v, n, {}) && n in v.inodes && n in v.npos && i.block == v.inodes[n].block
    ensures Loosened(g, base, v.(inodes := v.inodes[n := i], npos := v.npos[n := np]), n, {})
  {
    hide Accounted;
    hide Ptr;
    hide Owns;
    hide OthersOk;
    hide GeometryOk;
    var v' := v.(inodes := v.inodes[n := i], npos := v.npos[n := np]);
    SamePtrSize(v.disk, v.inodes[n], i);
    OwnsSamePtr(v.disk, v.disk, v.inodes, v'.inodes, v.owner);
    assert Used(base, v) == Used(base, v');
    LooseOthers(g, v, n, i, np);
  }

  lemma LooseOthers(g: Geometry, v: Vol, n: nat, i: Inode, np: nat)
    requires OthersOk(g, v, n) && n in v.inodes && n in v.npos
    ensures OthersOk(g, v.(inodes := v.inodes[n := i], npos := v.npos[n := np]), n)
  {
    hide Dense;
  }

  /** The walks see the blocks before slot k, whatever comes behind it. */
  lemma DropSeen(g: Geometry, base: set<nat>, v: Vol, n: nat, k: nat, v': Vol)
    requires VolOk(g, base, v) && DirsOk(v) && n in v.inodes && IsDir(v.inodes[n])
    requires SlotDropped(g, base, v, n, k, v') && SameOn(v.disk, v'.disk, v.owner.Keys)
    ensures n in v.npos && DirInode(v.disk, v.inodes[n], v.npos[n]) && n in v'.inodes
    ensures Seen(v'.disk, v'.inodes[n], 0) == DirBlocks(v, n)[..k]
  {
    hide VolOk;
    hide AfterFree;
    hide Ptr;
    hide Chain;
    hide Seen;
    DirSlots(g, base, v, n);
    var s := DirBlocks(v, n)[..k];
    SeenIs(v'.disk, v'.inodes[n], 0, s);
    assert s[0..] == s;
  }

  /** Slot k was the last one: a valid directory of the blocks before it. */
  lemma DropTail(g: Geometry, base: set<nat>, v: Vol, n: nat, k: nat, v': Vol)
    requires VolOk(g, base, v) && DirsOk(v) && n in v.inodes && IsDir(v.inodes[n])
    requires SlotDropped(g, base, v, n, k, v') && k + 1 == v.npos[n] && OthersKept(v, v', n)
    requires Loosened(g, base, v', n, {}) && SameOn(v.disk, v'.disk, v.owner.Keys)
    ensures VolOk(g, base, v') && DirsOk(v') && n in v'.inodes && n in v'.npos
    ensures DirInode(v.disk, v.inodes[n], v.npos[n])
    ensures DirInode(v'.disk, v'.inodes[n], v'.npos[n]) && DirBlocks(v', n) == DirBlocks(v, n)[..k]
  {
    hide VolOk;
    hide Loosened;
    hide AfterFree;
    hide Ptr;
    hide Dense;
    hide OthersKept;
    hide Chain;
    DirSlots(g, base, v, n);
    DirectDense(v'.disk, v'.inodes[n], k);
    CloseLoose(g, base, v', n, v'.inodes[n], k);
    assert v'.inodes[n := v'.inodes[n]] == v'.inodes && v'.npos[n := k] == v'.npos;
    TailBlocks(v, n, k, v');
    DirsKept(g, base, v, v', n);
  }

  /** Slot k was an earlier one: the set slots are no prefix any more, so no volume invariant holds. */
  lemma DropHole(g: Geometry, base: set<nat>, v: Vol, n: nat, k: nat, v': Vol)
    requires VolOk(g, base, v) && DirsOk(v) && n in v.inodes && IsDir(v.inodes[n])
    requires SlotDropped(g, base, v, n, k, v') && k + 1 < v.npos[n]
    ensures n in v'.inodes && forall np :: !Dense(v'.disk, v'.inodes[n], np)
    ensures !VolOk(g, base, v')
  {
    hide VolOk;
    hide AfterFree;
    hide Ptr;
    DirSlots(g, base, v, n);
    Walk(v'.disk, v'.inodes[n]);
    var i := v'.inodes[n];
    forall np ensures !Dense(v'.disk, i, np) {
      assert PathOf(k) == Dir(k) && PathOf(k + 1) == Dir(k + 1);
    }
    if VolOk(g, base, v') {
      OwnerAt(g, base, v', n, Dir(k));
    }
  }

  /** Freeing a block moves no other owned block and no other metadata. */
  lemma MetaAfterFree(g: Geometry, base: set<nat>, v: Vol, b: nat, disk': Disk)
    requires VolOk(g, base, v) && 1 < g.bitmap < |v.disk| && b < BITS && disk' == AfterFree(g, v.disk, b)
    ensures MetaKept(g, base, v.disk, disk') && SameOn(v.disk, disk', v.owner.Keys)
  {
    hide AfterFree;
    hide Owns;
    hide Accounted;
    hide FilesOk;
  }

  lemma OwnedNotBase(g: Geometry, base: set<nat>, v: Vol, b: nat)
    requires VolOk(g, base, v) && b in v.owner
    ensures b !in base
  {
    hide Ptr;
  }

  /** With no tables, the direct slots alone decide density. */
  lemma DirectDense(disk: Disk, i: Inode, k: nat)
    requires k <= NDIRECT && i.block[IND] == 0 && i.block[DBL] == 0
    requires forall j :: 0 <= j < NDIRECT ==> (i.block[j] != 0 <==> j < k)
    ensures Dense(disk, i, k)
  {
    Walk(disk, i);
    hide U32At;
  }

  lemma TailBlocks(v: Vol, n: nat, k: nat, v': Vol)
    requires n in v.inodes && n in v.npos && DirInode(v.disk, v.inodes[n], v.npos[n]) && k + 1 == v.npos[n]
    requires n in v'.inodes && n in v'.npos && v'.npos[n] == k && v'.inodes[n].size as int == k * BLOCKSIZE
    requires v'.inodes[n].block == v.inodes[n].block[k := 0] && |v'.disk| == |v.disk|
    requires forall j :: 0 <= j < k ==> v'.disk[v.inodes[n].block[j]] == v.disk[v.inodes[n].block[j]]
    ensures DirInode(v'.disk, v'.inodes[n], v'.npos[n]) && DirBlocks(v', n) == DirBlocks(v, n)[..k]
  {
    hide Chain;
  }

  /** The block of slot k, which held one record, is freed: wherever it is. */
  method DropDirBlock(fs: Ext2, n: nat, k: nat)
    requires fs.Valid() && DirsOk(fs.State()) && n in fs.inodes && n in fs.npos && IsDir(fs.inodes[n])
    requires DirInode(fs.disk, fs.inodes[n], fs.npos[n]) && k < fs.npos[n]
    modifies fs
    ensures fs.base == old(fs.base) && fs.files == old(fs.files) && n in fs.inodes && n in fs.npos && fs.npos[n] == k
    ensures SlotChanged(old(fs.inodes[n]), fs.inodes[n], k) && fs.inodes[n].block[k] == 0
    ensures fs.inodes[n].size as int == old(fs.inodes[n].size) - BLOCKSIZE
    ensures OthersKept(old(fs.State()), fs.State(), n) && MetaKept(fs.g, fs.base, old(fs.disk), fs.disk)
    ensures Loosened(fs.g, fs.base, fs.State(), n, {})
    ensures Seen(fs.disk, fs.inodes[n], 0) == old(DirBlocks(fs.State(), n))[..k]
    ensures fs.Valid() <==> k + 1 == old(fs.npos[n])
    ensures k + 1 < old(fs.npos[n]) ==> forall np :: !Dense(fs.disk, fs.inodes[n], np)
    ensures k + 1 == old(fs.npos[n]) ==>
              && DirsOk(fs.State()) && DirInode(fs.disk, fs.inodes[n], fs.npos[n])
              && DirBlocks(fs.State(), n) == old(DirBlocks(fs.State(), n))[..k]
  {
    hide VolOk;
    hide Accounted;
    hide Chain;
    hide OthersKept;
    hide MetaKept;
    hide AfterFree;
    hide Loosened;
    hide Dense;
    hide Seen;
    ghost var v := fs.State();
    DirSlots(fs.g, fs.base, v, n);
    VolFacts(fs.g, fs.base, v, n);
    BlockCount(fs.g, fs.base, v);
    var i := fs.inodes[n];
    var b := i.block[k];
    fs.DallocBlock(b, Used(fs.base, v));
    i := i.(block := i.block[k := 0], size := i.size - BLOCKSIZE);
    fs.inodes := fs.inodes[n := i];
    fs.owner := fs.owner - {b};
    fs.npos := fs.npos[n := k];
    DropSlot(fs.g, fs.base, v, n, k, fs.State());
    DropSeen(fs.g, fs.base, v, n, k, fs.State());
    if k + 1 == v.npos[n] {
      DropTail(fs.g, fs.base, v, n, k, fs.State());
    } else {
      DropHole(fs.g, fs.base, v, n, k, fs.State());
    }
  }

  /** The first match stands alone in a block that is not the last one. */
  ghost predicate LeavesHole(v: Vol, n: nat, q: seq<byte>)
    requires n in v.inodes && n in v.npos && DirInode(v.disk, v.inodes[n], v.npos[n])
  {
    var p := FindBytes(v, n, q);
    p.At? && |DirView(v, n)[p.block]| == 1 && p.block + 1 < v.npos[n]
  }

  /** remove_child over the direct blocks. */
  method RemoveChild(fs: Ext2, n: nat, q: seq<byte>) returns (ok: bool)
    requires fs.Valid() && DirsOk(fs.State()) && n in fs.inodes && n in fs.npos && IsDir(fs.inodes[n])
    requires DirInode(fs.disk, fs.inodes[n], fs.npos[n])
    modifies fs
    ensures fs.base == old(fs.base) && fs.files == old(fs.files) && n in fs.inodes && n in fs.npos
    ensures OthersKept(old(fs.State()), fs.State(), n) && MetaKept(fs.g, fs.base, old(fs.disk), fs.disk)
    ensures SlotChanged(old(fs.inodes[n]), fs.inodes[n], fs.npos[n])
    ensures ok <==> old(FindBytes(fs.State(), n, q)).At?
    ensures !ok ==> fs.State() == old(fs.State())
    ensures fs.Valid() <==> !old(LeavesHole(fs.State(), n, q))
    ensures !old(LeavesHole(fs.State(), n, q)) ==> DirsOk(fs.State()) && DirInode(fs.disk, fs.inodes[n], fs.npos[n])
    ensures ok && !old(LeavesHole(fs.State(), n, q)) ==>
              var d, p := old(DirView(fs.State(), n)), old(FindBytes(fs.State(), n, q));
              Removable(d, p.block, p.rec) && DirView(fs.State(), n) == Removed(d, p.block, p.rec)
    ensures old(LeavesHole(fs.State(), n, q)) ==>
              var s, p := old(DirBlocks(fs.State(), n)), old(FindBytes(fs.State(), n, q));
              && Seen(fs.disk, fs.inodes[n], 0) == s[..p.block]
              && Loosened(fs.g, fs.base, fs.State(), n, {}) && forall np :: !Dense(fs.disk, fs.inodes[n], np)
  {
    hide VolOk;
    hide Chain;
    hide Recs;
    hide OthersKept;
    hide MetaKept;
    hide FirstMatch;
    hide CanCut;
    hide Loosened;
    hide Dense;
    hide Seen;
    hide DirSpec.Without;
    hide View;
    hide DirBlocks;
    hide IsDir;
    hide Grown;
    ghost var v := fs.State();
    ghost var s, d := DirBlocks(v, n), DirView(v, n);
    DirSlots(fs.g, fs.base, v, n);
    StartProgress(fs.g, fs.base, v, n, 0);
    var i := 0;
    while i < NDIRECT
      invariant i <= v.npos[n] && i <= NDIRECT && fs.State() == v && fs.base == old(fs.base) && fs.files == old(fs.files)
      invariant FindIn(s, q, 0) == FindIn(s, q, i)
    {
      if fs.inodes[n].block[i] == 0 {
        return false;
      }
      var buf := fs.disk[fs.inodes[n].block[i]];
      assert d[i] == Recs(buf, 0);
      var c := CutBuf(buf, q);
      if c.Sole? {
        SoleMatch(buf, q);
        DropDirBlock(fs, n, i);
        return true;
      } else if c.Remains? {
        fs.disk := fs.disk[fs.inodes[n].block[i] := c.buf];
        StoreDir(fs.g, fs.base, v, n, i, c.buf, fs.State());
        return true;
      }
      i := i + 1;
    }
    return false;
  }

  lemma SoleMatch(b: Block, q: seq<byte>)
    requires Chain(b, 0) && FirstMatch(b, 0, q) >= 0
    ensures FirstMatch(b, 0, q) < |Recs(b, 0)|
  {
    FirstMatchRange(b, 0, q);
  }

  /** Of the entries of a directory, the walks still see all but the removed one if and only if it was not
      alone in a block before the last. */
  lemma HoleLoses(s: seq<Block>, k: nat)
    requires Chains(s) && k < |s| && |View(s)[k]| == 1
    ensures Chains(s[..k])
    ensures var p, e := Position(View(s), k, 0), Entries(View(s));
            p < |e| && (Entries(View(s[..k])) == e[..p] + e[p + 1..] <==> k + 1 == |s|)
  {
    hide Chain;
    hide Recs;
    hide Position;
    hide Entries;
    assert View(s[..k]) == View(s)[..k];
    DropBlockKeeps(View(s), k);
  }

  /** A directory of two blocks with one name each: removing the first name makes it look empty. */
  lemma LostName(a: seq<byte>, b: seq<byte>, i: Inode)
    requires |a| <= 255 && |b| <= 255 && NulFree(a) && NulFree(b)
    requires i.size == 2 * BLOCKSIZE && i.block == [1, 2] + Nulls(13)
    ensures exists disk: Disk :: DirInode(disk, i, 2) && Chains(Seen(disk, i, 0))
              && Entries(View(Seen(disk, i, 0))) == [(a, 11), (b, 12)] && Seen(disk, SlotNulled(i, 0), 0) == []
  {
    hide WithRec;
    hide Chain;
    hide Recs;
    hide NulFree;
    hide Pairs;
    var x, y := WithRec(Zeros(BLOCKSIZE), 0, 11, BLOCKLEN, a), WithRec(Zeros(BLOCKSIZE), 0, 12, BLOCKLEN, b);
    OneRec(11, a);
    OneRec(12, b);
    var disk: Disk := [Zeros(BLOCKSIZE), x, y];
    SeenIs(disk, i, 0, [x, y]);
    assert [x, y][0..] == [x, y];
    SeenIs(disk, SlotNulled(i, 0), 0, []);
    var ra, rb := Rec(11, BLOCKLEN, a), Rec(12, BLOCKLEN, b);
    assert View([x, y]) == [[ra]] + [[rb]];
    EntriesConcat([[ra]], [[rb]]);
    OneEntry(ra);
    OneEntry(rb);
  }

  // ---------------------------------------------------------------------------------------------
  // Insert and remove undo each other

  /** Equal pointers of n, and nothing else moved: the same blocks are in use. */
  lemma SameBlocksInUse(g: Geometry, base: set<nat>, v: Vol, w: Vol, n: nat)
    requires VolOk(g, base, v) && VolOk(g, base, w) && OthersKept(v, w, n) && n in v.inodes
    requires n in w.inodes && w.inodes[n].block == v.inodes[n].block
    requires v.inodes[n].block[IND] == 0 && v.inodes[n].block[DBL] == 0
    ensures w.owner.Keys == v.owner.Keys
    ensures g.bitmap < |w.disk| == |v.disk| && g.maxBlocks <= BITS && FreeBlocks(g, w.disk) == FreeBlocks(g, v.disk)
    ensures SuperFree(w.disk) == SuperFree(v.disk) && GroupFree(w.disk) == GroupFree(v.disk)
  {
    hide VolOk;
    hide Ptr;
    NoTables(v.disk, w.disk, v.inodes[n], w.inodes[n]);
    forall b | b in v.owner ensures b in w.owner {
      if v.owner[b].ino == n { MappedOwner(g, base, v, n, b); OwnerAt(g, base, w, n, v.owner[b].path); }
    }
    forall b | b in w.owner ensures b in v.owner {
      if w.owner[b].ino == n { MappedOwner(g, base, w, n, b); OwnerAt(g, base, v, n, w.owner[b].path); }
    }
    SameUse(g, base, v, w);
  }

  lemma NoTables(disk: Disk, disk': Disk, i: Inode, i': Inode)
    requires i'.block == i.block && i.block[IND] == 0 && i.block[DBL] == 0
    ensures forall q :: ValidPath(q) ==> Ptr(disk', i', q) == Ptr(disk, i, q)
  {
    hide U32At;
  }

  lemma SameUse(g: Geometry, base: set<nat>, v: Vol, w: Vol)
    requires VolOk(g, base, v) && VolOk(g, base, w) && w.owner.Keys == v.owner.Keys
    ensures g.bitmap < |w.disk| == |v.disk| && g.maxBlocks <= BITS && FreeBlocks(g, w.disk) == FreeBlocks(g, v.disk)
    ensures SuperFree(w.disk) == SuperFree(v.disk) && GroupFree(w.disk) == GroupFree(v.disk)
  {
    hide Ptr;
    hide FilesOk;
    hide Owns;
  }

  /** After inserting an absent name, find_inode gives the new inode for it and the old answer for every
      other name, if no record shadows what is looked up, before or after. That is so when every name was
      told apart from q by the byte behind it and the two bytes the insertion moves are right. */
  method InsertThenFind(fs: Ext2, n: nat, child: u32, entryName: seq<byte>, q: seq<byte>)
    returns (r: InsertResult, ino: nat)
    requires fs.Valid() && DirsOk(fs.State()) && n in fs.inodes && n in fs.npos && IsDir(fs.inodes[n])
    requires DirInode(fs.disk, fs.inodes[n], fs.npos[n]) && NulFree(entryName)
    requires Find(DirView(fs.State(), n), Name255(entryName)) == Nowhere
    modifies fs
    ensures fs.Valid() && DirsOk(fs.State())
    ensures r != Done ==> ino == old(FoundIno(fs.State(), n, q))
    ensures var s := old(DirBlocks(fs.State(), n));
            var s' := WithChild(s, child, Name255(entryName));
            r == Done && Unshadowed(s', q, 0) && (Unshadowed(s, q, 0) || q == Name255(entryName)) ==>
              ino == if q == Name255(entryName) then child as int else old(FoundIno(fs.State(), n, q))
    ensures var s, name := old(DirBlocks(fs.State(), n)), Name255(entryName);
            r == Done && NulFree(q) && AllStops(s, q) && PutStops(s, Room(View(s), Ideal(|name|)), child, name, q) ==>
              ino == if q == name then child as int else old(FoundIno(fs.State(), n, q))
  {
    hide VolOk;
    hide Chain;
    hide OthersKept;
    hide MetaKept;
    hide Find;
    hide FindIn;
    hide Lookup;
    hide Inserted;
    hide Room;
    hide Unshadowed;
    hide AllStops;
    hide PutStops;
    hide PutRecord;
    hide WithChild;
    hide View;
    hide FoundIno;
    hide Full;
    ghost var v, name := fs.State(), Name255(entryName);
    ghost var s := DirBlocks(v, n);
    FoundNamed(v, n, q);
    InsertLookup(DirView(v, n), child, name, q);
    if NulFree(q) && AllStops(s, q) && PutStops(s, Room(View(s), Ideal(|name|)), child, name, q) {
      ChildUnshadowed(s, child, name, q);
    }
    r := InsertChild(fs, n, child, entryName);
    ino := FindInode(fs, n, q);
  }

  /** Inserting an absent name that no record will shadow, and removing it again, restores the records of
      every block, the inode, the free blocks and both counters. */
  method InsertThenRemove(fs: Ext2, n: nat, child: u32, name: seq<byte>) returns (r: InsertResult)
    requires fs.Valid() && DirsOk(fs.State()) && n in fs.inodes && n in fs.npos && IsDir(fs.inodes[n])
    requires DirInode(fs.disk, fs.inodes[n], fs.npos[n]) && NulFree(name) && |name| <= 255
    requires Find(DirView(fs.State(), n), name) == Nowhere
    requires Unshadowed(WithChild(DirBlocks(fs.State(), n), child, name), name, 0)
    modifies fs
    ensures fs.Valid() && DirsOk(fs.State()) && OthersKept(old(fs.State()), fs.State(), n)
    ensures n in fs.inodes && n in fs.npos && DirInode(fs.disk, fs.inodes[n], fs.npos[n])
    ensures DirView(fs.State(), n) == old(DirView(fs.State(), n)) && fs.inodes[n] == old(fs.inodes[n])
    ensures fs.g.bitmap < |fs.disk| == |old(fs.disk)| && fs.g.maxBlocks <= BITS
    ensures FreeBlocks(fs.g, fs.disk) == FreeBlocks(fs.g, old(fs.disk))
    ensures SuperFree(fs.disk) == SuperFree(old(fs.disk)) && GroupFree(fs.disk) == GroupFree(old(fs.disk))
  {
    hide VolOk;
    hide Chain;
    hide Recs;
    hide OthersKept;
    hide Find;
    hide FindIn;
    hide Inserted;
    hide WithChild;
    hide Unshadowed;
    hide CanCut;
    hide DirView;
    hide Loosened;
    hide Dense;
    hide Seen;
    ghost var v := fs.State();
    ghost var d := DirView(v, n);
    DirSlots(fs.g, fs.base, v, n);
    r := InsertChild(fs, n, child, name);
    if r == Done {
      ghost var w := fs.State();
      RemoveUndoesInsert(d, child, name);
      FoundNamed(w, n, name);
      var ok := RemoveChild(fs, n, name);
      DirSlots(fs.g, fs.base, fs.State(), n);
      OthersKeptTransitive(v, w, fs.State(), n);
      assert fs.npos[n] == v.npos[n];
      assert fs.inodes[n].block == v.inodes[n].block;
    }
    SameBlocksInUse(fs.g, fs.base, v, fs.State(), n);
  }

  // ---------------------------------------------------------------------------------------------
  // kgetdent

  function Names(s: seq<Rec>): (r: seq<seq<byte>>)
    ensures |r| == |s| && forall k :: 0 <= k < |s| ==> r[k] == s[k].name
  {
    seq(|s|, k requires 0 <= k < |s| => s[k].name)
  }

  function AllNames(d: Dir): seq<seq<byte>> {
    if d == [] then [] else Names(d[0]) + AllNames(d[1..])
  }

  /** They are the names of the entries, in their order. */
  lemma {:induction false} NamesOfEntries(d: Dir, k: nat)
    requires k < |Entries(d)|
    ensures |AllNames(d)| == |Entries(d)| && AllNames(d)[k] == Entries(d)[k].0
  {
    var rest := Entries(d[1..]);
    if rest != [] {
      NamesOfEntries(d[1..], if k < |d[0]| then 0 else k - |d[0]|);
    } else {
      NoNames(d[1..]);
    }
  }

  lemma {:induction false} NoNames(d: Dir)
    requires Entries(d) == []
    ensures AllNames(d) == []
  {
    if d != [] {
      assert |Pairs(d[0])| == 0;
      NoNames(d[1..]);
    }
  }

  /** Offset o is the end of the directory or a record boundary in one of its blocks. */
  ghost predicate AtRecord(v: Vol, n: nat, o: nat)
    requires n in v.inodes && n in v.npos && DirInode(v.disk, v.inodes[n], v.npos[n])
  {
    o == v.inodes[n].size
    || (o / BLOCKSIZE < v.npos[n] && Reach(v.disk[v.inodes[n].block[o / BLOCKSIZE]], 0, o % BLOCKSIZE))
  }

  /** The names from offset o on. */
  ghost function NamesFrom(v: Vol, n: nat, o: nat): seq<seq<byte>>
    requires n in v.inodes && n in v.npos && DirInode(v.disk, v.inodes[n], v.npos[n]) && AtRecord(v, n, o)
  {
    if o == v.inodes[n].size then []
    else
      var b := v.disk[v.inodes[n].block[o / BLOCKSIZE]];
      ReachChain(b, 0, o % BLOCKSIZE);
      Names(Recs(b, o % BLOCKSIZE)) + AllNames(DirView(v, n)[o / BLOCKSIZE + 1..])
  }

  /** The record at o and the offset behind it. */
  lemma NextEntry(v: Vol, n: nat, o: nat)
    requires n in v.inodes && n in v.npos && DirInode(v.disk, v.inodes[n], v.npos[n]) && AtRecord(v, n, o)
    requires o < v.inodes[n].size
    ensures var b, e := v.disk[v.inodes[n].block[o / BLOCKSIZE]], o % BLOCKSIZE;
            && RecOk(b, e) && 0 < RecLen(b, e) && o + RecLen(b, e) <= v.inodes[n].size && AtRecord(v, n, o + RecLen(b, e))
            && NamesFrom(v, n, o) == [RecAt(b, e).name] + NamesFrom(v, n, o + RecLen(b, e))
  {
    hide RecAt;
    hide NulFree;
    hide U16At;
    hide NamesFrom;
    hide AtRecord;
    hide AllNames;
    hide DirView;
    hide Recs;
    hide Upto;
    hide Reach;
    hide RecOk;
    var k, e := o / BLOCKSIZE, o % BLOCKSIZE;
    InBlock(v, n, o);
    var b := v.disk[v.inodes[n].block[k]];
    ReachChain(b, 0, e);
    FirstRec(b, e);
    LenFacts(b, e);
    ReachStep(b, 0, e);
    NamesAt(v, n, k, e);
    NamesAt(v, n, k, e + RecLen(b, e));
  }

  lemma FirstRec(b: Block, e: nat)
    requires Chain(b, e) && e < BLOCKSIZE
    ensures RecOk(b, e) && Chain(b, e + RecLen(b, e))
    ensures Names(Recs(b, e)) == [RecAt(b, e).name] + Names(Recs(b, e + RecLen(b, e)))
  {
    hide RecAt;
    hide RecOk;
  }

  lemma InBlock(v: Vol, n: nat, o: nat)
    requires n in v.inodes && n in v.npos && DirInode(v.disk, v.inodes[n], v.npos[n]) && AtRecord(v, n, o)
    requires o < v.inodes[n].size
    ensures o / BLOCKSIZE < v.npos[n] && Reach(v.disk[v.inodes[n].block[o / BLOCKSIZE]], 0, o % BLOCKSIZE)
    ensures o + BLOCKSIZE - o % BLOCKSIZE <= v.inodes[n].size
  {
    hide Chain;
    hide Reach;
  }

  /** The names from boundary e of block k on, e being possibly its end. */
  lemma NamesAt(v: Vol, n: nat, k: nat, e: nat)
    requires n in v.inodes && n in v.npos && DirInode(v.disk, v.inodes[n], v.npos[n]) && k < v.npos[n]
    requires e <= BLOCKSIZE && Reach(v.disk[v.inodes[n].block[k]], 0, e)
    ensures AtRecord(v, n, k * BLOCKSIZE + e) && Chain(v.disk[v.inodes[n].block[k]], e)
    ensures NamesFrom(v, n, k * BLOCKSIZE + e)
            == Names(Recs(v.disk[v.inodes[n].block[k]], e)) + AllNames(DirView(v, n)[k + 1..])
  {
    hide Reach;
    hide AllNames;
    hide Chain;
    hide Recs;
    hide Upto;
    hide DirView;
    var b, o := v.disk[v.inodes[n].block[k]], k * BLOCKSIZE + e;
    ReachChain(b, 0, e);
    RecsEnd(b);
    if e < BLOCKSIZE {
      assert o / BLOCKSIZE == k && o % BLOCKSIZE == e;
    } else {
      NextBlock(v, n, k);
    }
  }

  lemma RecsEnd(b: Block)
    ensures Chain(b, BLOCKSIZE) && Recs(b, BLOCKSIZE) == []
  {
  }

  lemma NextBlock(v: Vol, n: nat, k: nat)
    requires n in v.inodes && n in v.npos && DirInode(v.disk, v.inodes[n], v.npos[n]) && k < v.npos[n]
    ensures AtRecord(v, n, (k + 1) * BLOCKSIZE)
    ensures NamesFrom(v, n, (k + 1) * BLOCKSIZE) == AllNames(DirView(v, n)[k + 1..])
  {
    hide Recs;
    var d := DirView(v, n);
    if k + 1 < v.npos[n] {
      ViewAt(v, n);
      assert d[k + 1..][1..] == d[k + 2..];
    }
  }

  /** One call of kgetdent: the next name, or nothing and the offset back to 0 at the end. */
  method GetDent(fs: Ext2, f: nat) returns (more: bool, name: seq<byte>)
    requires fs.Valid() && DirsOk(fs.State()) && f < |fs.files|
    requires fs.files[f].ino in fs.inodes && fs.files[f].ino in fs.npos
    requires DirInode(fs.disk, fs.inodes[fs.files[f].ino], fs.npos[fs.files[f].ino])
    requires AtRecord(fs.State(), fs.files[f].ino, fs.files[f].offset)
    modifies fs`files
    ensures |fs.files| == |old(fs.files)| && fs.files[f].ino == old(fs.files[f].ino)
    ensures forall k :: 0 <= k < |fs.files| && k != f ==> fs.files[k] == old(fs.files[k])
    ensures var n, o, o' := old(fs.files[f].ino), old(fs.files[f].offset), fs.files[f].offset;
            && (!more ==> NamesFrom(fs.State(), n, o) == [] && o == fs.inodes[n].size && o' == 0)
            && (more ==> o < o' <= fs.inodes[n].size && AtRecord(fs.State(), n, o')
                         && NamesFrom(fs.State(), n, o) == [name] + NamesFrom(fs.State(), n, o'))
  {
    hide VolOk;
    hide NamesFrom;
    var n, offset := fs.files[f].ino, fs.files[f].offset;
    ghost var v := fs.State();
    if offset >= fs.inodes[n].size {
      EndOfDir(v, n, offset);
      fs.files := fs.files[f := OpenFile(n, 0)];
      return false, [];
    }
    NextEntry(v, n, offset);
    var buf := fs.disk[fs.inodes[n].block[offset / BLOCKSIZE]];
    var e := offset % BLOCKSIZE;
    name := buf[e + HEADER..e + HEADER + NameLen(buf, e)];
    fs.files := fs.files[f := OpenFile(n, offset + RecLen(buf, e))];
    return true, name;
  }

  lemma EndOfDir(v: Vol, n: nat, o: nat)
    requires n in v.inodes && n in v.npos && DirInode(v.disk, v.inodes[n], v.npos[n]) && AtRecord(v, n, o)
    requires o >= v.inodes[n].size
    ensures o == v.inodes[n].size && NamesFrom(v, n, o) == []
  {
    assert o / BLOCKSIZE >= v.npos[n];
  }

  /** From offset 0, kgetdent until it returns 0 lists every entry once, in chain order, and resets the offset. */
  method ListDir(fs: Ext2, f: nat) returns (names: seq<seq<byte>>)
    requires fs.Valid() && DirsOk(fs.State()) && f < |fs.files| && fs.files[f].offset == 0
    requires fs.files[f].ino in fs.inodes && fs.files[f].ino in fs.npos
    requires DirInode(fs.disk, fs.inodes[fs.files[f].ino], fs.npos[fs.files[f].ino])
    modifies fs`files
    ensures names == AllNames(DirView(fs.State(), old(fs.files[f].ino)))
    ensures fs.files == old(fs.files)
  {
    hide VolOk;
    hide Recs;
    hide RecAt;
    var n := fs.files[f].ino;
    ghost var v := fs.State();
    StartNames(v, n);
    hide NamesFrom;
    names := [];
    while true
      invariant |fs.files| == |old(fs.files)| && fs.files[f].ino == n && AtRecord(v, n, fs.files[f].offset)
      invariant forall k :: 0 <= k < |fs.files| && k != f ==> fs.files[k] == old(fs.files[k])
      invariant names + NamesFrom(v, n, fs.files[f].offset) == AllNames(DirView(v, n))
      invariant fs.files[f].offset <= fs.inodes[n].size
      decreases fs.inodes[n].size - fs.files[f].offset
    {
      var more, name := GetDent(fs, f);
      if !more {
        break;
      }
      names := names + [name];
    }
  }

  lemma StartNames(v: Vol, n: nat)
    requires n in v.inodes && n in v.npos && DirInode(v.disk, v.inodes[n], v.npos[n])
    ensures AtRecord(v, n, 0) && NamesFrom(v, n, 0) == AllNames(DirView(v, n))
  {
    hide RecAt;
    if v.npos[n] > 0 {
      ViewAt(v, n);
    }
  }
}
