/** File contents: what mapping a block, storing a block and setting the size do to the bytes of every file. */
module FileData {
  import opened Bytes
  import opened Layout
  import opened Bitmap
  import opened Volume
  import opened InodeTable

  const MAXSIZE := MAXPOS * BLOCKSIZE

  /** Byte x of a file, through the pointer tree. */
  function ByteAt(disk: Disk, i: Inode, x: nat): byte
    requires x < MAXSIZE
  {
    var b := Ptr(disk, i, PathOf(x / BLOCKSIZE));
    if 0 < b < |disk| then disk[b][x % BLOCKSIZE] else 0
  }

  /** The first len bytes the mapped blocks of i hold. */
  function Stored(disk: Disk, i: Inode, len: nat): (s: seq<byte>)
    requires len <= MAXSIZE
    ensures |s| == len && forall x :: 0 <= x < len ==> s[x] == ByteAt(disk, i, x)
  {
    seq(len, x requires 0 <= x < len => ByteAt(disk, i, x))
  }

  /** The file: as many stored bytes as i_size says. */
  function Contents(disk: Disk, i: Inode): (c: seq<byte>)
    requires i.size <= MAXSIZE
    ensures |c| == i.size
  {
    Stored(disk, i, i.size)
  }

  /** No inode but n, and no block owned by another inode, changed. */
  ghost predicate OthersKept(v: Vol, v': Vol, n: nat) {
    && v'.inodes.Keys == v.inodes.Keys && v'.npos.Keys == v.npos.Keys
    && (forall m :: m in v.inodes && m != n ==> v'.inodes[m] == v.inodes[m])
    && (forall m :: m in v.npos && m != n ==> v'.npos[m] == v.npos[m])
    && |v'.disk| == |v.disk|
    && (forall b :: b in v.owner && v.owner[b].ino != n ==>
          b in v'.owner && v'.owner[b] == v.owner[b] && (b < |v.disk| ==> v'.disk[b] == v.disk[b]))
    && (forall b :: b in v'.owner && v'.owner[b].ino != n ==> b in v.owner && v.owner[b] == v'.owner[b])
  }

  lemma OthersKeptTransitive(u: Vol, v: Vol, w: Vol, n: nat)
    requires OthersKept(u, v, n) && OthersKept(v, w, n)
    ensures OthersKept(u, w, n)
  {
  }

  lemma GrownKeepsOthers(v: Vol, v': Vol, n: nat)
    requires Grown(v, v', n)
    ensures OthersKept(v, v', n)
  {
    hide Ptr;
  }

  /** Another inode keeps its tree and every byte of its file. */
  lemma OtherFileKept(g: Geometry, base: set<nat>, v: Vol, v': Vol, n: nat, m: nat)
    requires VolOk(g, base, v) && OthersKept(v, v', n) && m in v.inodes && m != n
    ensures m in v'.inodes && v'.inodes[m] == v.inodes[m]
    ensures forall x: nat :: x < MAXSIZE ==> ByteAt(v'.disk, v'.inodes[m], x) == ByteAt(v.disk, v.inodes[m], x)
  {
    hide Ptr;
    hide PathOf;
    var i := v.inodes[m];
    var s := set b | b in v.owner && v.owner[b].ino == m;
    PtrSameOn(v.disk, v'.disk, v.inodes, v.owner, m, s);
    forall x: nat | x < MAXSIZE ensures ByteAt(v'.disk, i, x) == ByteAt(v.disk, i, x) {
      var q := PathOf(x / BLOCKSIZE);
      OwnerAt(g, base, v, m, q);
    }
  }

  /** Growing a file keeps the bytes of every position mapped before. */
  lemma GrownKeepsBytes(g: Geometry, base: set<nat>, v: Vol, v': Vol, n: nat)
    requires VolOk(g, base, v) && Grown(v, v', n)
    ensures forall x: nat :: x < v.npos[n] * BLOCKSIZE && x < MAXSIZE ==>
              ByteAt(v'.disk, v'.inodes[n], x) == ByteAt(v.disk, v.inodes[n], x)
  {
    hide Ptr;
    forall x: nat | x < v.npos[n] * BLOCKSIZE && x < MAXSIZE
      ensures ByteAt(v'.disk, v'.inodes[n], x) == ByteAt(v.disk, v.inodes[n], x)
    {
      KeptByte(g, base, v, v', n, x);
    }
  }

  lemma KeptByte(g: Geometry, base: set<nat>, v: Vol, v': Vol, n: nat, x: nat)
    requires VolOk(g, base, v) && Grown(v, v', n)
    requires x < v.npos[n] * BLOCKSIZE && x < MAXSIZE
    ensures ByteAt(v'.disk, v'.inodes[n], x) == ByteAt(v.disk, v.inodes[n], x)
  {
    hide Ptr;
    hide VolOk;
    var q := PathOf(x / BLOCKSIZE);
    OwnerAt(g, base, v, n, q);
    assert Ptr(v.disk, v.inodes[n], PathOf(x / BLOCKSIZE)) != 0;
  }

  /** Storing block blk at mapped position p of inode n rewrites exactly that stretch of that file. */
  lemma StoreStep(g: Geometry, base: set<nat>, v: Vol, n: nat, p: nat, b: nat, blk: Block, v': Vol)
    requires VolOk(g, base, v) && n in v.inodes && p < MAXPOS
    requires b == Ptr(v.disk, v.inodes[n], PathOf(p)) && 0 < b < |v.disk|
    requires v' == v.(disk := v.disk[b := blk])
    ensures VolOk(g, base, v') && OthersKept(v, v', n) && MetaKept(g, base, v.disk, v'.disk)
    ensures forall x: nat :: x < MAXSIZE ==>
              ByteAt(v'.disk, v'.inodes[n], x)
              == if x / BLOCKSIZE == p then blk[x % BLOCKSIZE] else ByteAt(v.disk, v.inodes[n], x)
  {
    hide Ptr;
    hide Accounted;
    OwnerAt(g, base, v, n, PathOf(p));
    StorePtrs(g, base, v, b, blk);
    AccountedFrame(g, v.disk, v'.disk, Used(base, v));
    OwnsSamePtr(v.disk, v'.disk, v.inodes, v.inodes, v.owner);
    FilesOkSamePtr(g, v, v');
    forall x: nat | x < MAXSIZE
      ensures ByteAt(v'.disk, v'.inodes[n], x)
              == if x / BLOCKSIZE == p then blk[x % BLOCKSIZE] else ByteAt(v.disk, v.inodes[n], x)
    {
      SameBlock(g, base, v, n, p, x / BLOCKSIZE);
    }
  }

  lemma StorePtrs(g: Geometry, base: set<nat>, v: Vol, b: nat, blk: Block)
    requires VolOk(g, base, v) && b in v.owner && !IsTable(v.owner[b].path) && 0 < b < |v.disk|
    ensures forall m, q :: m in v.inodes && ValidPath(q) ==>
              Ptr(v.disk[b := blk], v.inodes[m], q) == Ptr(v.disk, v.inodes[m], q)
  {
    hide Ptr;
    forall m | m in v.inodes
      ensures forall q :: ValidPath(q) ==> Ptr(v.disk[b := blk], v.inodes[m], q) == Ptr(v.disk, v.inodes[m], q)
    {
      PtrAfterStore(v.disk, v.inodes, v.owner, m, b, blk);
    }
  }

  lemma FilesOkSamePtr(g: Geometry, v: Vol, v': Vol)
    requires FilesOk(g, v) && v'.inodes.Keys == v.inodes.Keys && v'.npos == v.npos
    requires forall m, q :: m in v.inodes && ValidPath(q) ==>
               Ptr(v'.disk, v'.inodes[m], q) == Ptr(v.disk, v.inodes[m], q)
    requires forall m :: m in v.inodes ==> v'.inodes[m].size <= v.npos[m] * BLOCKSIZE
    ensures FilesOk(g, v')
  {
    hide Ptr;
    forall m | m in v'.inodes ensures Dense(v'.disk, v'.inodes[m], v'.npos[m]) {
      DenseSamePtr(v.disk, v.inodes[m], v'.disk, v'.inodes[m], v.npos[m]);
    }
    hide Dense;
  }

  /** Distinct mapped positions of one file lie in distinct blocks. */
  lemma SameBlock(g: Geometry, base: set<nat>, v: Vol, n: nat, p: nat, p': nat)
    requires VolOk(g, base, v) && n in v.inodes && p < MAXPOS && p' < MAXPOS
    requires Ptr(v.disk, v.inodes[n], PathOf(p)) != 0
    ensures Ptr(v.disk, v.inodes[n], PathOf(p')) == Ptr(v.disk, v.inodes[n], PathOf(p)) <==> p' == p
  {
    hide Ptr;
    hide VolOk;
    OwnerAt(g, base, v, n, PathOf(p));
    OwnerAt(g, base, v, n, PathOf(p'));
    PosOfPath(p);
    PosOfPath(p');
  }

  /** i_blocks counts 512-byte sectors: d more data blocks are 4 * d more sectors, in 32 bits. */
  function AddBlocks(x: u32, d: int): u32 {
    (x + 4 * d) % 0x1_0000_0000
  }

  lemma BlocksAdd(x: u32, a: int, b: int)
    ensures AddBlocks(AddBlocks(x, a), b) == AddBlocks(x, a + b)
  {
    var y := x + 4 * a;
    assert y == y / 0x1_0000_0000 * 0x1_0000_0000 + y % 0x1_0000_0000;
  }

  /** Only the block pointers and i_blocks differ, the latter by d data blocks. */
  predicate InodeGrown(i: Inode, i': Inode, d: int) {
    i' == i.(block := i'.block, blocks := AddBlocks(i.blocks, d))
  }

  lemma InodeGrownTwice(i: Inode, j: Inode, k: Inode, a: int, b: int)
    requires InodeGrown(i, j, a) && InodeGrown(j, k, b)
    ensures InodeGrown(i, k, a + b)
  {
    BlocksAdd(i.blocks, a, b);
  }

  /** Setting fields other than the block pointers, with i_size within the mapped prefix, moves no byte. */
  lemma FieldStep(g: Geometry, base: set<nat>, v: Vol, n: nat, i: Inode, v': Vol)
    requires VolOk(g, base, v) && n in v.inodes && n in v.npos
    requires i.block == v.inodes[n].block && i.size <= v.npos[n] * BLOCKSIZE
    requires v' == v.(inodes := v.inodes[n := i])
    ensures VolOk(g, base, v') && OthersKept(v, v', n)
    ensures forall q :: ValidPath(q) ==> Ptr(v'.disk, i, q) == Ptr(v.disk, v.inodes[n], q)
    ensures forall x: nat :: x < MAXSIZE ==> ByteAt(v'.disk, i, x) == ByteAt(v.disk, v.inodes[n], x)
  {
    hide Ptr;
    hide Accounted;
    hide Dense;
    hide FreeBlocks;
    SamePtrSize(v.disk, v.inodes[n], i);
    OwnsSamePtr(v.disk, v.disk, v.inodes, v'.inodes, v.owner);
    FilesOkSamePtr(g, v, v');
  }

  /** i_blocks alone changed. */
  lemma BlocksStep(g: Geometry, base: set<nat>, u: Vol, v: Vol, n: nat, x: u32, v': Vol)
    requires VolOk(g, base, v) && Grown(u, v, n) && n in v.inodes && n in v.npos
    requires v' == v.(inodes := v.inodes[n := v.inodes[n].(blocks := x)])
    ensures VolOk(g, base, v') && Grown(u, v', n)
    ensures forall q :: ValidPath(q) ==> Ptr(v'.disk, v'.inodes[n], q) == Ptr(v.disk, v.inodes[n], q)
  {
    hide VolOk;
    hide Ptr;
    hide ByteAt;
    hide OthersKept;
    SizeBound(g, base, v, n);
    FieldStep(g, base, v, n, v'.inodes[n], v');
  }

  /** The inode changed by mapping w.npos[n] - v.npos[n] more data blocks. */
  ghost predicate Mapped(v: Vol, w: Vol, n: nat) {
    && n in v.inodes && n in w.inodes && n in v.npos && n in w.npos
    && InodeGrown(v.inodes[n], w.inodes[n], w.npos[n] as int - v.npos[n] as int)
  }

  lemma MappedNone(v: Vol, w: Vol, n: nat)
    requires Grown(v, w, n) && n in v.inodes && n in w.inodes && n in v.npos && n in w.npos
    requires w.inodes[n].blocks == v.inodes[n].blocks && w.npos[n] == v.npos[n]
    ensures Mapped(v, w, n)
  {
    hide Ptr;
  }

  lemma MappedOne(v: Vol, w: Vol, n: nat)
    requires Grown(v, w, n) && n in v.inodes && n in w.inodes && n in v.npos && n in w.npos
    requires w.inodes[n].blocks == AddBlocks(v.inodes[n].blocks, 1) && w.npos[n] == v.npos[n] + 1
    ensures Mapped(v, w, n)
  {
    hide Ptr;
  }

  /** Inode n in v is that of v0 with blocks mapped; its bytes are those of v0 up to o, then data. */
  ghost predicate Progress(v0: Vol, v: Vol, n: nat, o: nat, data: seq<byte>) {
    && Mapped(v0, v, n) && o + |data| <= MAXSIZE
    && forall x: nat :: x < o + |data| ==>
         ByteAt(v.disk, v.inodes[n], x) == if x < o then ByteAt(v0.disk, v0.inodes[n], x) else data[x - o]
  }

  /** One chunk: position p was mapped and its block rewritten from `start` on with the next bytes. */
  lemma ProgressStep(g: Geometry, base: set<nat>, v0: Vol, v: Vol, w: Vol, n: nat, o: nat, data: seq<byte>,
                     p: nat, chunk: seq<byte>, fbuf: Block, w': Vol)
    requires VolOk(g, base, v) && Progress(v0, v, n, o, data) && Grown(v, w, n) && Mapped(v, w, n)
    requires o + |data| <= v.npos[n] * BLOCKSIZE
    requires p == (o + |data|) / BLOCKSIZE && p < MAXPOS
    requires (o + |data|) % BLOCKSIZE + |chunk| <= BLOCKSIZE
    requires forall k :: 0 <= k < BLOCKSIZE ==> fbuf[k] == ByteAt(w.disk, w.inodes[n], p * BLOCKSIZE + k)
    requires n in w'.inodes && w'.inodes == w.inodes && w'.npos == w.npos
    requires forall x: nat :: x < MAXSIZE ==>
               ByteAt(w'.disk, w'.inodes[n], x)
               == if x / BLOCKSIZE == p then Splice(fbuf, (o + |data|) % BLOCKSIZE, chunk)[x % BLOCKSIZE]
                  else ByteAt(w.disk, w.inodes[n], x)
    ensures Progress(v0, w', n, o, data + chunk)
  {
    hide ByteAt;
    hide VolOk;
    hide Grown;
    hide Splice;
    hide InodeGrown;
    GrownKeepsBytes(g, base, v, w, n);
    InodeGrownTwice(v0.inodes[n], v.inodes[n], w.inodes[n], v.npos[n] as int - v0.npos[n] as int,
                    w.npos[n] as int - v.npos[n] as int);
    var e := o + |data|;
    var start := e % BLOCKSIZE;
    forall x: nat | x < e + |chunk|
      ensures ByteAt(w'.disk, w'.inodes[n], x)
              == if x < o then ByteAt(v0.disk, v0.inodes[n], x) else (data + chunk)[x - o]
    {
      var k := x - p * BLOCKSIZE;
      if 0 <= k < BLOCKSIZE {
        assert x / BLOCKSIZE == p && x % BLOCKSIZE == k;
      } else {
        assert x / BLOCKSIZE != p && x < e;
      }
    }
  }

  /** Setting i_size within the mapped prefix and saving the inode moves no byte of any file. */
  lemma SizeStep(g: Geometry, base: set<nat>, v: Vol, n: nat, i: Inode, v': Vol)
    requires VolOk(g, base, v) && n in v.inodes && n in v.npos
    requires i.block == v.inodes[n].block && i.size <= v.npos[n] * BLOCKSIZE
    requires InodeBlock(g, n) < |v.disk|
    requires v' == v.(inodes := v.inodes[n := i], disk := Saved(g, v.disk, n, i))
    ensures VolOk(g, base, v') && OthersKept(v, v', n)
    ensures forall x: nat :: x < MAXSIZE ==> ByteAt(v'.disk, i, x) == ByteAt(v.disk, v.inodes[n], x)
    ensures OnDisk(g, v'.disk, n) == i
    ensures forall m :: m > 0 && m != n && InodeBlock(g, m) < |v.disk| ==> OnDisk(g, v'.disk, m) == OnDisk(g, v.disk, m)
  {
    hide Ptr;
    hide Accounted;
    hide Encode;
    hide Decode;
    hide Dense;
    hide FreeBlocks;
    SavedInode(g, v.disk, n, i);
    var b := InodeBlock(g, n);
    assert b in base && b !in v.owner && b > g.bitmap > 1;
    AccountedFrame(g, v.disk, v'.disk, Used(base, v));
    SameOwned(v.disk, v'.disk, v.inodes, v.owner);
    SamePtrSize(v'.disk, v.inodes[n], i);
    OwnsSamePtr(v.disk, v'.disk, v.inodes, v'.inodes, v.owner);
    FilesOkSamePtr(g, v, v');
    forall x: nat | x < MAXSIZE ensures ByteAt(v'.disk, i, x) == ByteAt(v.disk, v.inodes[n], x) {
      OwnerAt(g, base, v, n, PathOf(x / BLOCKSIZE));
    }
  }

  lemma SamePtrSize(disk: Disk, i: Inode, i': Inode)
    requires i'.block == i.block
    ensures forall q :: ValidPath(q) ==> Ptr(disk, i', q) == Ptr(disk, i, q)
  {
  }

  lemma ProgressKept(g: Geometry, base: set<nat>, v0: Vol, v: Vol, w: Vol, n: nat, o: nat, data: seq<byte>)
    requires VolOk(g, base, v) && Progress(v0, v, n, o, data) && Grown(v, w, n) && Mapped(v, w, n)
    requires o + |data| <= v.npos[n] * BLOCKSIZE
    ensures Progress(v0, w, n, o, data)
  {
    hide ByteAt;
    hide VolOk;
    hide Grown;
    hide InodeGrown;
    GrownKeepsBytes(g, base, v, w, n);
    InodeGrownTwice(v0.inodes[n], v.inodes[n], w.inodes[n], v.npos[n] as int - v0.npos[n] as int,
                    w.npos[n] as int - v.npos[n] as int);
  }

  lemma FbufBytes(v: Vol, n: nat, p: nat, b: nat)
    requires n in v.inodes && p < MAXPOS && b == Ptr(v.disk, v.inodes[n], PathOf(p)) && 0 < b < |v.disk|
    ensures forall k :: 0 <= k < BLOCKSIZE ==> v.disk[b][k] == ByteAt(v.disk, v.inodes[n], p * BLOCKSIZE + k)
  {
    hide Ptr;
    forall k | 0 <= k < BLOCKSIZE ensures v.disk[b][k] == ByteAt(v.disk, v.inodes[n], p * BLOCKSIZE + k) {
      assert (p * BLOCKSIZE + k) / BLOCKSIZE == p && (p * BLOCKSIZE + k) % BLOCKSIZE == k;
    }
  }

  lemma MetaKeptTransitive(g: Geometry, base: set<nat>, a: Disk, b: Disk, c: Disk)
    requires MetaKept(g, base, a, b) && MetaKept(g, base, b, c)
    ensures MetaKept(g, base, a, c)
  {
  }

  lemma StartProgress(g: Geometry, base: set<nat>, v: Vol, n: nat, o: nat)
    requires VolOk(g, base, v) && n in v.inodes && n in v.npos && o <= v.npos[n] * BLOCKSIZE
    ensures v.npos[n] <= MAXPOS && v.inodes[n].size <= v.npos[n] * BLOCKSIZE
    ensures n > 0 && InodeBlock(g, n) < |v.disk|
    ensures Progress(v, v, n, o, []) && OthersKept(v, v, n) && MetaKept(g, base, v.disk, v.disk)
  {
    hide ByteAt;
    hide Accounted;
  }

  /** The inode table entries of all inodes but n are the same. */
  ghost predicate TableKept(g: Geometry, v: Vol, v': Vol, n: nat) {
    && |v'.disk| == |v.disk|
    && forall m :: m in v.inodes && m != n && m > 0 && InodeBlock(g, m) < |v.disk| ==>
         OnDisk(g, v'.disk, m) == OnDisk(g, v.disk, m)
  }

  /** The number of blocks that hold the first x bytes. */
  function Ceil(x: nat): nat {
    (x + BLOCKSIZE - 1) / BLOCKSIZE
  }

  function Max(a: nat, b: nat): nat {
    if a < b then b else a
  }

  /** Writing data at offset o of inode n succeeded: the file is what it stored before o followed by
      data and ends there, blocks were mapped just far enough, and the inode table has the inode. */
  ghost predicate WriteDone(g: Geometry, v: Vol, v': Vol, n: nat, o: nat, data: seq<byte>) {
    && n in v.inodes && n in v'.inodes && n in v.npos && n in v'.npos && n > 0 && InodeBlock(g, n) < |v'.disk|
    && o <= MAXSIZE && v'.inodes[n].size == o + |data| <= MAXSIZE
    && InodeGrown(v.inodes[n].(size := o + |data|), v'.inodes[n], v'.npos[n] as int - v.npos[n] as int)
    && Contents(v'.disk, v'.inodes[n]) == Stored(v.disk, v.inodes[n], o) + data
    && v'.npos[n] == Max(v.npos[n], Ceil(o + |data|))
    && OnDisk(g, v'.disk, n) == v'.inodes[n]
  }

  /** The volume filled up while writing data at o: every byte the file has past o is already new,
      and i_size and the inode table are as before. */
  ghost predicate WriteFailed(g: Geometry, v: Vol, v': Vol, n: nat, o: nat, data: seq<byte>) {
    && n in v.inodes && n in v'.inodes && n > 0 && InodeBlock(g, n) < |v'.disk| == |v.disk|
    && Full(g, v'.disk)
    && n in v.npos && n in v'.npos && o <= v'.npos[n] * BLOCKSIZE
    && InodeGrown(v.inodes[n], v'.inodes[n], v'.npos[n] as int - v.npos[n] as int)
    && o <= MAXSIZE && v.inodes[n].size <= o + |data| && v.inodes[n].size <= MAXSIZE
    && Contents(v'.disk, v'.inodes[n]) == (Stored(v.disk, v.inodes[n], o) + data)[..v.inodes[n].size]
    && OnDisk(g, v'.disk, n) == OnDisk(g, v.disk, n)
  }

  /** The offset after a write, done or failed, is within the mapped prefix or at its end; only a full
      volume fails it. */
  lemma OffsetMapped(g: Geometry, v: Vol, v': Vol, n: nat, o: nat, data: seq<byte>)
    ensures WriteDone(g, v, v', n, o, data) ==> n in v'.npos && o + |data| <= v'.npos[n] * BLOCKSIZE
    ensures WriteFailed(g, v, v', n, o, data) ==> n in v'.npos && o <= v'.npos[n] * BLOCKSIZE && Full(g, v'.disk)
  {
    hide Stored;
    hide OnDisk;
  }

  lemma MetaKeepsTable(g: Geometry, base: set<nat>, v: Vol, v': Vol, n: nat)
    requires VolOk(g, base, v) && MetaKept(g, base, v.disk, v'.disk)
    ensures forall m :: m in v.inodes ==> m > 0 && InodeBlock(g, m) < |v.disk| && OnDisk(g, v'.disk, m) == OnDisk(g, v.disk, m)
    ensures TableKept(g, v, v', n) && |v'.disk| == |v.disk|
  {
    hide Accounted;
    hide Dense;
    hide Decode;
    forall m | m in v.inodes
      ensures m > 0 && InodeBlock(g, m) < |v.disk| && v'.disk[InodeBlock(g, m)] == v.disk[InodeBlock(g, m)]
    {
      assert InodeFits(g, m);
      assert InodeBlock(g, m) in base;
    }
  }

  lemma ProgressFacts(v0: Vol, v: Vol, n: nat, o: nat, done: seq<byte>)
    requires Progress(v0, v, n, o, done)
    ensures Mapped(v0, v, n) && o + |done| <= MAXSIZE
  {
    hide ByteAt;
  }

  lemma CutContents(v0: Vol, v: Vol, n: nat, o: nat, done: seq<byte>, data: seq<byte>)
    requires Progress(v0, v, n, o, done) && done <= data && n in v0.inodes && n in v.inodes
    requires v0.inodes[n].size == v.inodes[n].size <= o + |done|
    ensures o <= MAXSIZE && v.inodes[n].size <= MAXSIZE
    ensures Contents(v.disk, v.inodes[n]) == (Stored(v0.disk, v0.inodes[n], o) + data)[..v0.inodes[n].size]
  {
    hide ByteAt;
    hide Mapped;
    var c, d := Contents(v.disk, v.inodes[n]), Stored(v0.disk, v0.inodes[n], o) + data;
    forall x | 0 <= x < |c| ensures c[x] == d[x] {
      assert c[x] == ByteAt(v.disk, v.inodes[n], x);
    }
  }

  lemma FailedWrite(g: Geometry, base: set<nat>, v0: Vol, v: Vol, n: nat, o: nat, done: seq<byte>, data: seq<byte>)
    requires VolOk(g, base, v0) && VolOk(g, base, v) && n in v.npos && Progress(v0, v, n, o, done) && done <= data
    requires o + |done| == v.npos[n] * BLOCKSIZE
    requires MetaKept(g, base, v0.disk, v.disk) && Full(g, v.disk)
    ensures WriteFailed(g, v0, v, n, o, data) && TableKept(g, v0, v, n)
  {
    hide ByteAt;
    hide VolOk;
    hide MetaKept;
    hide TableKept;
    hide Full;
    hide OnDisk;
    hide Progress;
    hide Contents;
    hide Stored;
    ProgressFacts(v0, v, n, o, done);
    MetaKeepsTable(g, base, v0, v, n);
    SizeBound(g, base, v0, n);
    SizeBound(g, base, v, n);
    CutContents(v0, v, n, o, done, data);
  }

  lemma FinishedWrite(g: Geometry, base: set<nat>, v0: Vol, v: Vol, n: nat, o: nat, data: seq<byte>, v': Vol)
    requires VolOk(g, base, v0) && VolOk(g, base, v) && n in v.npos && n in v0.npos
    requires Progress(v0, v, n, o, data) && OthersKept(v0, v, n)
    requires o + |data| <= v.npos[n] * BLOCKSIZE && v.npos[n] == Max(v0.npos[n], Ceil(o + |data|))
    requires MetaKept(g, base, v0.disk, v.disk)
    requires var i := v.inodes[n].(size := o + |data|);
             n > 0 && InodeBlock(g, n) < |v.disk| && v' == v.(inodes := v.inodes[n := i], disk := Saved(g, v.disk, n, i))
    ensures VolOk(g, base, v') && OthersKept(v0, v', n)
    ensures WriteDone(g, v0, v', n, o, data) && TableKept(g, v0, v', n)
  {
    hide VolOk;
    hide ByteAt;
    hide MetaKept;
    hide OthersKept;
    hide OnDisk;
    hide Saved;
    SizeStep(g, base, v, n, v'.inodes[n], v');
    OthersKeptTransitive(v0, v, v', n);
    MetaKeepsTable(g, base, v0, v, n);
  }

  lemma SizeBound(g: Geometry, base: set<nat>, v: Vol, n: nat)
    requires VolOk(g, base, v) && n in v.inodes
    ensures n in v.npos && v.inodes[n].size <= v.npos[n] * BLOCKSIZE <= MAXSIZE
  {
    hide Accounted;
    hide Ptr;
  }

  /** Within i_size every position is mapped, to a real block that holds the file's bytes. */
  lemma MappedBytes(g: Geometry, base: set<nat>, v: Vol, n: nat, p: nat, b: nat)
    requires VolOk(g, base, v) && n in v.inodes && p * BLOCKSIZE < v.inodes[n].size && p < MAXPOS
    requires b == Ptr(v.disk, v.inodes[n], PathOf(p))
    ensures 0 < b < |v.disk|
    ensures forall k :: 0 <= k < BLOCKSIZE ==> v.disk[b][k] == ByteAt(v.disk, v.inodes[n], p * BLOCKSIZE + k)
  {
    hide Ptr;
    hide PathOf;
    hide VolOk;
    SizeBound(g, base, v, n);
    OwnerAt(g, base, v, n, PathOf(p));
    MapFacts(g, base, v, n, p);
    FbufBytes(v, n, p, b);
  }

  lemma CopiedChunk(disk: Disk, i: Inode, was: seq<byte>, now: seq<byte>, nread: nat, len: nat, offset: nat, fbuf: Block)
    requires i.size <= MAXSIZE && nread <= offset && offset + len <= i.size
    requires nread + len <= |was| == |now| && offset % BLOCKSIZE + len <= BLOCKSIZE
    requires was[..nread] == Contents(disk, i)[offset - nread..offset]
    requires forall k :: 0 <= k < |was| ==>
               now[k] == if nread <= k < nread + len then fbuf[offset % BLOCKSIZE + (k - nread)] else was[k]
    requires forall k :: 0 <= k < BLOCKSIZE && offset / BLOCKSIZE * BLOCKSIZE + k < MAXSIZE ==>
               fbuf[k] == ByteAt(disk, i, offset / BLOCKSIZE * BLOCKSIZE + k)
    ensures now[..nread + len] == Contents(disk, i)[offset - nread..offset + len]
    ensures now[nread + len..] == was[nread + len..]
  {
    hide ByteAt;
    hide Stored;
    var c, o := Contents(disk, i), offset - nread;
    forall k | 0 <= k < nread + len ensures now[k] == c[o + k] {
      if k < nread {
        assert now[k] == was[..nread][k] == c[o..offset][k];
      }
    }
  }
}
