/** Whole runs of file and directory operations, and what the invariant they keep says of the disk. */
module VolumeRuns {
  import opened Bytes
  import opened Layout
  import opened Bitmap
  import opened Volume
  import opened InodeTable
  import opened FileData
  import opened Truncate
  import opened FileSystem
  import opened DirBlock
  import opened DirSpec
  import opened DirBytes
  import opened Directories

  /** The invariant, read off the disk: two different places never hold the same block number, every
      block an inode reaches is a marked non-metadata block, and both counters count the clear bits. */
  lemma OwnershipMeans(g: Geometry, base: set<nat>, v: Vol, n: nat, q: Path, m: nat, r: Path)
    requires VolOk(g, base, v) && n in v.inodes && m in v.inodes && ValidPath(q) && ValidPath(r)
    ensures var b := Ptr(v.disk, v.inodes[n], q);
            b != 0 ==>
              && (b == Ptr(v.disk, v.inodes[m], r) ==> n == m && q == r)
              && 1 < b < g.maxBlocks == |v.disk| <= BITS && b != g.bitmap
              && !(g.inodeStart <= b < g.inodeStart + g.inodeBlocks)
              && g.bitmap < |v.disk| && TestBit(v.disk[g.bitmap], b)
    ensures g.bitmap < |v.disk| && g.maxBlocks <= BITS
    ensures SuperFree(v.disk) == |FreeBlocks(g, v.disk)| && GroupFree(v.disk) == |FreeBlocks(g, v.disk)| % 0x1_0000
  {
    hide Ptr;
    OwnerAt(g, base, v, n, q);
    OwnerAt(g, base, v, m, r);
    hide Owns;
    hide FilesOk;
  }

  datatype FileOp =
    | Seek(offset: nat)
    | Write(buf: array<byte>, count: int)
    | Trunc

  /** One operation on open file f, skipped when it would pass the largest file. */
  method ApplyFile(fs: Ext2, f: nat, op: FileOp)
    requires fs.Valid() && DirsOk(fs.State()) && f < |fs.files|
    requires fs.files[f].ino in fs.inodes && fs.files[f].ino in fs.npos && !IsDir(fs.inodes[fs.files[f].ino])
    requires fs.files[f].offset <= fs.npos[fs.files[f].ino] * BLOCKSIZE
    requires op.Write? ==> 0 in op.buf[..]
    modifies fs
    ensures fs.Valid() && DirsOk(fs.State()) && fs.base == old(fs.base)
    ensures OthersKept(old(fs.State()), fs.State(), old(fs.files[f].ino))
    ensures |fs.files| == |old(fs.files)| && fs.files[f].ino == old(fs.files[f].ino)
    ensures fs.files[f].ino in fs.inodes && fs.files[f].ino in fs.npos && !IsDir(fs.inodes[fs.files[f].ino])
    ensures fs.files[f].offset <= fs.npos[fs.files[f].ino] * BLOCKSIZE
  {
    hide VolOk;
    hide OthersKept;
    hide TableKept;
    hide DirsOk;
    ghost var v := fs.State();
    var n := fs.files[f].ino;
    SizeBound(fs.g, fs.base, v, n);
    StartProgress(fs.g, fs.base, v, n, 0);
    match op {
      case Seek(o) =>
        fs.files := fs.files[f := OpenFile(n, Min(o, fs.inodes[n].size))];
      case Write(buf, count) =>
        ghost var o := fs.files[f].offset;
        if fs.files[f].offset + WriteLen(buf[..], count) <= MAXSIZE {
          var r := fs.WriteFile(f, buf, count);
          ghost var data := buf[..if r < 0 then WriteLen(buf[..], count) else r];
          OffsetMapped(fs.g, v, fs.State(), n, o, data);
          WriteKeepsMode(fs.g, v, fs.State(), n, o, data);
          hide WriteDone;
          hide WriteFailed;
          DirsKept(fs.g, fs.base, v, fs.State(), n);
        }
      case Trunc =>
        fs.FreeIBlocks(n);
        fs.files := fs.files[f := OpenFile(n, 0)];
        FreeKeepsMode(fs.g, v, fs.State(), n);
        DirsKept(fs.g, fs.base, v, fs.State(), n);
    }
  }

  lemma WriteKeepsMode(g: Geometry, v: Vol, v': Vol, n: nat, o: nat, data: seq<byte>)
    ensures WriteDone(g, v, v', n, o, data) || WriteFailed(g, v, v', n, o, data) ==>
              n in v.inodes && n in v'.inodes && (IsDir(v'.inodes[n]) <==> IsDir(v.inodes[n]))
  {
    hide Stored;
    hide OnDisk;
  }

  lemma FreeKeepsMode(g: Geometry, v: Vol, v': Vol, n: nat)
    requires Freed(g, v, v', n)
    ensures n in v.inodes && n in v'.inodes && n in v'.npos && (IsDir(v'.inodes[n]) <==> IsDir(v.inodes[n]))
  {
    hide OnDisk;
  }

  /** From an inode that owns nothing, any run of seeks, writes (full or cut short by a full volume)
      and truncations, ended by free_iblocks, gives every block back and restores both counters. */
  method RunThenFree(fs: Ext2, f: nat, ops: seq<FileOp>)
    requires fs.Valid() && DirsOk(fs.State()) && f < |fs.files|
    requires fs.files[f].ino in fs.inodes && !IsDir(fs.inodes[fs.files[f].ino])
    requires fs.files[f].offset == 0 && OwnedBlocks(fs.owner, fs.files[f].ino) == {}
    requires forall k :: 0 <= k < |ops| && ops[k].Write? ==> 0 in ops[k].buf[..]
    modifies fs
    ensures fs.Valid() && OthersKept(old(fs.State()), fs.State(), old(fs.files[f].ino))
    ensures fs.g.bitmap < |fs.disk| == |old(fs.disk)| && fs.g.maxBlocks <= BITS
    ensures FreeBlocks(fs.g, fs.disk) == FreeBlocks(fs.g, old(fs.disk))
    ensures SuperFree(fs.disk) == SuperFree(old(fs.disk)) && GroupFree(fs.disk) == GroupFree(old(fs.disk))
  {
    hide VolOk;
    hide OthersKept;
    hide Freed;
    hide TableKept;
    hide DirsOk;
    ghost var v0, base := fs.State(), fs.base;
    var n := fs.files[f].ino;
    SizeBound(fs.g, fs.base, v0, n);
    StartProgress(fs.g, fs.base, v0, n, 0);
    for k := 0 to |ops|
      invariant forall j :: 0 <= j < |ops| && ops[j].Write? ==> 0 in ops[j].buf[..]
      invariant fs.base == base && fs.Valid() && DirsOk(fs.State()) && OthersKept(v0, fs.State(), n)
      invariant f < |fs.files| && fs.files[f].ino == n && n in fs.inodes && n in fs.npos && !IsDir(fs.inodes[n])
      invariant fs.files[f].offset <= fs.npos[n] * BLOCKSIZE
    {
      ghost var v := fs.State();
      ApplyFile(fs, f, ops[k]);
      OthersKeptTransitive(v0, v, fs.State(), n);
    }
    ghost var v := fs.State();
    fs.FreeIBlocks(n);
    AccountsRestored(fs.g, fs.base, v0, v, fs.State(), n);
    OthersKeptTransitive(v0, v, fs.State(), n);
  }

  datatype Op =
    | File(f: nat, op: FileOp)
    | Insert(dir: nat, child: u32, name: seq<byte>)
    | Remove(dir: nat, name: seq<byte>)

  /** Whether removing q leaves no null slot before a set one. */
  method CanRemove(fs: Ext2, n: nat, q: seq<byte>) returns (ok: bool)
    requires fs.Valid() && DirsOk(fs.State()) && n in fs.inodes && n in fs.npos && IsDir(fs.inodes[n])
    requires DirInode(fs.disk, fs.inodes[n], fs.npos[n])
    ensures ok <==> !LeavesHole(fs.State(), n, q)
  {
    hide VolOk;
    hide Chain;
    hide Recs;
    hide FirstMatch;
    ghost var v := fs.State();
    DirSlots(fs.g, fs.base, v, n);
    ghost var s := DirBlocks(v, n);
    var i := 0;
    while i < NDIRECT
      invariant i <= NDIRECT && i <= fs.npos[n] && FindIn(s, q, 0) == FindIn(s, q, i)
    {
      if fs.inodes[n].block[i] == 0 {
        return true;
      }
      var c := CutBuf(fs.disk[fs.inodes[n].block[i]], q);
      if !c.Absent? {
        return c.Remains? || i + 1 == NDIRECT || fs.inodes[n].block[i + 1] == 0;
      }
      i := i + 1;
    }
    return true;
  }

  /** Any run of writes, truncations, direct-block insertions and removals keeps the ownership invariant
      and every directory a list of record chains. Operations whose target does not fit are skipped. */
  method Run(fs: Ext2, ops: seq<Op>)
    requires fs.Valid() && DirsOk(fs.State())
    requires forall k :: 0 <= k < |ops| && ops[k].File? && ops[k].op.Write? ==> 0 in ops[k].op.buf[..]
    requires forall k :: 0 <= k < |ops| && ops[k].Insert? ==> NulFree(ops[k].name)
    modifies fs
    ensures fs.Valid() && DirsOk(fs.State()) && fs.base == old(fs.base)
  {
    hide VolOk;
    hide OthersKept;
    hide DirInode;
    hide FindBytes;
    for k := 0 to |ops|
      invariant forall j :: 0 <= j < |ops| && ops[j].File? && ops[j].op.Write? ==> 0 in ops[j].op.buf[..]
      invariant fs.Valid() && DirsOk(fs.State()) && fs.base == old(fs.base)
    {
      match ops[k] {
        case File(f, op) =>
          if f < |fs.files| && fs.files[f].ino in fs.inodes && !IsDir(fs.inodes[fs.files[f].ino])
             && fs.files[f].offset <= fs.inodes[fs.files[f].ino].size {
            SizeBound(fs.g, fs.base, fs.State(), fs.files[f].ino);
            ApplyFile(fs, f, op);
          }
        case Insert(n, child, name) =>
          if n in fs.inodes && IsDir(fs.inodes[n]) {
            var _ := InsertChild(fs, n, child, name);
          }
        case Remove(n, name) =>
          if n in fs.inodes && IsDir(fs.inodes[n]) {
            var ok := CanRemove(fs, n, name);
            if ok {
              var _ := RemoveChild(fs, n, name);
            }
          }
      }
    }
  }
}
