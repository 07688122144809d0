/** The mounted ext2 volume: block allocation, mapping file positions to blocks, reading and writing files. */
module FileSystem {
  import opened Bytes
  import opened Layout
  import opened Bitmap
  import opened Volume
  import opened InodeTable
  import opened FileData
  import opened Truncate
  import opened Space

  /** One entry of the open-file table, as far as file data is concerned. */
  datatype OpenFile = OpenFile(ino: nat, offset: nat)

  /** strlen */
  function StrLen(s: seq<byte>): (n: nat)
    requires 0 in s
    ensures n < |s| && s[n] == 0 && forall k :: 0 <= k < n ==> s[k] != 0
  {
    if s[0] == 0 then 0 else 1 + StrLen(s[1..])
  }

  function Min(a: int, b: int): int {
    if a < b then a else b
  }

  /** How many bytes write_file(buf, count) is asked to write. */
  function WriteLen(s: seq<byte>, count: int): (n: nat)
    requires 0 in s
    ensures n < |s| && (forall k :: 0 <= k < n ==> s[k] != 0)
    ensures count <= 0 ==> n == 0
    ensures count > 0 ==> n <= count && (n == count || s[n] == 0)
  {
    if count <= 0 then 0 else Min(count, StrLen(s))
  }

  /** How many bytes read_file(count) delivers from offset o of a file of the given size. */
  function ReadLen(size: nat, o: nat, count: int): (n: nat)
    ensures count <= 0 || size <= o ==> n == 0
    ensures count > 0 && o < size ==> n <= count && o + n <= size && (n == count || o + n == size)
  {
    if count <= 0 || size <= o then 0 else Min(count, size - o)
  }

  /** The mapped prefix after mapping position p, which was at most its end. */
  function Extended(np: nat, p: nat): nat {
    if p == np then np + 1 else np
  }

  class Ext2 {
    const g: Geometry
    var disk: Disk
    var inodes: map<nat, Inode>
    var files: seq<OpenFile>
    ghost var base: set<nat>
    ghost var owner: map<nat, Key>
    ghost var npos: map<nat, nat>

    /** A mounted volume: what FS_init reads off the superblock is g. */
    constructor (g: Geometry, disk: Disk, inodes: map<nat, Inode>, files: seq<OpenFile>, ghost base: set<nat>, ghost v: Vol)
      requires v.disk == disk && v.inodes == inodes && VolOk(g, base, v)
      ensures Valid() && this.g == g && this.base == base && State() == v && this.files == files
    {
      this.g, this.disk, this.inodes, this.files, this.base := g, disk, inodes, files, base;
      owner, npos := v.owner, v.npos;
    }

    ghost function State(): Vol
      reads this
    {
      Vol(disk, inodes, owner, npos)
    }

    ghost predicate Valid()
      reads this
    {
      VolOk(g, base, State())
    }

    method DecFreeBlocks()
      requires |disk| > 1
      modifies `disk
      ensures disk == Counted(old(disk), -1)
    {
      var buf := disk[0];
      disk := disk[0 := PutU32(buf, SUPER_FREE, (U32At(buf, SUPER_FREE) - 1) % 0x1_0000_0000)];
      buf := disk[1];
      disk := disk[1 := PutU16(buf, GROUP_FREE, (U16At(buf, GROUP_FREE) - 1) % 0x1_0000)];
    }

    method IncFreeBlocks()
      requires |disk| > 1
      modifies `disk
      ensures disk == Counted(old(disk), 1)
    {
      var buf := disk[0];
      disk := disk[0 := PutU32(buf, SUPER_FREE, (U32At(buf, SUPER_FREE) + 1) % 0x1_0000_0000)];
      buf := disk[1];
      disk := disk[1 := PutU16(buf, GROUP_FREE, (U16At(buf, GROUP_FREE) + 1) % 0x1_0000)];
    }

    /** First-fit allocation; 0 means the volume is full. */
    method AllocBlock(ghost used: set<nat>) returns (r: nat)
      requires GeometryOk(g, disk, base) && Accounted(g, disk, used) && 0 in used
      modifies `disk
      ensures r == 0 ==> disk == old(disk) && Full(g, disk)
      ensures r != 0 ==> !Full(g, old(disk))
      ensures r != 0 ==> r < g.maxBlocks && r !in used && forall c: nat :: c < r ==> c in used
      ensures r != 0 ==> disk == AfterAlloc(g, old(disk), r) && Accounted(g, disk, used + {r})
    {
      var buf := disk[g.bitmap];
      var i := 0;
      while i < g.maxBlocks
        invariant i <= g.maxBlocks && disk == old(disk)
        invariant forall c: nat :: c < i ==> TestBit(disk[g.bitmap], c) && c in used
      {
        if !TestBit(buf, i) {
          assert i in FreeBlocks(g, disk);
          AllocAccounted(g, disk, used, i);
          buf := Marked(buf, i);
          disk := disk[g.bitmap := buf];
          DecFreeBlocks();
          return i;
        }
        i := i + 1;
      }
      return 0;
    }

    /** Returns block blk to the bitmap; a block that is free already is counted once more. */
    method DallocBlock(blk: nat, ghost used: set<nat>)
      requires GeometryOk(g, disk, base)
      modifies `disk
      ensures blk >= g.maxBlocks ==> disk == old(disk)
      ensures blk < g.maxBlocks ==> disk == AfterFree(g, old(disk), blk)
      ensures blk < g.maxBlocks && blk in used && Accounted(g, old(disk), used) ==> Accounted(g, disk, used - {blk})
    {
      if blk >= g.maxBlocks {
        return;
      }
      if blk in used && Accounted(g, disk, used) {
        FreeAccounted(g, disk, used, blk);
      }
      var buf := Cleared(disk[g.bitmap], blk);
      disk := disk[g.bitmap := buf];
      IncFreeBlocks();
    }

    /** blk = i_block[k] = alloc_block(), followed for a pointer table by clearing the table. */
    method AllocRoot(n: nat, k: nat) returns (b: nat)
      requires Valid() && n in inodes && k <= DBL && inodes[n].block[k] == 0
      requires LinkInOrder(RootPath(k), npos[n])
      modifies `disk, `inodes, `owner, `npos
      ensures Valid() && MetaKept(g, base, old(disk), disk) && inodes.Keys == old(inodes.Keys)
      ensures b == 0 ==> State() == old(State()) && npos == old(npos) && Full(g, disk)
      ensures b != 0 ==> !Full(g, old(disk))
      ensures n in inodes && inodes[n].blocks == old(inodes[n].blocks)
      ensures b != 0 ==> Grown(old(State()), State(), n) && npos[n] == NextPos(RootPath(k), old(npos[n]))
      ensures b != 0 ==> Ptr(disk, inodes[n], RootPath(k)) == b
      ensures b != 0 ==> inodes[n] == old(inodes[n]).(block := old(inodes[n]).block[k := b])
    {
      hide Ptr;
      hide Grown;
      hide LinkInOrder;
      hide NextPos;
      hide PutU32;
      hide VolOk;
      hide GeometryOk;
      hide Accounted;
      hide FreeBlocks;
      ghost var v, q := State(), RootPath(k);
      VolFacts(g, base, v, n);
      b := AllocBlock(Used(base, v));
      if b == 0 {
        return;
      }
      ghost var d := disk;
      inodes := inodes[n := inodes[n].(block := inodes[n].block[k := b])];
      if k >= NDIRECT {
        disk := disk[b := Zeros(BLOCKSIZE)];
      }
      owner := owner[b := Key(n, q)];
      npos := npos[n := NextPos(q, npos[n])];
      RootStep(g, base, v, d, n, k, b, State());
    }
  
    /** table[k] = alloc_block() in the pointer table in block t, at path own of the tree. Under the
        double-indirect table the new block is itself a table and is cleared. */
    method AllocEntry(n: nat, t: nat, own: Path, k: nat) returns (b: nat)
      requires Valid() && n in inodes && k < WORDS && n in npos
      requires t in owner && owner[t] == Key(n, own) && IsTable(own) && ValidPath(own) && t < |disk| && Entry(disk, t, k) == 0
      requires LinkInOrder(Below(own, k), npos[n])
      modifies `disk, `inodes, `owner, `npos
      ensures Valid() && MetaKept(g, base, old(disk), disk) && inodes.Keys == old(inodes.Keys)
      ensures b == 0 ==> State() == old(State()) && npos == old(npos) && Full(g, disk)
      ensures n in inodes && inodes[n].blocks == old(inodes[n].blocks)
      ensures b != 0 ==> Grown(old(State()), State(), n) && npos[n] == NextPos(Below(own, k), old(npos[n]))
      ensures b != 0 ==> Ptr(disk, inodes[n], Below(own, k)) == b
    {
      hide Ptr;
      hide Grown;
      hide LinkInOrder;
      hide NextPos;
      hide PutU32;
      hide Below;
      hide VolOk;
      hide GeometryOk;
      hide Accounted;
      hide FreeBlocks;
      ghost var v := State();
      VolFacts(g, base, v, n);
      b := AllocBlock(Used(base, v));
      if b == 0 {
        return;
      }
      ghost var d := disk;
      disk := disk[t := PutU32(disk[t], 4 * k, b)];
      if own.Dbl? {
        disk := disk[b := Zeros(BLOCKSIZE)];
      }
      owner := owner[b := Key(n, Below(own, k))];
      npos := npos[n := NextPos(Below(own, k), npos[n])];
      EntryStep(g, base, v, d, n, t, k, b, State());
    }

    /** i_blocks += SECS_PER_BLK, for the data block mapped since v0. */
    method AddSectors(n: nat, ghost v0: Vol)
      requires Valid() && n in inodes && n in npos && n in v0.inodes && n in v0.npos
      requires Grown(v0, State(), n) && inodes[n].blocks == v0.inodes[n].blocks && npos[n] == v0.npos[n] + 1
      modifies `inodes
      ensures Valid() && inodes.Keys == old(inodes.Keys) && Grown(v0, State(), n) && Mapped(v0, State(), n)
      ensures forall q :: ValidPath(q) ==> Ptr(disk, inodes[n], q) == Ptr(disk, old(inodes[n]), q)
    {
      hide VolOk;
      hide Ptr;
      hide Grown;
      hide Mapped;
      ghost var v := State();
      inodes := inodes[n := inodes[n].(blocks := AddBlocks(inodes[n].blocks, 1))];
      BlocksStep(g, base, v0, v, n, inodes[n].blocks, State());
      MappedOne(v0, State(), n);
    }

    method MapIndirect(n: nat, k: nat) returns (blk: nat)
      requires Valid() && n in inodes && n in npos && k < WORDS && PosOf(IndData(k)) <= npos[n]
      modifies `disk, `inodes, `owner, `npos
      ensures Valid() && MetaKept(g, base, old(disk), disk) && inodes.Keys == old(inodes.Keys)
      ensures Grown(old(State()), State(), n) && Mapped(old(State()), State(), n)
      ensures blk == 0 ==> Full(g, disk) && npos[n] == old(npos[n]) == PosOf(IndData(k))
      ensures blk != 0 ==> npos[n] == Extended(old(npos[n]), PosOf(IndData(k)))
      ensures blk != 0 ==> Ptr(disk, inodes[n], IndData(k)) == blk
    {
      hide Grown;
      hide MetaKept;
      hide VolOk;
      hide Mapped;
      hide Ptr;
      hide Entry;
      hide Accounted;
      hide GeometryOk;
      hide FreeBlocks;
      hide Dense;
      ghost var v := State();
      VolFacts(g, base, v, n);
      Walk(disk, inodes[n]);
      MapFacts(g, base, v, n, NDIRECT + k);
      if inodes[n].block[IND] == 0 {
        var t := AllocRoot(n, IND);
        if t == 0 {
          MappedNone(v, State(), n);
          return 0;
        }
      }
      ghost var w := State();
      VolFacts(g, base, w, n);
      Walk(disk, inodes[n]);
      OwnerAt(g, base, w, n, Ind);
      MapFacts(g, base, w, n, NDIRECT + k);
      blk := Entry(disk, inodes[n].block[IND], k);
      if blk == 0 {
        blk := AllocEntry(n, inodes[n].block[IND], Ind, k);
        if blk != 0 {
          VolFacts(g, base, State(), n);
          MapTwice(g, base, v, w, State(), n);
          AddSectors(n, v);
          return;
        }
      }
      MappedNone(v, State(), n);
    }
  
    /** The second-level table that serves TabData(a, j), allocating it and the table above it. */
    method SecondLevel(n: nat, a: nat, j: nat) returns (dbk: nat)
      requires n in inodes && n in npos && a < WORDS && j < WORDS && PosOf(TabData(a, j)) <= npos[n]
      requires Valid()
      modifies `disk, `inodes, `owner, `npos
      ensures n in inodes && n in npos && inodes.Keys == old(inodes.Keys)
      ensures npos[n] == old(npos[n]) && inodes[n].blocks == old(inodes[n].blocks)
      ensures dbk == 0 ==> Full(g, disk) && npos[n] == PosOf(TabData(a, j))
      ensures dbk != 0 ==> Ptr(disk, inodes[n], Tab(a)) == dbk
      ensures Valid() && MetaKept(g, base, old(disk), disk)
      ensures Grown(old(State()), State(), n)
    {
      hide Grown;
      hide MetaKept;
      hide VolOk;
      hide Ptr;
      hide Entry;
      hide Accounted;
      hide GeometryOk;
      hide Full;
      hide Dense;
      ghost var p, v := PosOf(TabData(a, j)), State();
      VolFacts(g, base, v, n);
      Walk(disk, inodes[n]);
      MapFacts(g, base, v, n, p);
      if inodes[n].block[DBL] == 0 {
        var t := AllocRoot(n, DBL);
        if t == 0 {
          return 0;
        }
      }
      ghost var w := State();
      VolFacts(g, base, w, n);
      Walk(disk, inodes[n]);
      OwnerAt(g, base, w, n, Dbl);
      MapFacts(g, base, w, n, p);
      dbk := Entry(disk, inodes[n].block[DBL], a);
      if dbk == 0 {
        dbk := AllocEntry(n, inodes[n].block[DBL], Dbl, a);
        VolFacts(g, base, State(), n);
        if dbk != 0 {
          MapTwice(g, base, v, w, State(), n);
        }
      }
    }

    method MapDouble(n: nat, a: nat, j: nat) returns (blk: nat)
      requires n in inodes && n in npos && a < WORDS && j < WORDS && PosOf(TabData(a, j)) <= npos[n]
      requires Valid()
      modifies `disk, `inodes, `owner, `npos
      ensures n in inodes && n in npos && inodes.Keys == old(inodes.Keys)
      ensures blk == 0 ==> Full(g, disk) && npos[n] == old(npos[n]) == PosOf(TabData(a, j))
      ensures blk != 0 ==> npos[n] == Extended(old(npos[n]), PosOf(TabData(a, j)))
      ensures blk != 0 ==> Ptr(disk, inodes[n], TabData(a, j)) == blk
      ensures Valid() && MetaKept(g, base, old(disk), disk)
      ensures Grown(old(State()), State(), n) && Mapped(old(State()), State(), n)
    {
      hide Grown;
      hide MetaKept;
      hide VolOk;
      hide Mapped;
      hide Ptr;
      hide Entry;
      hide Accounted;
      hide GeometryOk;
      hide Full;
      hide Dense;
      ghost var v := State();
      var dbk := SecondLevel(n, a, j);
      if dbk == 0 {
        MappedNone(v, State(), n);
        return 0;
      }
      ghost var x := State();
      VolFacts(g, base, x, n);
      Walk(disk, inodes[n]);
      OwnerAt(g, base, x, n, Tab(a));
      MapFacts(g, base, x, n, PosOf(TabData(a, j)));
      blk := Entry(disk, dbk, j);
      if blk == 0 {
        blk := AllocEntry(n, dbk, Tab(a), j);
        if blk != 0 {
          VolFacts(g, base, State(), n);
          MapTwice(g, base, v, x, State(), n);
          AddSectors(n, v);
          return;
        }
      }
      MappedNone(v, State(), n);
    }

    /** The block of position lbk of inode n, allocating it and any missing table above it. */
    method MapBlock(n: nat, lbk: nat) returns (blk: nat)
      requires Valid() && n in inodes && n in npos && lbk <= npos[n] && lbk < MAXPOS
      modifies `disk, `inodes, `owner, `npos
      ensures Valid() && MetaKept(g, base, old(disk), disk) && inodes.Keys == old(inodes.Keys)
      ensures Grown(old(State()), State(), n) && Mapped(old(State()), State(), n)
      ensures blk == 0 ==> Full(g, disk) && npos[n] == old(npos[n]) == lbk
      ensures blk != 0 ==> npos[n] == Extended(old(npos[n]), lbk)
      ensures blk != 0 ==> Ptr(disk, inodes[n], PathOf(lbk)) == blk
    {
      hide Grown;
      hide MetaKept;
      hide VolOk;
      hide Mapped;
      hide Ptr;
      PosOfPath(lbk);
      if lbk < NDIRECT {
        VolFacts(g, base, State(), n);
        MapFacts(g, base, State(), n, lbk);
        Walk(disk, inodes[n]);
        blk := inodes[n].block[lbk];
        ghost var v := State();
        if blk == 0 {
          blk := AllocRoot(n, lbk);
          VolFacts(g, base, State(), n);
          if blk != 0 {
            AddSectors(n, v);
            return;
          }
        }
        MappedNone(v, State(), n);
      } else if lbk < NDIRECT + WORDS {
        blk := MapIndirect(n, lbk - NDIRECT);
      } else {
        var l := lbk - (NDIRECT + WORDS);
        blk := MapDouble(n, l / WORDS, l % WORDS);
      }
    }
  
    /** One turn of write_file's loop: map the block at `offset` and store chunk there. */
    method WriteChunk(n: nat, offset: nat, chunk: seq<byte>, ghost v0: Vol, ghost o: nat, ghost data: seq<byte>)
      returns (ok: bool)
      requires Valid() && Writing(g, base, v0, State(), n, o, data)
      requires offset == o + |data| < MAXSIZE && 0 < |chunk| && offset % BLOCKSIZE + |chunk| <= BLOCKSIZE
      modifies `disk, `inodes, `owner, `npos
      ensures Valid() && n in npos
      ensures ok ==> Writing(g, base, v0, State(), n, o, data + chunk)
      ensures !ok ==> Writing(g, base, v0, State(), n, o, data) && Full(g, disk) && offset == npos[n] * BLOCKSIZE
    {
      hide VolOk;
      hide Grown;
      hide MetaKept;
      hide OthersKept;
      hide Progress;
      hide OwnersKept;
      hide Ptr;
      ghost var v := State();
      var lbk, start := offset / BLOCKSIZE, offset % BLOCKSIZE;
      var blk := MapBlock(n, lbk);
      ghost var w := State();
      GrownKeepsOthers(v, w, n);
      GrownKeepsOwners(v, w, n);
      OwnersKeptTwice(v0.owner, v.owner, owner);
      OthersKeptTransitive(v0, v, w, n);
      MetaKeptTransitive(g, base, v0.disk, v.disk, disk);
      if blk == 0 {
        ProgressKept(g, base, v0, v, w, n, o, data);
        return false;
      }
      OwnerAt(g, base, w, n, PathOf(lbk));
      var fbuf := disk[blk];
      FbufBytes(w, n, lbk, blk);
      disk := disk[blk := Splice(fbuf, start, chunk)];
      StoreStep(g, base, w, n, lbk, blk, disk[blk], State());
      ProgressStep(g, base, v0, v, w, n, o, data, lbk, chunk, fbuf, State());
      OthersKeptTransitive(v0, w, State(), n);
      MetaKeptTransitive(g, base, v0.disk, w.disk, disk);
      return true;
    }
  
    /** The end of write_file: i_size = offset, and the inode goes back to the inode table. */
    method SaveSize(n: nat, offset: nat, ghost v0: Vol, ghost o: nat, ghost data: seq<byte>)
      requires Valid() && VolOk(g, base, v0) && Writing(g, base, v0, State(), n, o, data) && offset == o + |data|
      modifies `disk, `inodes
      ensures Valid() && OthersKept(v0, State(), n) && TableKept(g, v0, State(), n)
      ensures WriteDone(g, v0, State(), n, o, data)
    {
      hide VolOk;
      hide MetaKept;
      hide OthersKept;
      hide Progress;
      hide WriteDone;
      hide TableKept;
      hide Saved;
      ghost var v := State();
      StartProgress(g, base, v, n, offset);
      inodes := inodes[n := inodes[n].(size := offset)];
      disk := Saved(g, disk, n, inodes[n]);
      FinishedWrite(g, base, v0, v, n, o, data, State());
    }

    /** Writes min(count, strlen(buf)) bytes at the entry's offset. The file then ends where the
        write ended. When the volume fills up on the way the call fails: the bytes written so far
        stay, but neither i_size nor the offset nor the inode table changes. */
    method WriteFile(f: nat, buf: array<byte>, count: int) returns (r: int)
      requires Valid() && f < |files| && files[f].ino in inodes && files[f].ino in npos
      requires files[f].offset <= npos[files[f].ino] * BLOCKSIZE
      requires 0 in buf[..] && files[f].offset + WriteLen(buf[..], count) <= MAXSIZE
      modifies `disk, `inodes, `files, `owner, `npos
      ensures Valid() && OthersKept(old(State()), State(), old(files[f].ino))
      ensures TableKept(g, old(State()), State(), old(files[f].ino))
      ensures r == WriteLen(buf[..], count) || r == -1 < WriteLen(buf[..], count)
      ensures r >= 0 ==>
                && (count <= 0 ==> r == 0)
                && (count > 0 ==> r <= count && r < buf.Length && 0 !in buf[..r] && (r == count || buf[r] == 0))
      ensures r >= 0 ==> WriteDone(g, old(State()), State(), old(files[f].ino), old(files[f].offset), buf[..r])
      ensures r >= 0 ==> files == old(files)[f := OpenFile(old(files[f].ino), old(files[f].offset) + r)]
      ensures r == -1 ==> WriteFailed(g, old(State()), State(), old(files[f].ino), old(files[f].offset),
                                      buf[..WriteLen(buf[..], count)])
      ensures r == -1 ==>
                var t := WriteLen(buf[..], count);
                && 0 < t <= count && t < buf.Length && 0 !in buf[..t] && (t == count || buf[t] == 0)
      ensures r == -1 ==> files == old(files)
      ensures g.bitmap < |old(disk)| && g.maxBlocks <= BITS
      ensures r >= 0 <==>
                |Missing(old(disk), old(inodes[files[f].ino]), Ceil(old(files[f].offset) + WriteLen(buf[..], count)))|
                <= |FreeBlocks(g, old(disk))|
    {
      hide VolOk;
      hide OthersKept;
      hide WriteDone;
      hide WriteFailed;
      hide TableKept;
      hide Accounted;
      hide GeometryOk;
      hide FreeBlocks;
      hide StrLen;
      hide Missing;
      hide Writing;
      ghost var v0 := State();
      var s, n, offset, nwrite := buf[..], files[f].ino, files[f].offset, 0;
      ghost var o, t := offset, WriteLen(s, count);
      var cnt, size := count, StrLen(s);
      StartWriting(g, base, v0, n, o);
      while cnt > 0 && size > 0
        invariant Valid() && files == old(files)
        invariant 0 <= nwrite <= t && cnt == count - nwrite && size == StrLen(s) - nwrite && offset == o + nwrite
        invariant Writing(g, base, v0, State(), n, o, s[..nwrite])
      {
        var start := offset % BLOCKSIZE;
        var len := Min(Min(size, cnt), BLOCKSIZE - start);
        var ok := WriteChunk(n, offset, s[nwrite..nwrite + len], v0, o, s[..nwrite]);
        if !ok {
          StopWriting(g, base, v0, State(), n, o, s[..nwrite], s[..t]);
          return -1;
        }
        assert s[..nwrite] + s[nwrite..nwrite + len] == s[..nwrite + len];
        offset := offset + len;
        nwrite := nwrite + len;
        cnt := cnt - len;
        size := size - len;
      }
      assert nwrite == t;
      EndWriting(g, base, v0, State(), n, o, s[..t]);
      SaveSize(n, offset, v0, o, s[..t]);
      files := files[f := OpenFile(n, offset)];
      return nwrite;
    }

    /** The block number read_file finds for position lbk. */
    method LookupBlock(n: nat, lbk: nat) returns (blk: nat)
      requires n in inodes && lbk < MAXPOS
      ensures blk == Ptr(disk, inodes[n], PathOf(lbk))
    {
      if lbk < NDIRECT {
        blk := inodes[n].block[lbk];
      } else if lbk < NDIRECT + WORDS {
        blk := Entry(disk, inodes[n].block[IND], lbk - NDIRECT);
      } else {
        var l := lbk - (NDIRECT + WORDS);
        var dbk := Entry(disk, inodes[n].block[DBL], l / WORDS);
        blk := Entry(disk, dbk, l % WORDS);
      }
    }

    /** One turn of read_file's loop: len bytes from `offset`, all in one block, go to buf + nread. */
    method ReadChunk(n: nat, offset: nat, len: nat, buf: array<byte>, nread: nat)
      requires Valid() && n in inodes && offset + len <= inodes[n].size <= MAXSIZE
      requires 0 < len && offset % BLOCKSIZE + len <= BLOCKSIZE && nread <= offset && nread + len <= buf.Length
      requires buf[..nread] == Contents(disk, inodes[n])[offset - nread..offset]
      modifies buf
      ensures buf[..nread + len] == Contents(disk, inodes[n])[offset - nread..offset + len]
      ensures buf[nread + len..] == old(buf[nread + len..])
    {
      hide VolOk;
      hide ByteAt;
      hide Ptr;
      hide Stored;
      hide PathOf;
      ghost var v, was := State(), buf[..];
      var lbk, start := offset / BLOCKSIZE, offset % BLOCKSIZE;
      var blk := LookupBlock(n, lbk);
      MappedBytes(g, base, v, n, lbk, blk);
      var fbuf := disk[blk];
      forall k | 0 <= k < len {
        buf[nread + k] := fbuf[start + k];
      }
      CopiedChunk(disk, inodes[n], was, buf[..], nread, len, offset, fbuf);
    }

    /** Copies the next bytes of the file into buf, puts a 0 behind them and advances the offset. */
    method ReadFile(f: nat, buf: array<byte>, count: int) returns (nread: nat)
      requires Valid() && f < |files| && files[f].ino in inodes
      requires ReadLen(inodes[files[f].ino].size, files[f].offset, count) < buf.Length
      modifies `files, buf
      ensures var i, o := inodes[old(files[f].ino)], old(files[f].offset);
              && i.size <= MAXSIZE
              && nread == ReadLen(i.size, o, count)
              && (count <= 0 || i.size <= o ==> nread == 0)
              && (count > 0 && o < i.size ==> nread <= count && o + nread <= i.size && (nread == count || o + nread == i.size))
              && (nread > 0 ==> buf[..nread] == Contents(disk, i)[o..o + nread])
      ensures nread < buf.Length && buf[nread] == 0 && buf[nread + 1..] == old(buf[nread + 1..])
      ensures files == old(files)[f := OpenFile(old(files[f].ino), old(files[f].offset) + nread)]
    {
      hide VolOk;
      hide Stored;
      hide Contents;
      var n, offset := files[f].ino, files[f].offset;
      SizeBound(g, base, State(), n);
      var i := inodes[n];
      var cnt, size := count, i.size - offset;
      nread := 0;
      while cnt > 0 && size > 0
        invariant files == old(files)
        invariant cnt == count - nread && size == i.size - old(files[f].offset) - nread
        invariant offset == old(files[f].offset) + nread && nread <= ReadLen(i.size, old(files[f].offset), count)
        invariant offset <= i.size ==> buf[..nread] == Contents(disk, i)[offset - nread..offset]
        invariant buf[nread..] == old(buf[nread..])
      {
        var len := Min(Min(size, cnt), BLOCKSIZE - offset % BLOCKSIZE);
        ghost var rest := buf[nread..];
        ReadChunk(n, offset, len, buf, nread);
        assert buf[nread + len..] == rest[len..] == old(buf[nread + len..]);
        nread := nread + len;
        offset := offset + len;
        size := size - len;
        cnt := cnt - len;
      }
      files := files[f := OpenFile(n, offset)];
      buf[nread] := 0;
    }
  
    /** dalloc_block(i_block[k]); i_block[k] = 0 */
    method DropRoot(n: nat, k: nat, ghost v0: Vol)
      requires k <= DBL && n in inodes && inodes[n].block[k] != 0
      requires VolOk(g, base, v0) && Dropped(g, base, v0, State(), n, k, {})
      modifies `disk, `inodes, `owner
      ensures n in inodes && Dropped(g, base, v0, State(), n, k + 1, Rest(v0.owner, n, k, 0))
      ensures inodes[n] == SlotNulled(old(inodes[n]), k)
    {
      hide VolOk;
      hide Loosened;
      hide Accounted;
      hide Rest;
      hide OthersKept;
      ghost var v := State();
      var t := inodes[n].block[k];
      LooseFacts(g, base, v, n, {});
      SubtreeSplit(g, base, v0, n, k);
      assert t in Used(base, v) && Used(base, v) + {} == Used(base, v);
      BlockCount(g, base, v0);
      DallocBlock(t, Used(base, v));
      inodes := inodes[n := inodes[n].(block := inodes[n].block[k := 0])];
      owner := Without(owner, Subtree(owner, n, k));
      DropStep(g, base, v0, v, n, k, t, disk, State());
    }

    /** dalloc_block of the block a table entry of the dropped subtree names. */
    method FreeEntry(n: nat, k: nat, b: nat, q: Path, ghost v0: Vol)
      requires VolOk(g, base, v0) && k in {IND, DBL} && n in v0.inodes
      requires ValidPath(q) && Under(k, q) && q != RootPath(k) && b == Ptr(v0.disk, v0.inodes[n], q) != 0
      requires Dropped(g, base, v0, State(), n, k + 1, Rest(v0.owner, n, k, Rank(q)))
      modifies `disk
      ensures Dropped(g, base, v0, State(), n, k + 1, Rest(v0.owner, n, k, Rank(q) + 1))
    {
      hide VolOk;
      hide Loosened;
      hide Accounted;
      hide Rest;
      hide Ptr;
      hide Dropped;
      ghost var v, loose := State(), Rest(v0.owner, n, k, Rank(q));
      DroppedFacts(g, base, v0, v, n, k + 1, loose);
      RestStep(g, base, v0, n, k, q);
      DallocBlock(b, Used(base, v) + loose);
      LooseStep(g, base, v0, v, n, k + 1, loose, b, disk);
    }

    /** The loop over the single-indirect table, already read into buf12. */
    method FreeIndirect(n: nat, buf12: Block, ghost v0: Vol)
      requires VolOk(g, base, v0) && n in v0.inodes
      requires forall j :: 0 <= j < WORDS ==> U32At(buf12, 4 * j) == Ptr(v0.disk, v0.inodes[n], IndData(j))
      requires Dropped(g, base, v0, State(), n, DBL, Rest(v0.owner, n, IND, 0))
      modifies `disk
      ensures Dropped(g, base, v0, State(), n, DBL, {})
    {
      hide VolOk;
      hide Rest;
      hide Ptr;
      hide Dropped;
      hide U32At;
      var j := 0;
      while j < WORDS
        invariant j <= WORDS
        invariant Dropped(g, base, v0, State(), n, DBL, Rest(v0.owner, n, IND, j))
      {
        var b := U32At(buf12, 4 * j);
        if b == 0 {
          RestSkip(g, base, v0, n, IND, IndData(j));
          return;
        }
        FreeEntry(n, IND, b, IndData(j), v0);
        j := j + 1;
      }
      RestTables(g, base, v0, n, IND, j);
    }

    /** The inner loop over one second-level table, already read into dbuf. */
    method FreeSecondLevel(n: nat, i: nat, dbuf: Block, ghost v0: Vol)
      requires VolOk(g, base, v0) && n in v0.inodes && i < WORDS
      requires forall j :: 0 <= j < WORDS ==> U32At(dbuf, 4 * j) == Ptr(v0.disk, v0.inodes[n], TabData(i, j))
      requires Dropped(g, base, v0, State(), n, DBL + 1, Rest(v0.owner, n, DBL, Rank(Tab(i)) + 1))
      modifies `disk
      ensures Dropped(g, base, v0, State(), n, DBL + 1, Rest(v0.owner, n, DBL, Rank(Tab(i + 1))))
    {
      hide VolOk;
      hide Rest;
      hide Ptr;
      hide Dropped;
      hide U32At;
      var j := 0;
      while j < WORDS
        invariant j <= WORDS
        invariant Dropped(g, base, v0, State(), n, DBL + 1, Rest(v0.owner, n, DBL, Rank(Tab(i)) + 1 + j))
      {
        var b := U32At(dbuf, 4 * j);
        if b == 0 {
          RestSkip(g, base, v0, n, DBL, TabData(i, j));
          RestSmaller(v0.owner, n, DBL, Rank(TabData(i, j)), Rank(Tab(i + 1)));
          return;
        }
        FreeEntry(n, DBL, b, TabData(i, j), v0);
        j := j + 1;
      }
    }

    /** The loop over the double-indirect table, already read into buf13. */
    method FreeDouble(n: nat, buf13: Block, ghost v0: Vol)
      requires VolOk(g, base, v0) && n in v0.inodes
      requires forall i :: 0 <= i < WORDS ==> U32At(buf13, 4 * i) == Ptr(v0.disk, v0.inodes[n], Tab(i))
      requires Dropped(g, base, v0, State(), n, DBL + 1, Rest(v0.owner, n, DBL, 0))
      modifies `disk
      ensures Dropped(g, base, v0, State(), n, DBL + 1, {})
    {
      hide VolOk;
      hide Rest;
      hide Ptr;
      hide Dropped;
      hide U32At;
      var i := 0;
      while i < WORDS
        invariant i <= WORDS
        invariant Dropped(g, base, v0, State(), n, DBL + 1, Rest(v0.owner, n, DBL, Rank(Tab(i))))
      {
        var t := U32At(buf13, 4 * i);
        if t == 0 {
          RestSkip(g, base, v0, n, DBL, Tab(i));
          return;
        }
        SameEntry(g, base, v0, State(), n, DBL + 1, Rest(v0.owner, n, DBL, Rank(Tab(i))), Tab(i));
        TableWords(g, base, v0, n, Tab(i), t);
        var dbuf := disk[t];
        FreeEntry(n, DBL, t, Tab(i), v0);
        FreeSecondLevel(n, i, dbuf, v0);
        i := i + 1;
      }
      RestTables(g, base, v0, n, DBL, Rank(Tab(i)));
    }

    /** The loop over the direct slots. */
    method FreeDirect(n: nat, ghost v0: Vol)
      requires VolOk(g, base, v0) && Dropped(g, base, v0, State(), n, 0, {}) && n in inodes
      modifies `disk, `inodes, `owner
      ensures Dropped(g, base, v0, State(), n, NDIRECT, {}) && n in inodes
      ensures forall k :: NDIRECT <= k < 15 ==> inodes[n].block[k] == old(inodes[n]).block[k]
    {
      hide VolOk;
      hide Rest;
      hide Loosened;
      hide OthersKept;
      var i := 0;
      while i < NDIRECT
        invariant i <= NDIRECT && n in inodes
        invariant Dropped(g, base, v0, State(), n, i, {})
        invariant forall k :: NDIRECT <= k < 15 ==> inodes[n].block[k] == old(inodes[n]).block[k]
      {
        if inodes[n].block[i] == 0 {
          break;
        }
        SubtreeSplit(g, base, v0, n, i);
        DropRoot(n, i, v0);
        i := i + 1;
      }
      SkipDirect(g, base, v0, State(), n, i);
    }

    /** Frees every block of inode n, each once, and leaves an empty file, saved in the inode table. */
    method FreeIBlocks(n: nat)
      requires Valid() && n in inodes
      modifies `disk, `inodes, `owner, `npos
      ensures Valid() && OthersKept(old(State()), State(), n) && TableKept(g, old(State()), State(), n)
      ensures Freed(g, old(State()), State(), n)
    {
      hide VolOk;
      hide Rest;
      hide Ptr;
      hide Loosened;
      hide OthersKept;
      hide TableKept;
      hide Freed;
      hide U32At;
      ghost var v0 := State();
      StartDrop(g, base, v0, n);
      Walk(disk, inodes[n]);
      FreeDirect(n, v0);
      if inodes[n].block[IND] != 0 {
        SameEntry(g, base, v0, State(), n, IND, {}, Ind);
        TableWords(g, base, v0, n, Ind, inodes[n].block[IND]);
        var buf12 := disk[inodes[n].block[IND]];
        DropRoot(n, IND, v0);
        FreeIndirect(n, buf12, v0);
      } else {
        SkipRoot(g, base, v0, State(), n, IND);
      }
      if inodes[n].block[DBL] != 0 {
        SameEntry(g, base, v0, State(), n, DBL, {}, Dbl);
        TableWords(g, base, v0, n, Dbl, inodes[n].block[DBL]);
        var buf13 := disk[inodes[n].block[DBL]];
        DropRoot(n, DBL, v0);
        FreeDouble(n, buf13, v0);
      } else {
        SkipRoot(g, base, v0, State(), n, DBL);
      }
      ghost var v := State();
      LooseFacts(g, base, v, n, {});
      StartProgress(g, base, v0, n, 0);
      inodes := inodes[n := inodes[n].(size := 0, blocks := 0, atime := 0, mtime := 0)];
      npos := npos[n := 0];
      disk := Saved(g, disk, n, inodes[n]);
      FinishFree(g, base, v0, v, n, inodes[n], State());
    }
  }
}
