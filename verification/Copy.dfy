/** The copy loop of cp, on top of read and write. */
module Copy {
  import opened Bytes
  import opened Layout
  import opened Bitmap
  import opened Volume
  import opened InodeTable
  import opened FileData
  import opened FileSystem
  import opened Space

  const CHUNK := 1024

  function FileBytes(disk: Disk, inodes: map<nat, Inode>, n: nat): seq<byte>
    requires n in inodes && inodes[n].size <= MAXSIZE
  {
    Contents(disk, inodes[n])
  }

  /** copy is what stands before the first 0 byte of data. */
  ghost predicate UpToNul(data: seq<byte>, copy: seq<byte>) {
    copy < data && 0 !in copy && data[|copy|] == 0
  }

  /** cp fails exactly on a source byte of 0, which ends what write sees and what is copied, or on a full
      volume; otherwise the destination becomes a copy of any nonempty source. */
  method Cp(fs: Ext2, fd1: nat, fd2: nat) returns (r: int)
    requires fs.Valid() && fd1 < |fs.files| && fd2 < |fs.files|
    requires fs.files[fd1].ino in fs.inodes && fs.files[fd2].ino in fs.inodes
    requires fs.files[fd1].ino != fs.files[fd2].ino
    requires fs.files[fd1].offset == 0 && fs.files[fd2].offset == 0
    requires fs.inodes[fs.files[fd1].ino].size <= MAXSIZE && fs.inodes[fs.files[fd2].ino].size <= MAXSIZE
    modifies fs
    ensures fs.Valid() && (r == 0 || r == -1)
    ensures OthersKept(old(fs.State()), fs.State(), old(fs.files[fd2].ino))
    ensures var src, dst := old(fs.files[fd1].ino), old(fs.files[fd2].ino);
            && dst in fs.inodes && fs.inodes[dst].size <= MAXSIZE
            && var data := old(FileBytes(fs.disk, fs.inodes, fs.files[fd1].ino));
            && (r == 0 ==> 0 !in data)
            && (r == 0 && data != [] ==> FileBytes(fs.disk, fs.inodes, dst) == data)
            && (r == 0 && data == [] ==> fs.State() == old(fs.State()))
            && (r == -1 ==> Full(fs.g, fs.disk) || UpToNul(data, FileBytes(fs.disk, fs.inodes, dst)))
  {
    hide VolOk;
    hide OthersKept;
    hide WriteDone;
    hide WriteFailed;
    hide TableKept;
    hide Stored;
    hide Contents;
    hide Full;
    hide Missing;
    hide FreeBlocks;
    hide WriteLen;
    ghost var v0 := fs.State();
    var src, dst := fs.files[fd1].ino, fs.files[fd2].ino;
    ghost var data := FileBytes(fs.disk, fs.inodes, src);
    var buf := new byte[CHUNK + 1];
    ghost var done := 0;
    SizeBound(fs.g, fs.base, v0, dst);
    StartProgress(fs.g, fs.base, v0, dst, 0);
    while true
      invariant fs.Valid() && OthersKept(v0, fs.State(), dst) && done <= |data|
      invariant fs.files == old(fs.files)[fd1 := OpenFile(src, done)][fd2 := OpenFile(dst, done)]
      invariant src in fs.inodes && fs.inodes[src] == v0.inodes[src] && Contents(fs.disk, fs.inodes[src]) == data
      invariant dst in fs.inodes && dst in fs.npos && done <= fs.npos[dst] * BLOCKSIZE
      invariant done == 0 ==> fs.State() == v0
      invariant done > 0 ==> fs.inodes[dst].size == done && Contents(fs.disk, fs.inodes[dst]) == data[..done]
      invariant 0 !in data[..done]
      decreases |data| - done
    {
      ghost var v := fs.State();
      var nbytes := fs.ReadFile(fd1, buf, CHUNK);
      if nbytes == 0 {
        assert data[..done] == data;
        return 0;
      }
      ghost var chunk := data[done..done + nbytes];
      assert buf[..nbytes] == chunk;
      CString(buf[..], nbytes);
      ghost var w := fs.State();
      var written := fs.WriteFile(fd2, buf, CHUNK);
      OffsetMapped(fs.g, w, fs.State(), dst, done, buf[..if written < 0 then WriteLen(buf[..], CHUNK) else written]);
      OthersKeptTransitive(v0, w, fs.State(), dst);
      if nbytes != written {
        SizeBound(fs.g, fs.base, fs.State(), dst);
        if written >= 0 {
          CutShort(fs.g, w, fs.State(), dst, done, data, buf[..], written, nbytes);
        }
        return -1;
      }
      SourceKept(fs.g, fs.base, w, fs.State(), src, dst);
      Appended(fs.g, w, fs.State(), dst, done, data, nbytes);
      done := done + nbytes;
    }
  }

  /** strlen of a buffer whose byte n is 0 is n, unless an earlier byte is 0. */
  lemma CString(s: seq<byte>, n: nat)
    requires n < |s| && s[n] == 0 && n <= CHUNK
    ensures 0 in s && WriteLen(s, CHUNK) <= n
    ensures WriteLen(s, CHUNK) == n <==> 0 !in s[..n]
  {
    var z := StrLen(s);
    assert z < n ==> s[..n][z] == 0;
    assert z == n ==> forall k :: 0 <= k < n ==> s[..n][k] != 0;
  }

  lemma SourceKept(g: Geometry, base: set<nat>, v: Vol, v': Vol, src: nat, dst: nat)
    requires VolOk(g, base, v) && OthersKept(v, v', dst) && src in v.inodes && src != dst
    requires v.inodes[src].size <= MAXSIZE
    ensures src in v'.inodes && v'.inodes[src] == v.inodes[src]
    ensures Contents(v'.disk, v'.inodes[src]) == Contents(v.disk, v.inodes[src])
  {
    hide ByteAt;
    OtherFileKept(g, base, v, v', dst, src);
  }

  /** A write that a 0 byte ended. */
  lemma CutShort(g: Geometry, v: Vol, v': Vol, dst: nat, done: nat, data: seq<byte>, buf: seq<byte>, len: nat, n: nat)
    requires done + n <= |data| && n < |buf| && buf[..n] == data[done..done + n] && buf[n] == 0 && n <= CHUNK
    requires len == WriteLen(buf, CHUNK) && len != n && 0 !in data[..done]
    requires WriteDone(g, v, v', dst, done, buf[..len])
    requires done > 0 ==> v.inodes[dst].size == done && Contents(v.disk, v.inodes[dst]) == data[..done]
    ensures v'.inodes[dst].size == done + len && UpToNul(data, Contents(v'.disk, v'.inodes[dst]))
  {
    CString(buf, n);
    assert len < n && buf[len] == 0;
    assert buf[..n][len] == data[done..done + n][len];
    assert buf[..len] == buf[..n][..len] == data[done..done + n][..len] == data[done..done + len];
    Appended(g, v, v', dst, done, data, len);
    assert data[..done + len] == data[..done] + data[done..done + len];
    hide Contents;
    hide WriteDone;
  }

  /** A full write at the end of a copy so far extends it by the chunk. */
  lemma Appended(g: Geometry, v: Vol, v': Vol, dst: nat, done: nat, data: seq<byte>, len: nat)
    requires done + len <= |data| && WriteDone(g, v, v', dst, done, data[done..done + len])
    requires done > 0 ==> v.inodes[dst].size == done && Contents(v.disk, v.inodes[dst]) == data[..done]
    ensures v'.inodes[dst].size == done + len && Contents(v'.disk, v'.inodes[dst]) == data[..done + len]
  {
    hide ByteAt;
    hide OnDisk;
    assert data[..done + len] == data[..done] + data[done..done + len];
  }
}
