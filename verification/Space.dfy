/** How many blocks a write needs, and that it succeeds exactly when so many are free. */
module Space {
  import opened Bytes
  import opened Layout
  import opened Bitmap
  import opened Volume
  import opened FileData
  import opened Truncate

  /** The places in a tree that mapping the positions below t uses: those positions, and every table that
      serves one of them. */
  ghost function Places(t: nat): set<Path> {
    (set p | 0 <= p < t :: PathOf(p))
    + (if NDIRECT < t then {Ind} else {})
    + (if NDIRECT + WORDS < t then {Dbl} else {})
    + (set a | 0 <= a < WORDS && FirstPos(Tab(a)) < t :: Tab(a))
  }

  /** Those of them that hold no block yet. */
  ghost function Missing(disk: Disk, i: Inode, t: nat): set<Path> {
    set q | q in Places(t) && ValidPath(q) && Ptr(disk, i, q) == 0
  }

  lemma PlacesMean(t: nat, q: Path)
    requires t <= MAXPOS && ValidPath(q)
    ensures q in Places(t) <==> (if IsTable(q) then FirstPos(q) < t else PosOf(q) < t)
  {
    if !IsTable(q) {
      PathOfPos(q);
      if q in Places(t) {
        var p :| 0 <= p < t && PathOf(p) == q;
        PosOfPath(p);
      }
    }
  }

  /** Nothing that was owned changed hands. */
  ghost predicate OwnersKept(owner: map<nat, Key>, owner': map<nat, Key>) {
    forall b :: b in owner ==> b in owner' && owner'[b] == owner[b]
  }

  lemma OwnersKeptTwice(a: map<nat, Key>, b: map<nat, Key>, c: map<nat, Key>)
    requires OwnersKept(a, b) && OwnersKept(b, c)
    ensures OwnersKept(a, c)
  {
  }

  lemma GrownKeepsOwners(v: Vol, v': Vol, n: nat)
    requires Grown(v, v', n)
    ensures OwnersKept(v.owner, v'.owner)
  {
    hide Ptr;
  }

  lemma CeilAbove(x: nat, p: nat)
    requires p * BLOCKSIZE < x <= MAXSIZE
    ensures p < Ceil(x) <= MAXPOS
  {
  }

  /** The places of inode n that hold a block now and held none before. */
  ghost function Gained(v: Vol, v': Vol, n: nat): set<Path> {
    set b | b in v'.owner && b !in v.owner :: v'.owner[b].path
  }

  lemma {:induction false} ImageSize(owner: map<nat, Key>, s: set<nat>)
    requires s <= owner.Keys && forall b, c :: b in s && c in s && owner[b].path == owner[c].path ==> b == c
    ensures |set b | b in s :: owner[b].path| == |s|
  {
    if s != {} {
      var b :| b in s;
      ImageSize(owner, s - {b});
      var r := set c | c in s - {b} :: owner[c].path;
      assert owner[b].path !in r;
      assert (set c | c in s :: owner[c].path) == r + {owner[b].path};
    }
  }

  ghost function NewlyOwned(v: Vol, v': Vol): set<nat> {
    set b | b in v'.owner && b !in v.owner
  }

  lemma NewOwner(v: Vol, v': Vol, n: nat, b: nat)
    requires OthersKept(v, v', n) && b in NewlyOwned(v, v')
    ensures b in v'.owner && v'.owner[b].ino == n
  {
  }

  /** The blocks that are free no more are the newly owned ones. */
  lemma NewlyFree(g: Geometry, base: set<nat>, v: Vol, v': Vol, n: nat)
    requires VolOk(g, base, v) && VolOk(g, base, v') && OthersKept(v, v', n) && OwnersKept(v.owner, v'.owner)
    ensures g.bitmap < |v.disk| == |v'.disk| && g.maxBlocks <= BITS
    ensures |FreeBlocks(g, v.disk)| == |FreeBlocks(g, v'.disk)| + |NewlyOwned(v, v')|
  {
    hide VolOk;
    hide FreeBlocks;
    var s := NewlyOwned(v, v');
    FreeMeans(g, base, v);
    FreeMeans(g, base, v');
    forall b | b in s ensures b < g.maxBlocks && b !in base {
      NewOwner(v, v', n, b);
      OwnedSlot(g, base, v', n, b);
    }
    var f, f' := FreeBlocks(g, v.disk), FreeBlocks(g, v'.disk);
    assert f == f' + s && f' !! s;
    DisjointSize(f', s);
  }

  lemma DisjointSize(a: set<nat>, b: set<nat>)
    requires a !! b
    ensures |a + b| == |a| + |b|
  {
  }

  /** Every block gained was free, and every block that is free no more was gained. */
  lemma GainedSize(g: Geometry, base: set<nat>, v: Vol, v': Vol, n: nat)
    requires VolOk(g, base, v) && VolOk(g, base, v') && OthersKept(v, v', n) && OwnersKept(v.owner, v'.owner)
    requires n in v'.inodes
    ensures g.bitmap < |v.disk| == |v'.disk| && g.maxBlocks <= BITS
    ensures |FreeBlocks(g, v.disk)| == |FreeBlocks(g, v'.disk)| + |Gained(v, v', n)|
  {
    NewlyFree(g, base, v, v', n);
    hide VolOk;
    hide FreeBlocks;
    hide Ptr;
    hide Dense;
    hide OthersKept;
    hide OwnersKept;
    hide HangsAt;
    hide ValidPath;
    forall b | b in NewlyOwned(v, v') ensures HangsAt(v', n, b) {
      NewOwner(v, v', n, b);
      Hanging(g, base, v', n, b);
    }
    GainedPaths(v, v', n);
  }

  lemma Hanging(g: Geometry, base: set<nat>, v: Vol, n: nat, b: nat)
    requires VolOk(g, base, v) && n in v.inodes && b in v.owner && v.owner[b].ino == n
    ensures HangsAt(v, n, b)
  {
    hide VolOk;
    hide Ptr;
    hide Dense;
    MappedOwner(g, base, v, n, b);
  }

  lemma GainedPaths(v: Vol, v': Vol, n: nat)
    requires n in v'.inodes && forall b :: b in NewlyOwned(v, v') ==> HangsAt(v', n, b)
    ensures |Gained(v, v', n)| == |NewlyOwned(v, v')|
  {
    hide Ptr;
    hide ValidPath;
    var s := NewlyOwned(v, v');
    ImageSize(v'.owner, s);
    assert Gained(v, v', n) == set b | b in s :: v'.owner[b].path;
  }

  /** A place gained holds a block that was not owned. */
  lemma GainedAt(g: Geometry, base: set<nat>, v: Vol, v': Vol, n: nat, q: Path)
    requires VolOk(g, base, v') && OthersKept(v, v', n) && n in v'.inodes && q in Gained(v, v', n)
    ensures ValidPath(q) && Ptr(v'.disk, v'.inodes[n], q) in v'.owner.Keys - v.owner.Keys
  {
    var b :| b in v'.owner && b !in v.owner && v'.owner[b].path == q;
    NewOwner(v, v', n, b);
    hide VolOk;
    hide Ptr;
    hide Dense;
    hide OthersKept;
    MappedOwner(g, base, v', n, b);
  }

  /** Block b hangs in the tree of n where the owner map says. */
  ghost predicate HangsAt(v: Vol, n: nat, b: nat)
    requires b in v.owner && n in v.inodes
  {
    ValidPath(v.owner[b].path) && Ptr(v.disk, v.inodes[n], v.owner[b].path) == b != 0
  }

  /** A place holds a block of n it held before, or one it gained. */
  lemma GainedIs(g: Geometry, base: set<nat>, v: Vol, v': Vol, n: nat, q: Path)
    requires VolOk(g, base, v) && VolOk(g, base, v') && OwnersKept(v.owner, v'.owner)
    requires n in v.inodes && n in v'.inodes && ValidPath(q)
    ensures q in Gained(v, v', n) && Ptr(v.disk, v.inodes[n], q) != 0 ==> Ptr(v'.disk, v'.inodes[n], q) in v.owner
    ensures Ptr(v.disk, v.inodes[n], q) == 0 != Ptr(v'.disk, v'.inodes[n], q) ==> q in Gained(v, v', n)
  {
    hide VolOk;
    hide Ptr;
    hide Dense;
    OwnerAt(g, base, v, n, q);
    OwnerAt(g, base, v', n, q);
    var b, b' := Ptr(v.disk, v.inodes[n], q), Ptr(v'.disk, v'.inodes[n], q);
    if b != 0 {
      MappedOwner(g, base, v', n, b);
    } else if b' != 0 && b' in v.owner {
      MappedOwner(g, base, v, n, b');
    }
  }

  /** With the first t positions mapped every place they use holds a block. */
  lemma PlacesHeld(disk: Disk, i: Inode, np: nat, t: nat, q: Path)
    requires Dense(disk, i, np) && t <= np && ValidPath(q) && q in Places(t)
    ensures Ptr(disk, i, q) != 0
  {
    PlacesMean(t, q);
    var p := if IsTable(q) then FirstPos(q) else PosOf(q);
    if IsTable(q) {
      FirstOf(disk, i, q);
    } else {
      PathOfPos(q);
    }
    assert Ptr(disk, i, PathOf(p)) != 0;
  }

  /** The first position a table serves hangs off its first entry. */
  lemma FirstOf(disk: Disk, i: Inode, q: Path)
    requires ValidPath(q) && IsTable(q)
    ensures FirstPos(q) < MAXPOS && (Ptr(disk, i, q) == 0 ==> Ptr(disk, i, PathOf(FirstPos(q))) == 0)
  {
    hide U32At;
  }

  /** A write that mapped everything up to t found enough free blocks. */
  lemma EnoughSpace(g: Geometry, base: set<nat>, v: Vol, v': Vol, n: nat, t: nat)
    requires VolOk(g, base, v) && VolOk(g, base, v') && OthersKept(v, v', n) && OwnersKept(v.owner, v'.owner)
    requires n in v.inodes && n in v'.inodes && n in v'.npos && t <= v'.npos[n]
    ensures g.bitmap < |v.disk| && g.maxBlocks <= BITS
    ensures |Missing(v.disk, v.inodes[n], t)| <= |FreeBlocks(g, v.disk)|
  {
    hide VolOk;
    hide FreeBlocks;
    hide Ptr;
    hide Dense;
    hide Places;
    hide Gained;
    GainedSize(g, base, v, v', n);
    OwnerAt(g, base, v', n, Ind);
    var m := Missing(v.disk, v.inodes[n], t);
    forall q | q in m ensures q in Gained(v, v', n) {
      PlacesHeld(v'.disk, v'.inodes[n], v'.npos[n], t, q);
      GainedIs(g, base, v, v', n, q);
    }
    SubsetSize(m, Gained(v, v', n));
  }

  lemma {:induction false} SubsetSize<T>(a: set<T>, b: set<T>)
    requires a <= b
    ensures |a| <= |b| && (a != b ==> |a| < |b|)
  {
    assert b == a + (b - a);
  }

  /** A write that a full volume stopped before position t had found too few. */
  lemma TooLittleSpace(g: Geometry, base: set<nat>, v: Vol, v': Vol, n: nat, t: nat)
    requires VolOk(g, base, v) && VolOk(g, base, v') && OthersKept(v, v', n) && OwnersKept(v.owner, v'.owner)
    requires n in v.inodes && n in v.npos && n in v'.inodes && n in v'.npos && v.npos[n] <= v'.npos[n] < t <= MAXPOS
    requires Full(g, v'.disk)
    ensures g.bitmap < |v.disk| && g.maxBlocks <= BITS
    ensures |Missing(v.disk, v.inodes[n], t)| > |FreeBlocks(g, v.disk)|
  {
    hide VolOk;
    hide FreeBlocks;
    hide Ptr;
    hide Dense;
    hide Places;
    hide Gained;
    GainedSize(g, base, v, v', n);
    var m, last := Missing(v.disk, v.inodes[n], t), PathOf(v'.npos[n]);
    OwnerAt(g, base, v, n, Ind);
    OwnerAt(g, base, v', n, Ind);
    OwnerZero(g, base, v');
    forall q | q in Gained(v, v', n) ensures q in m {
      GainedAt(g, base, v, v', n, q);
      GainedIs(g, base, v, v', n, q);
      HeldPlace(v'.disk, v'.inodes[n], v'.npos[n], t, q);
    }
    PosOfPath(v'.npos[n]);
    PlacesMean(t, last);
    NullAt(v.disk, v.inodes[n], v.npos[n], v'.npos[n]);
    NullAt(v'.disk, v'.inodes[n], v'.npos[n], v'.npos[n]);
    assert last in m;
    if last in Gained(v, v', n) { GainedAt(g, base, v, v', n, last); }
    SubsetSize(Gained(v, v', n), m);
  }

  lemma NullAt(disk: Disk, i: Inode, np: nat, p: nat)
    requires Dense(disk, i, np) && np <= p < MAXPOS
    ensures Ptr(disk, i, PathOf(p)) == 0
  {
    hide Ptr;
    hide PathOf;
  }

  lemma OwnerZero(g: Geometry, base: set<nat>, v: Vol)
    requires VolOk(g, base, v)
    ensures 0 !in v.owner
  {
    hide Ptr;
  }

  /** What holds a block serves a position of the prefix or the next one. */
  lemma HeldPlace(disk: Disk, i: Inode, np: nat, t: nat, q: Path)
    requires Dense(disk, i, np) && np < t <= MAXPOS && ValidPath(q) && Ptr(disk, i, q) != 0
    ensures q in Places(t)
  {
    hide Ptr;
    hide PathOf;
    PlacesMean(t, q);
    if !IsTable(q) {
      PathOfPos(q);
    }
  }

  /** In the loop of write_file: data has been written at o of inode n since v0. */
  ghost predicate Writing(g: Geometry, base: set<nat>, v0: Vol, v: Vol, n: nat, o: nat, data: seq<byte>) {
    && n in v.inodes && n in v.npos && n in v0.npos
    && o + |data| <= v.npos[n] * BLOCKSIZE && v.npos[n] == Max(v0.npos[n], Ceil(o + |data|))
    && Progress(v0, v, n, o, data) && OthersKept(v0, v, n)
    && MetaKept(g, base, v0.disk, v.disk) && OwnersKept(v0.owner, v.owner)
  }

  lemma StartWriting(g: Geometry, base: set<nat>, v: Vol, n: nat, o: nat)
    requires VolOk(g, base, v) && n in v.inodes && n in v.npos && o <= v.npos[n] * BLOCKSIZE
    ensures Writing(g, base, v, v, n, o, [])
    ensures g.bitmap < |v.disk| && g.maxBlocks <= BITS
  {
    hide Progress;
    hide OthersKept;
    hide MetaKept;
    hide VolOk;
    StartProgress(g, base, v, n, o);
    VolFacts(g, base, v, n);
  }

  /** A full volume stopped the write. */
  lemma StopWriting(g: Geometry, base: set<nat>, v0: Vol, v: Vol, n: nat, o: nat, done: seq<byte>, data: seq<byte>)
    requires VolOk(g, base, v0) && VolOk(g, base, v) && Writing(g, base, v0, v, n, o, done) && Full(g, v.disk)
    requires done <= data && |done| < |data| && o + |data| <= MAXSIZE && o + |done| == v.npos[n] * BLOCKSIZE
    ensures WriteFailed(g, v0, v, n, o, data) && TableKept(g, v0, v, n) && OthersKept(v0, v, n)
    ensures n in v0.inodes && g.bitmap < |v0.disk| && g.maxBlocks <= BITS
    ensures |Missing(v0.disk, v0.inodes[n], Ceil(o + |data|))| > |FreeBlocks(g, v0.disk)|
  {
    hide Progress;
    hide MetaKept;
    hide OwnersKept;
    hide VolOk;
    hide Missing;
    hide FreeBlocks;
    hide WriteFailed;
    hide TableKept;
    hide Full;
    WritingFacts(v0, v, n);
    CeilAbove(o + |data|, v.npos[n]);
    TooLittleSpace(g, base, v0, v, n, Ceil(o + |data|));
    FailedWrite(g, base, v0, v, n, o, done, data);
  }

  lemma WritingFacts(v0: Vol, v: Vol, n: nat)
    requires OthersKept(v0, v, n) && n in v.inodes
    ensures n in v0.inodes
  {
  }

  /** The whole write went through. */
  lemma EndWriting(g: Geometry, base: set<nat>, v0: Vol, v: Vol, n: nat, o: nat, data: seq<byte>)
    requires VolOk(g, base, v0) && VolOk(g, base, v) && Writing(g, base, v0, v, n, o, data)
    ensures n in v0.inodes && g.bitmap < |v0.disk| && g.maxBlocks <= BITS
    ensures |Missing(v0.disk, v0.inodes[n], Ceil(o + |data|))| <= |FreeBlocks(g, v0.disk)|
  {
    hide Progress;
    hide MetaKept;
    hide OwnersKept;
    hide VolOk;
    hide Missing;
    hide FreeBlocks;
    WritingFacts(v0, v, n);
    EnoughSpace(g, base, v0, v, n, Ceil(o + |data|));
  }
}
