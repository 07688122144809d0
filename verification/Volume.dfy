/** The state of a mounted volume as one value, its invariant, and what one link or one store does to it. */
module Volume {
  import opened Bytes
  import opened Layout
  import opened Bitmap

  /** owner and npos are what the pointer trees amount to: who owns each block, and how many
      leading positions of each inode are mapped. */
  datatype Vol = Vol(disk: Disk, inodes: map<nat, Inode>, owner: map<nat, Key>, npos: map<nat, nat>)

  /** Mapped positions form a prefix, and tables exist only where the prefix has reached them. */
  ghost predicate Dense(disk: Disk, i: Inode, n: nat)
  {
    && n <= MAXPOS
    && (forall p: nat :: p < MAXPOS ==> (Ptr(disk, i, PathOf(p)) != 0 <==> p < n))
    && (forall q :: ValidPath(q) && IsTable(q) && Ptr(disk, i, q) != 0 ==> FirstPos(q) <= n)
  }

  /** The first position a table serves. */
  function FirstPos(q: Path): nat
    requires IsTable(q)
  {
    match q
    case Ind => NDIRECT
    case Dbl => NDIRECT + WORDS
    case Tab(i) => NDIRECT + WORDS + i * WORDS
  }

  ghost predicate InodeFits(g: Geometry, n: nat) {
    0 < n && (n - 1) / 16 < g.inodeBlocks
  }

  ghost predicate FilesOk(g: Geometry, v: Vol)
  {
    && v.npos.Keys == v.inodes.Keys
    && forall n :: n in v.inodes ==>
         && InodeFits(g, n)
         && Dense(v.disk, v.inodes[n], v.npos[n])
         && v.inodes[n].size <= v.npos[n] * BLOCKSIZE
  }

  ghost function Used(base: set<nat>, v: Vol): set<nat> {
    base + v.owner.Keys
  }

  /** The ownership invariant. base holds every block no modelled inode owns, metadata included. */
  ghost predicate VolOk(g: Geometry, base: set<nat>, v: Vol) {
    && GeometryOk(g, v.disk, base)
    && Owns(v.disk, v.inodes, v.owner)
    && base !! v.owner.Keys
    && Accounted(g, v.disk, Used(base, v))
    && FilesOk(g, v)
  }

  // ---------------------------------------------------------------------------------------------
  // Frames

  /** Changes outside the owned blocks are invisible to every file. */
  lemma SameOwned(disk: Disk, disk': Disk, inodes: map<nat, Inode>, owner: map<nat, Key>)
    requires Owns(disk, inodes, owner) && SameOn(disk, disk', owner.Keys)
    ensures Owns(disk', inodes, owner)
    ensures forall n, q :: n in inodes && ValidPath(q) ==> Ptr(disk', inodes[n], q) == Ptr(disk, inodes[n], q)
  {
    forall n | n in inodes
      ensures forall q :: ValidPath(q) ==> Ptr(disk', inodes[n], q) == Ptr(disk, inodes[n], q)
    {
      PtrSameOn(disk, disk', inodes, owner, n, owner.Keys);
    }
    OwnsSamePtr(disk, disk', inodes, inodes, owner);
  }

  lemma OwnsSamePtr(disk: Disk, disk': Disk, inodes: map<nat, Inode>, inodes': map<nat, Inode>, owner: map<nat, Key>)
    requires Owns(disk, inodes, owner) && |disk'| == |disk|
    requires inodes'.Keys == inodes.Keys
    requires forall n, q :: n in inodes && ValidPath(q) ==> Ptr(disk', inodes'[n], q) == Ptr(disk, inodes[n], q)
    ensures Owns(disk', inodes', owner)
  {
    hide Ptr;
    forall b | b in owner ensures OwnedBy(disk', inodes', b, owner[b]) {
      assert OwnedBy(disk, inodes, b, owner[b]);
    }
  }

  lemma DenseSamePtr(disk: Disk, i: Inode, disk': Disk, i': Inode, n: nat)
    requires Dense(disk, i, n)
    requires forall q :: ValidPath(q) ==> Ptr(disk', i', q) == Ptr(disk, i, q)
    ensures Dense(disk', i', n)
  {
    hide Ptr;
    hide PathOf;
  }

  // ---------------------------------------------------------------------------------------------
  // Growth: what mapping new blocks into inode n may change

  ghost predicate Grown(v: Vol, v': Vol, n: nat)
  {
    && n in v.inodes && n in v.npos && n in v'.npos
    && v'.inodes.Keys == v.inodes.Keys
    && v'.inodes == v.inodes[n := v.inodes[n].(block := v'.inodes[n].block, blocks := v'.inodes[n].blocks)]
    && v'.npos == v.npos[n := v'.npos[n]] && v.npos[n] <= v'.npos[n]
    && |v'.disk| == |v.disk|
    && (forall b :: b in v.owner ==> b in v'.owner && v'.owner[b] == v.owner[b])
    && (forall b :: b in v'.owner && v'.owner[b].ino != n ==> b in v.owner)
    && (forall b :: b in v.owner && b < |v.disk| && !(v.owner[b].ino == n && IsTable(v.owner[b].path)) ==>
          v'.disk[b] == v.disk[b])
    && (forall q :: ValidPath(q) && Ptr(v.disk, v.inodes[n], q) != 0 ==>
          Ptr(v'.disk, v'.inodes[n], q) == Ptr(v.disk, v.inodes[n], q))
  }

  lemma GrownTransitive(u: Vol, v: Vol, w: Vol, n: nat)
    requires Grown(u, v, n) && Grown(v, w, n)
    ensures Grown(u, w, n)
  {
    hide Ptr;
    hide IsTable;
  }

  /** The next position a link at q maps: a data link extends the prefix by one, a table link does not. */
  function NextPos(q: Path, np: nat): nat {
    if IsTable(q) then np else np + 1
  }

  ghost predicate LinkInOrder(q: Path, np: nat) {
    if IsTable(q) then FirstPos(q) <= np else PosOf(q) == np && np < MAXPOS
  }

  lemma DenseAfterLink(disk: Disk, i: Inode, disk': Disk, i': Inode, np: nat, q: Path, b: nat)
    requires Dense(disk, i, np) && ValidPath(q) && LinkInOrder(q, np) && b != 0
    requires forall r :: ValidPath(r) ==> Ptr(disk', i', r) == if r == q then b else Ptr(disk, i, r)
    ensures Dense(disk', i', NextPos(q, np))
  {
    hide Ptr;
    if !IsTable(q) { PathOfPos(q); }
    forall p: nat | p < MAXPOS ensures Ptr(disk', i', PathOf(p)) != 0 <==> p < NextPos(q, np) {
      PosOfPath(p);
      assert ValidPath(PathOf(p));
    }
  }

  /** One allocated block linked into the tree of n: the invariant holds again, and nothing else moved. */
  lemma LinkStep(g: Geometry, base: set<nat>, v: Vol, v': Vol, n: nat, q: Path, b: nat)
    requires VolOk(g, base, v)
    requires Linked(v.disk, v.inodes, v'.disk, v'.inodes, n, q, b)
    requires LinkInOrder(q, v.npos[n]) && b !in Used(base, v)
    requires v'.owner == v.owner[b := Key(n, q)] && Owns(v'.disk, v'.inodes, v'.owner)
    requires v'.npos == v.npos[n := NextPos(q, v.npos[n])]
    requires v'.inodes == v.inodes[n := v.inodes[n].(block := v'.inodes[n].block, blocks := v'.inodes[n].blocks)]
    requires Accounted(g, v'.disk, Used(base, v) + {b})
    requires forall c :: c in v.owner && c < |v.disk| && !(v.owner[c].ino == n && IsTable(v.owner[c].path)) ==>
                v'.disk[c] == v.disk[c]
    ensures VolOk(g, base, v') && Grown(v, v', n)
  {
    hide Ptr;
    hide Accounted;
    hide Owns;
    hide Linked;
    hide IsTable;
    LinkedLength(v.disk, v.inodes, v'.disk, v'.inodes, n, q, b);
    assert Used(base, v') == Used(base, v) + {b};
    LinkFilesOk(g, v, v', n, q, b);
    LinkGrown(v, v', n, q, b);
    hide FilesOk;
    hide Grown;
  }

  lemma LinkedLength(disk: Disk, inodes: map<nat, Inode>, disk': Disk, inodes': map<nat, Inode>, n: nat, q: Path, b: nat)
    requires Linked(disk, inodes, disk', inodes', n, q, b)
    ensures |disk'| == |disk| && n in inodes
  {
  }

  lemma LinkGrown(v: Vol, v': Vol, n: nat, q: Path, b: nat)
    requires n in v.npos
    requires Linked(v.disk, v.inodes, v'.disk, v'.inodes, n, q, b)
    requires b !in v.owner && v'.owner == v.owner[b := Key(n, q)]
    requires v'.npos == v.npos[n := NextPos(q, v.npos[n])]
    requires v'.inodes == v.inodes[n := v.inodes[n].(block := v'.inodes[n].block, blocks := v'.inodes[n].blocks)]
    requires forall c :: c in v.owner && c < |v.disk| && !(v.owner[c].ino == n && IsTable(v.owner[c].path)) ==>
                v'.disk[c] == v.disk[c]
    ensures Grown(v, v', n)
  {
    hide Ptr;
  }

  lemma LinkFilesOk(g: Geometry, v: Vol, v': Vol, n: nat, q: Path, b: nat)
    requires FilesOk(g, v)
    requires Linked(v.disk, v.inodes, v'.disk, v'.inodes, n, q, b)
    requires LinkInOrder(q, v.npos[n])
    requires v'.npos == v.npos[n := NextPos(q, v.npos[n])]
    requires v'.inodes[n].size == v.inodes[n].size
    requires forall m :: m in v.inodes && m != n ==> v'.inodes[m] == v.inodes[m]
    ensures FilesOk(g, v')
  {
    hide Ptr;
    forall m | m in v'.inodes ensures Dense(v'.disk, v'.inodes[m], v'.npos[m]) {
      if m == n {
        DenseAfterLink(v.disk, v.inodes[n], v'.disk, v'.inodes[n], v.npos[n], q, b);
      } else {
        DenseSamePtr(v.disk, v.inodes[m], v'.disk, v'.inodes[m], v.npos[m]);
      }
    }
    hide Dense;
  }

  /** Metadata blocks other than the two counters and the bitmap keep their bytes. */
  ghost predicate MetaKept(g: Geometry, base: set<nat>, disk: Disk, disk': Disk) {
    SameOn(disk, disk', base - {0, 1, g.bitmap})
  }

  /** Block b was just allocated in v: marked and counted, and owned by nobody yet. */
  ghost predicate Allocated(g: Geometry, base: set<nat>, v: Vol, disk: Disk, b: nat)
    requires VolOk(g, base, v)
  {
    && 0 < b < g.maxBlocks && b !in Used(base, v)
    && disk == AfterAlloc(g, v.disk, b)
    && Accounted(g, disk, Used(base, v) + {b})
  }

  lemma AllocatedFrame(g: Geometry, base: set<nat>, v: Vol, disk: Disk, b: nat)
    requires VolOk(g, base, v) && Allocated(g, base, v, disk, b)
    ensures MetaKept(g, base, v.disk, disk) && SameOn(v.disk, disk, v.owner.Keys)
    ensures Owns(disk, v.inodes, v.owner)
    ensures forall n, q :: n in v.inodes && ValidPath(q) ==> Ptr(disk, v.inodes[n], q) == Ptr(v.disk, v.inodes[n], q)
  {
    hide AfterAlloc;
    hide Accounted;
    hide FilesOk;
    hide Ptr;
    assert SameOn(v.disk, disk, v.owner.Keys);
    SameOwned(v.disk, disk, v.inodes, v.owner);
  }

  lemma AccountedFrame(g: Geometry, disk: Disk, disk': Disk, used: set<nat>)
    requires 1 < g.bitmap < |disk| && |disk'| == |disk| && g.maxBlocks <= BITS
    requires Accounted(g, disk, used)
    requires disk'[0] == disk[0] && disk'[1] == disk[1] && disk'[g.bitmap] == disk[g.bitmap]
    ensures Accounted(g, disk', used)
  {
    assert FreeBlocks(g, disk') == FreeBlocks(g, disk);
  }

  /** The allocated block goes into slot k of i_block, as data or as an empty table. */
  lemma RootStep(g: Geometry, base: set<nat>, v: Vol, disk: Disk, n: nat, k: nat, b: nat, v': Vol)
    requires VolOk(g, base, v) && Allocated(g, base, v, disk, b)
    requires n in v.inodes && k <= DBL && v.inodes[n].block[k] == 0 && LinkInOrder(RootPath(k), v.npos[n])
    requires var i := v.inodes[n].(block := v.inodes[n].block[k := b]);
             && v'.inodes == v.inodes[n := i]
             && v'.disk == (if k < NDIRECT then disk else disk[b := Zeros(BLOCKSIZE)])
    requires v'.owner == v.owner[b := Key(n, RootPath(k))]
    requires v'.npos == v.npos[n := NextPos(RootPath(k), v.npos[n])]
    ensures VolOk(g, base, v') && Grown(v, v', n) && MetaKept(g, base, v.disk, v'.disk)
    ensures Ptr(v'.disk, v'.inodes[n], RootPath(k)) == b
  {
    hide Ptr;
    hide Accounted;
    hide AfterAlloc;
    hide Linked;
    hide Dense;
    hide LinkInOrder;
    hide Grown;
    hide Zeros;
    AllocatedFrame(g, base, v, disk, b);
    LinkInode(disk, v.inodes, v.owner, n, k, b, v'.disk, v'.inodes[n]);
    AllocLinkStep(g, base, v, disk, n, RootPath(k), b, b, v');
  }

  /** The allocated block goes into entry k of table t, as data or as an empty second-level table. */
  lemma EntryStep(g: Geometry, base: set<nat>, v: Vol, disk: Disk, n: nat, t: nat, k: nat, b: nat, v': Vol)
    requires VolOk(g, base, v) && Allocated(g, base, v, disk, b)
    requires n in v.inodes && n in v.npos && t in v.owner && v.owner[t].ino == n && IsTable(v.owner[t].path)
    requires k < WORDS && t < |disk| && Entry(v.disk, t, k) == 0 && LinkInOrder(Below(v.owner[t].path, k), v.npos[n])
    requires v'.inodes == v.inodes
    requires var d := disk[t := PutU32(disk[t], 4 * k, b)];
             v'.disk == if v.owner[t].path.Dbl? then d[b := Zeros(BLOCKSIZE)] else d
    requires v'.owner == v.owner[b := Key(n, Below(v.owner[t].path, k))]
    requires v'.npos == v.npos[n := NextPos(Below(v.owner[t].path, k), v.npos[n])]
    ensures VolOk(g, base, v') && Grown(v, v', n) && MetaKept(g, base, v.disk, v'.disk)
    ensures Ptr(v'.disk, v'.inodes[n], Below(v.owner[t].path, k)) == b
  {
    hide Ptr;
    hide Accounted;
    hide AfterAlloc;
    hide Linked;
    hide Dense;
    hide LinkInOrder;
    hide Grown;
    hide PutU32;
    hide Entry;
    hide NextPos;
    hide Below;
    hide IsTable;
    hide FilesOk;
    hide FreeBlocks;
    AllocatedFrame(g, base, v, disk, b);
    var q := Below(v.owner[t].path, k);
    EntryLink(v.disk, disk, v.inodes, v.owner, n, t, k, b, v'.disk);
    hide Owns;
    AllocLinkStep(g, base, v, disk, n, q, b, t, v');
  }

  lemma EntryLink(disk0: Disk, disk: Disk, inodes: map<nat, Inode>, owner: map<nat, Key>,
                  n: nat, t: nat, k: nat, b: nat, disk': Disk)
    requires Owns(disk, inodes, owner) && n in inodes && SameOn(disk0, disk, owner.Keys)
    requires t in owner && owner[t].ino == n && IsTable(owner[t].path)
    requires k < WORDS && t < |disk| && Entry(disk0, t, k) == 0
    requires 0 < b < |disk| && b !in owner && b < 0x1_0000_0000
    requires var d := disk[t := PutU32(disk[t], 4 * k, b)];
             disk' == if owner[t].path.Dbl? then d[b := Zeros(BLOCKSIZE)] else d
    ensures Linked(disk, inodes, disk', inodes, n, Below(owner[t].path, k), b)
    ensures Owns(disk', inodes, owner[b := Key(n, Below(owner[t].path, k))])
  {
    hide Ptr;
    hide PutU32;
    hide Entry;
    hide Below;
    hide Linked;
    var own := owner[t].path;
    var mid := if own.Dbl? then disk[b := Zeros(BLOCKSIZE)] else disk;
    ZeroFresh(disk, inodes, owner, b);
    EntrySame(disk0, mid, t, k);
    LinkTable(mid, inodes, owner, n, t, k, b);
    assert disk' == mid[t := PutU32(mid[t], 4 * k, b)];
    LinkedFrom(disk, mid, inodes, disk', inodes, n, Below(own, k), b);
  }

  lemma EntrySame(disk: Disk, disk': Disk, t: nat, k: nat)
    requires t < |disk| == |disk'| && disk'[t] == disk[t] && k < WORDS
    ensures Entry(disk', t, k) == Entry(disk, t, k)
  {
  }

  ghost predicate EmptyTable(disk: Disk, b: nat) {
    forall j :: 0 <= j < WORDS ==> Entry(disk, b, j) == 0
  }

  /** Clearing a block nobody owns changes no pointer. */
  lemma ZeroFresh(disk: Disk, inodes: map<nat, Inode>, owner: map<nat, Key>, b: nat)
    requires Owns(disk, inodes, owner) && 0 < b < |disk| && b !in owner
    ensures Owns(disk[b := Zeros(BLOCKSIZE)], inodes, owner)
    ensures forall n, q :: n in inodes && ValidPath(q) ==>
              Ptr(disk[b := Zeros(BLOCKSIZE)], inodes[n], q) == Ptr(disk, inodes[n], q)
    ensures EmptyTable(disk[b := Zeros(BLOCKSIZE)], b)
  {
    SameOwned(disk, disk[b := Zeros(BLOCKSIZE)], inodes, owner);
  }

  /** An allocated block linked at q, by a change that touches only b and a table t of n (or only b). */
  lemma AllocLinkStep(g: Geometry, base: set<nat>, v: Vol, disk: Disk, n: nat, q: Path, b: nat, t: nat, v': Vol)
    requires VolOk(g, base, v) && Allocated(g, base, v, disk, b)
    requires Linked(disk, v.inodes, v'.disk, v'.inodes, n, q, b) && LinkInOrder(q, v.npos[n])
    requires v'.owner == v.owner[b := Key(n, q)] && Owns(v'.disk, v'.inodes, v'.owner)
    requires v'.npos == v.npos[n := NextPos(q, v.npos[n])]
    requires v'.inodes == v.inodes[n := v.inodes[n].(block := v'.inodes[n].block, blocks := v'.inodes[n].blocks)]
    requires t == b || (t in v.owner && v.owner[t].ino == n && IsTable(v.owner[t].path))
    requires |v'.disk| == |disk| && forall c :: 0 <= c < |disk| && c != b && c != t ==> v'.disk[c] == disk[c]
    ensures VolOk(g, base, v') && Grown(v, v', n) && MetaKept(g, base, v.disk, v'.disk)
    ensures Ptr(v'.disk, v'.inodes[n], q) == b
  {
    hide Ptr;
    hide FilesOk;
    hide IsTable;
    hide FreeBlocks;
    hide AfterAlloc;
    hide Accounted;
    hide Dense;
    hide LinkInOrder;
    hide Owns;
    hide Linked;
    hide Grown;
    AllocatedFrame(g, base, v, disk, b);
    AccountedFrame(g, disk, v'.disk, Used(base, v) + {b});
    LinkedFrom(v.disk, disk, v.inodes, v'.disk, v'.inodes, n, q, b);
    LinkStep(g, base, v, v', n, q, b);
  }

  lemma LinkedFrom(disk0: Disk, disk: Disk, inodes: map<nat, Inode>, disk': Disk, inodes': map<nat, Inode>,
                   n: nat, q: Path, b: nat)
    requires |disk0| == |disk|
    requires Linked(disk, inodes, disk', inodes', n, q, b)
    requires forall m, r :: m in inodes && ValidPath(r) ==> Ptr(disk, inodes[m], r) == Ptr(disk0, inodes[m], r)
    ensures Linked(disk0, inodes, disk', inodes', n, q, b)
    ensures Ptr(disk', inodes'[n], q) == b
  {
    hide Ptr;
  }

  lemma GrownReflexive(v: Vol, n: nat)
    requires n in v.inodes && n in v.npos
    ensures Grown(v, v, n)
  {
  }

  /** A non-null pointer of an inode is in the owner map under its path. */
  lemma OwnerAt(g: Geometry, base: set<nat>, v: Vol, n: nat, q: Path)
    requires VolOk(g, base, v) && n in v.inodes && ValidPath(q)
    ensures n in v.npos && Dense(v.disk, v.inodes[n], v.npos[n])
    ensures var b := Ptr(v.disk, v.inodes[n], q);
            b != 0 ==> b in v.owner && v.owner[b] == Key(n, q) && b < |v.disk| && b !in base
  {
    hide Ptr;
    if Ptr(v.disk, v.inodes[n], q) != 0 {
      assert OwnedBy(v.disk, v.inodes, Ptr(v.disk, v.inodes[n], q), Key(n, q));
    }
  }

  lemma VolFacts(g: Geometry, base: set<nat>, v: Vol, n: nat)
    requires VolOk(g, base, v) && n in v.inodes
    ensures n in v.npos && GeometryOk(g, v.disk, base) && 0 in Used(base, v)
    ensures 1 < g.bitmap < |v.disk| && g.maxBlocks == |v.disk| <= BITS && Accounted(g, v.disk, Used(base, v))
    ensures Grown(v, v, n) && MetaKept(g, base, v.disk, v.disk)
  {
    GrownReflexive(v, n);
  }

  /** What mapping position p of inode n needs of the tree, given p is at most the mapped prefix. */
  lemma MapFacts(g: Geometry, base: set<nat>, v: Vol, n: nat, p: nat)
    requires VolOk(g, base, v) && n in v.inodes && n in v.npos && p <= v.npos[n] && p < MAXPOS
    ensures Ptr(v.disk, v.inodes[n], PathOf(p)) != 0 <==> p < v.npos[n]
    ensures Ptr(v.disk, v.inodes[n], PathOf(p)) == 0 ==> LinkInOrder(PathOf(p), v.npos[n])
    ensures p >= NDIRECT ==> LinkInOrder(Ind, v.npos[n])
    ensures p >= NDIRECT + WORDS ==>
              LinkInOrder(Dbl, v.npos[n]) && LinkInOrder(Tab((p - (NDIRECT + WORDS)) / WORDS), v.npos[n])
  {
    hide Ptr;
    PosOfPath(p);
  }

  /** Two mapping steps in a row. */
  lemma MapTwice(g: Geometry, base: set<nat>, u: Vol, v: Vol, w: Vol, n: nat)
    requires Grown(u, v, n) && MetaKept(g, base, u.disk, v.disk)
    requires Grown(v, w, n) && MetaKept(g, base, v.disk, w.disk)
    ensures Grown(u, w, n) && MetaKept(g, base, u.disk, w.disk)
  {
    hide Grown;
    GrownTransitive(u, v, w, n);
  }

  /** The pointers a walk to TabData(a, j) or IndData(k) meets. */
  lemma Walk(disk: Disk, i: Inode)
    ensures i.block[IND] == Ptr(disk, i, Ind) && i.block[DBL] == Ptr(disk, i, Dbl)
    ensures forall k :: 0 <= k < NDIRECT ==> Ptr(disk, i, Dir(k)) == i.block[k]
    ensures forall k :: 0 <= k < WORDS ==> Ptr(disk, i, IndData(k)) == Entry(disk, i.block[IND], k)
    ensures forall a :: 0 <= a < WORDS ==> Ptr(disk, i, Tab(a)) == Entry(disk, i.block[DBL], a)
    ensures forall a, j :: 0 <= a < WORDS && 0 <= j < WORDS ==>
              Ptr(disk, i, TabData(a, j)) == Entry(disk, Ptr(disk, i, Tab(a)), j)
  {
  }
}
