/** Taking an inode's pointer tree apart: what free_iblocks does, root slot by root slot. */
module Truncate {
  import opened Bytes
  import opened Layout
  import opened Bitmap
  import opened Volume
  import opened FileData
  import opened InodeTable

  /** The slot of i_block a path hangs off. */
  function SlotOf(q: Path): nat {
    match q
    case Dir(k) => k
    case Ind => IND
    case IndData(_) => IND
    case _ => DBL
  }

  predicate Under(k: nat, q: Path) {
    SlotOf(q) == k
  }

  /** The blocks inode n reaches through slot k. */
  ghost function Subtree(owner: map<nat, Key>, n: nat, k: nat): set<nat> {
    set b | b in owner && owner[b].ino == n && Under(k, owner[b].path)
  }

  ghost function Without(owner: map<nat, Key>, gone: set<nat>): map<nat, Key> {
    map b | b in owner && b !in gone :: owner[b]
  }

  ghost predicate OthersOk(g: Geometry, v: Vol, n: nat) {
    && v.npos.Keys == v.inodes.Keys
    && forall m :: m in v.inodes && m != n ==>
         && InodeFits(g, m)
         && Dense(v.disk, v.inodes[m], v.npos[m])
         && v.inodes[m].size <= v.npos[m] * BLOCKSIZE
  }

  /** The volume while inode n is taken apart: the loose blocks are still marked but no longer reachable. */
  ghost predicate Loosened(g: Geometry, base: set<nat>, v: Vol, n: nat, loose: set<nat>) {
    && GeometryOk(g, v.disk, base)
    && Owns(v.disk, v.inodes, v.owner)
    && base !! v.owner.Keys
    && loose !! Used(base, v) && loose <= Range(g.maxBlocks)
    && Accounted(g, v.disk, Used(base, v) + loose)
    && OthersOk(g, v, n)
    && n in v.inodes && InodeFits(g, n)
  }

  lemma StartLoose(g: Geometry, base: set<nat>, v: Vol, n: nat)
    requires VolOk(g, base, v) && n in v.inodes
    ensures Loosened(g, base, v, n, {})
  {
    hide Ptr;
    assert Used(base, v) + {} == Used(base, v);
  }

  function SlotNulled(i: Inode, k: nat): Inode
    requires k <= DBL
  {
    i.(block := i.block[k := 0])
  }

  /** Slot k of n null, and nothing below it owned any more. */
  ghost function Nulled(v: Vol, n: nat, k: nat): Vol
    requires n in v.inodes && k <= DBL
  {
    v.(inodes := v.inodes[n := SlotNulled(v.inodes[n], k)],
       owner := Without(v.owner, Subtree(v.owner, n, k)))
  }

  /** Nulling slot k of n makes exactly its subtree loose. */
  lemma NullSlot(g: Geometry, base: set<nat>, v: Vol, n: nat, k: nat, loose: set<nat>, v': Vol)
    requires n in v.inodes && k <= DBL && v' == Nulled(v, n, k) && Loosened(g, base, v, n, loose)
    ensures Loosened(g, base, v', n, loose + Subtree(v.owner, n, k)) && OthersKept(v, v', n)
  {
    hide Accounted;
    hide Dense;
    hide Ptr;
    hide Under;
    hide Owns;
    hide Subtree;
    SlotPtrs(v.disk, v.inodes[n], k);
    NullOwns(v, n, k, v');
    NullSets(g, base, v, n, k, loose);
    NullOthers(g, v, n, k);
  }

  lemma NullOthers(g: Geometry, v: Vol, n: nat, k: nat)
    requires n in v.inodes && k <= DBL && OthersOk(g, v, n)
    ensures OthersOk(g, Nulled(v, n, k), n) && OthersKept(v, Nulled(v, n, k), n)
  {
    hide Dense;
    hide Ptr;
    hide Under;
  }

  /** The blocks below slot k go from the owned ones to the loose ones. */
  lemma NullSets(g: Geometry, base: set<nat>, v: Vol, n: nat, k: nat, loose: set<nat>)
    requires n in v.inodes && k <= DBL && Loosened(g, base, v, n, loose)
    ensures var gone, w := Subtree(v.owner, n, k), Nulled(v, n, k);
            && (loose + gone) !! Used(base, w) && loose + gone <= Range(g.maxBlocks)
            && Used(base, w) + (loose + gone) == Used(base, v) + loose
  {
    hide Accounted;
    hide OthersOk;
    hide Ptr;
    forall b | b in Subtree(v.owner, n, k) ensures b < g.maxBlocks {
      assert OwnedBy(v.disk, v.inodes, b, v.owner[b]);
    }
  }

  lemma SlotPtrs(disk: Disk, i: Inode, k: nat)
    requires k <= DBL
    ensures forall q :: ValidPath(q) ==>
              Ptr(disk, SlotNulled(i, k), q) == if Under(k, q) then 0 else Ptr(disk, i, q)
  {
    hide U32At;
  }

  lemma NullOwns(v: Vol, n: nat, k: nat, v': Vol)
    requires Owns(v.disk, v.inodes, v.owner) && n in v.inodes && k <= DBL && v' == Nulled(v, n, k)
    requires forall q :: ValidPath(q) ==>
               Ptr(v.disk, v'.inodes[n], q) == if Under(k, q) then 0 else Ptr(v.disk, v.inodes[n], q)
    ensures Owns(v'.disk, v'.inodes, v'.owner)
  {
    hide Ptr;
    hide Under;
    forall b | b in v'.owner ensures OwnedBy(v'.disk, v'.inodes, b, v'.owner[b]) {
      assert OwnedBy(v.disk, v.inodes, b, v.owner[b]);
    }
  }

  /** A loose block goes back to the bitmap. */
  lemma FreeLoose(g: Geometry, base: set<nat>, v: Vol, n: nat, loose: set<nat>, b: nat, disk': Disk)
    requires Loosened(g, base, v, n, loose) && b in loose
    requires disk' == AfterFree(g, v.disk, b) && Accounted(g, disk', (Used(base, v) + loose) - {b})
    ensures Loosened(g, base, v.(disk := disk'), n, loose - {b}) && OthersKept(v, v.(disk := disk'), n)
    ensures SameOn(v.disk, disk', base - {0, 1, g.bitmap} + v.owner.Keys)
  {
    hide Accounted;
    hide AfterFree;
    hide Ptr;
    var v' := v.(disk := disk');
    assert (Used(base, v) + loose) - {b} == Used(base, v') + (loose - {b});
    assert SameOn(v.disk, disk', base - {0, 1, g.bitmap} + v.owner.Keys);
    SameOwned(v.disk, disk', v.inodes, v.owner);
    forall m | m in v.inodes && m != n ensures Dense(disk', v.inodes[m], v.npos[m]) {
      DenseSamePtr(v.disk, v.inodes[m], disk', v.inodes[m], v.npos[m]);
    }
    hide Dense;
  }

  // ---------------------------------------------------------------------------------------------
  // The order in which free_iblocks visits a subtree

  /** The turn at which a path is freed, counted from the start of its subtree's loop. */
  function Rank(q: Path): nat {
    match q
    case IndData(k) => k
    case Tab(i) => i * (WORDS + 1)
    case TabData(i, j) => i * (WORDS + 1) + 1 + j
    case _ => 0
  }

  /** What is left of the subtree under slot k from turn r on, the root table itself not counted. */
  ghost function Rest(owner: map<nat, Key>, n: nat, k: nat, r: nat): set<nat>
    requires k <= DBL
  {
    set b | b in owner && owner[b].ino == n && Under(k, owner[b].path)
            && owner[b].path != RootPath(k) && r <= Rank(owner[b].path)
  }

  lemma RankInjective(k: nat, q: Path, q': Path)
    requires ValidPath(q) && ValidPath(q') && Under(k, q) && Under(k, q') && k in {IND, DBL}
    requires q != RootPath(k) && q' != RootPath(k) && Rank(q) == Rank(q')
    ensures q == q'
  {
  }

  /** The whole subtree is its root block and the rest from turn 0. */
  lemma SubtreeSplit(g: Geometry, base: set<nat>, v: Vol, n: nat, k: nat)
    requires VolOk(g, base, v) && n in v.inodes && k <= DBL && v.inodes[n].block[k] != 0
    ensures var t := v.inodes[n].block[k];
            && t in v.owner && t !in Rest(v.owner, n, k, 0) && t < g.maxBlocks
            && v.owner[t] == Key(n, RootPath(k))
            && Subtree(v.owner, n, k) == {t} + Rest(v.owner, n, k, 0)
            && (k < NDIRECT ==> Rest(v.owner, n, k, 0) == {})
  {
    hide Ptr;
    hide VolOk;
    hide Dense;
    var t, root := v.inodes[n].block[k], RootPath(k);
    Walk(v.disk, v.inodes[n]);
    assert Ptr(v.disk, v.inodes[n], root) == t;
    OwnerAt(g, base, v, n, root);
    BlockCount(g, base, v);
    forall b | b in v.owner && v.owner[b] == Key(n, root) ensures b == t {
      MappedOwner(g, base, v, n, b);
    }
  }

  lemma BlockCount(g: Geometry, base: set<nat>, v: Vol)
    requires VolOk(g, base, v)
    ensures |v.disk| == g.maxBlocks <= BITS
  {
    hide Ptr;
  }

  lemma NoSubtree(g: Geometry, base: set<nat>, v: Vol, n: nat, k: nat)
    requires VolOk(g, base, v) && n in v.inodes && k <= DBL && v.inodes[n].block[k] == 0
    ensures Subtree(v.owner, n, k) == {}
  {
    hide U32At;
    forall b | b in v.owner && v.owner[b].ino == n ensures !Under(k, v.owner[b].path) {
      assert OwnedBy(v.disk, v.inodes, b, v.owner[b]);
    }
  }

  /** Turn r frees the block at q, if q is mapped. */
  lemma RestStep(g: Geometry, base: set<nat>, v: Vol, n: nat, k: nat, q: Path)
    requires VolOk(g, base, v) && n in v.inodes && k in {IND, DBL} && ValidPath(q) && Under(k, q) && q != RootPath(k)
    requires Ptr(v.disk, v.inodes[n], q) != 0
    ensures var b := Ptr(v.disk, v.inodes[n], q);
            && b in v.owner && b < g.maxBlocks && b in Rest(v.owner, n, k, Rank(q))
            && Rest(v.owner, n, k, Rank(q) + 1) == Rest(v.owner, n, k, Rank(q)) - {b}
  {
    hide Ptr;
    OwnerAt(g, base, v, n, q);
    var b := Ptr(v.disk, v.inodes[n], q);
    forall c | c in Rest(v.owner, n, k, Rank(q)) && c != b ensures Rank(v.owner[c].path) != Rank(q) {
      assert OwnedBy(v.disk, v.inodes, c, v.owner[c]);
      if Rank(v.owner[c].path) == Rank(q) {
        RankInjective(k, q, v.owner[c].path);
      }
    }
  }

  /** A null entry ends its loop rightly: density leaves nothing behind it. */
  lemma RestSkip(g: Geometry, base: set<nat>, v: Vol, n: nat, k: nat, q: Path)
    requires VolOk(g, base, v) && n in v.inodes && k in {IND, DBL} && ValidPath(q) && Under(k, q) && q != RootPath(k)
    requires Ptr(v.disk, v.inodes[n], q) == 0
    ensures Rest(v.owner, n, k, Rank(q)) == {}
  {
    hide Ptr;
    hide Rank;
    hide VolOk;
    forall b | b in v.owner && v.owner[b].ino == n && Under(k, v.owner[b].path)
      && v.owner[b].path != RootPath(k)
      ensures Rank(v.owner[b].path) < Rank(q)
    {
      MappedOwner(g, base, v, n, b);
      if q.Tab? { NullTable(v.disk, v.inodes[n], v.npos[n], q.i); }
      MappedBefore(v.disk, v.inodes[n], v.npos[n], k, q, v.owner[b].path);
    }
  }

  lemma MappedOwner(g: Geometry, base: set<nat>, v: Vol, n: nat, b: nat)
    requires VolOk(g, base, v) && n in v.inodes && b in v.owner && v.owner[b].ino == n
    ensures ValidPath(v.owner[b].path) && Ptr(v.disk, v.inodes[n], v.owner[b].path) == b != 0
    ensures n in v.npos && Dense(v.disk, v.inodes[n], v.npos[n])
  {
    assert OwnedBy(v.disk, v.inodes, b, v.owner[b]);
    hide Ptr;
  }

  /** In a dense tree every mapped path is visited before every null one of the same subtree. */
  lemma MappedBefore(disk: Disk, i: Inode, np: nat, k: nat, q: Path, r: Path)
    requires Dense(disk, i, np) && k in {IND, DBL} && ValidPath(q) && ValidPath(r) && Under(k, q) && Under(k, r)
    requires q != RootPath(k) && r != RootPath(k)
    requires Ptr(disk, i, q) == 0 && Ptr(disk, i, r) != 0
    requires q.Tab? ==> np <= FirstPos(q)
    ensures Rank(r) < Rank(q)
  {
    hide Ptr;
    if !IsTable(q) { PathOfPos(q); }
    if !IsTable(r) { PathOfPos(r); }
  }

  /** With no table at entry i of the double-indirect table, the prefix ends before that table's positions. */
  lemma NullTable(disk: Disk, i: Inode, np: nat, a: nat)
    requires Dense(disk, i, np) && a < WORDS && Ptr(disk, i, Tab(a)) == 0
    ensures np <= FirstPos(Tab(a))
  {
    PathOfPos(TabData(a, 0));
    assert Ptr(disk, i, TabData(a, 0)) == 0;
    hide Ptr;
  }

  // ---------------------------------------------------------------------------------------------
  // The whole of free_iblocks

  /** owner is owner0 without what n reached through its first k slots. */
  ghost predicate Remaining(owner0: map<nat, Key>, owner: map<nat, Key>, n: nat, k: nat) {
    && (forall b :: b in owner ==> b in owner0 && owner[b] == owner0[b])
    && (forall b :: b in owner0 ==> (b in owner <==> !(owner0[b].ino == n && SlotOf(owner0[b].path) < k)))
  }

  /** v is v0 with the first k slots of n dropped; the blocks in loose are still to be freed. */
  ghost predicate Dropped(g: Geometry, base: set<nat>, v0: Vol, v: Vol, n: nat, k: nat, loose: set<nat>) {
    && Loosened(g, base, v, n, loose)
    && n in v0.inodes && v.npos == v0.npos
    && Remaining(v0.owner, v.owner, n, k)
    && OthersKept(v0, v, n)
    && SameOn(v0.disk, v.disk, base - {0, 1, g.bitmap} + v0.owner.Keys)
    && v.inodes[n] == v0.inodes[n].(block := v.inodes[n].block)
    && forall j :: 0 <= j < 15 ==> v.inodes[n].block[j] == if j < k then 0 else v0.inodes[n].block[j]
  }

  lemma StartDrop(g: Geometry, base: set<nat>, v: Vol, n: nat)
    requires VolOk(g, base, v) && n in v.inodes
    ensures Dropped(g, base, v, v, n, 0, {})
  {
    hide Loosened;
    StartLoose(g, base, v, n);
  }

  /** Slot k had nothing: there is nothing to drop. */
  lemma SkipRoot(g: Geometry, base: set<nat>, v0: Vol, v: Vol, n: nat, k: nat)
    requires VolOk(g, base, v0) && Dropped(g, base, v0, v, n, k, {}) && k <= DBL && v.inodes[n].block[k] == 0
    ensures Dropped(g, base, v0, v, n, k + 1, {})
  {
    hide Loosened;
    hide VolOk;
    NoSubtree(g, base, v0, n, k);
    forall b | b in v0.owner && v0.owner[b].ino == n ensures SlotOf(v0.owner[b].path) != k {
      assert b !in Subtree(v0.owner, n, k);
    }
  }

  /** Past the first null direct slot every direct slot is null. */
  lemma {:induction false} SkipDirect(g: Geometry, base: set<nat>, v0: Vol, v: Vol, n: nat, k: nat)
    requires VolOk(g, base, v0) && Dropped(g, base, v0, v, n, k, {}) && k <= NDIRECT
    requires k < NDIRECT ==> v.inodes[n].block[k] == 0
    ensures Dropped(g, base, v0, v, n, NDIRECT, {})
    decreases NDIRECT - k
  {
    if k < NDIRECT {
      SkipRoot(g, base, v0, v, n, k);
      if k + 1 < NDIRECT {
        NextDirect(g, base, v0, n, k);
      }
      SkipDirect(g, base, v0, v, n, k + 1);
    }
  }

  lemma NextDirect(g: Geometry, base: set<nat>, v: Vol, n: nat, k: nat)
    requires VolOk(g, base, v) && n in v.inodes && k + 1 < NDIRECT && v.inodes[n].block[k] == 0
    ensures v.inodes[n].block[k + 1] == 0
  {
    Walk(v.disk, v.inodes[n]);
    OwnerAt(g, base, v, n, Dir(k));
    hide Ptr;
    hide VolOk;
    assert PathOf(k) == Dir(k) && PathOf(k + 1) == Dir(k + 1);
  }

  /** dalloc_block(i_block[k]); i_block[k] = 0: the root block is freed, the rest of its subtree loose. */
  lemma DropStep(g: Geometry, base: set<nat>, v0: Vol, v: Vol, n: nat, k: nat, t: nat, disk': Disk, v': Vol)
    requires n in v.inodes && 1 < g.bitmap < |v.disk| && g.maxBlocks <= BITS && k <= DBL
    requires VolOk(g, base, v0) && Dropped(g, base, v0, v, n, k, {}) && v.inodes[n].block[k] == t != 0
    requires t < BITS && t in Used(base, v) && disk' == AfterFree(g, v.disk, t) && Accounted(g, disk', Used(base, v) - {t})
    requires v' == Nulled(v, n, k).(disk := disk')
    ensures Dropped(g, base, v0, v', n, k + 1, Rest(v0.owner, n, k, 0))
  {
    hide Accounted;
    hide AfterFree;
    hide VolOk;
    hide Loosened;
    hide OthersKept;
    hide Rest;
    LooseFacts(g, base, v, n, {});
    SubtreeSplit(g, base, v0, n, k);
    assert Subtree(v.owner, n, k) == Subtree(v0.owner, n, k);
    var w := Vol(v.disk, v'.inodes, v'.owner, v.npos);
    NullSlot(g, base, v, n, k, {}, w);
    var gone := Subtree(v.owner, n, k);
    assert {} + gone == gone;
    assert Used(base, w) + gone == Used(base, v) by { GoneFromOwner(base, v, w, gone); }
    FreeLoose(g, base, w, n, gone, t, disk');
    assert gone - {t} == Rest(v0.owner, n, k, 0);
    OthersKeptTransitive(v0, v, w, n);
    OthersKeptTransitive(v0, w, v', n);
    KeptBlocks(g, base, v0, v, w, n, k, t, disk');
  }

  lemma LooseFacts(g: Geometry, base: set<nat>, v: Vol, n: nat, loose: set<nat>)
    requires Loosened(g, base, v, n, loose)
    ensures 1 < g.bitmap < |v.disk| && g.maxBlocks == |v.disk| <= BITS && GeometryOk(g, v.disk, base)
    ensures Accounted(g, v.disk, Used(base, v) + loose) && n in v.inodes && n in v.npos
  {
    hide Ptr;
  }

  lemma GoneFromOwner(base: set<nat>, v: Vol, w: Vol, gone: set<nat>)
    requires gone <= v.owner.Keys && w.owner == Without(v.owner, gone)
    ensures Used(base, w) + gone == Used(base, v)
  {
  }

  /** Freeing block t of n leaves the bytes of every block of v0, t included, in place. */
  lemma KeptBlocks(g: Geometry, base: set<nat>, v0: Vol, v: Vol, w: Vol, n: nat, k: nat, t: nat, disk': Disk)
    requires VolOk(g, base, v0) && SameOn(v0.disk, v.disk, base - {0, 1, g.bitmap} + v0.owner.Keys)
    requires 1 < g.bitmap < |v.disk| && t < BITS && disk' == AfterFree(g, v.disk, t)
    ensures SameOn(v0.disk, disk', base - {0, 1, g.bitmap} + v0.owner.Keys)
  {
    hide Accounted;
    hide Owns;
    hide FilesOk;
  }

  /** All blocks inode n owns. */
  ghost function OwnedBlocks(owner: map<nat, Key>, n: nat): set<nat> {
    set b | b in owner && owner[b].ino == n
  }

  /** free_iblocks is done: n owns nothing, is empty, and exactly its blocks went back to the bitmap. */
  ghost predicate Freed(g: Geometry, v0: Vol, v: Vol, n: nat) {
    && n in v0.inodes && n in v.inodes && n in v.npos && n > 0
    && v.inodes[n] == v0.inodes[n].(block := Nulls(14) + [v0.inodes[n].block[14]],
                                    size := 0, blocks := 0, atime := 0, mtime := 0)
    && v.npos[n] == 0
    && v.owner == Without(v0.owner, OwnedBlocks(v0.owner, n))
    && g.bitmap < |v.disk| == |v0.disk| && g.maxBlocks <= BITS
    && FreeBlocks(g, v.disk) == FreeBlocks(g, v0.disk) + OwnedBlocks(v0.owner, n)
    && FreeBlocks(g, v0.disk) !! OwnedBlocks(v0.owner, n)
    && InodeBlock(g, n) < |v.disk| && OnDisk(g, v.disk, n) == v.inodes[n]
  }

  lemma EmptyTree(disk: Disk, i: Inode)
    requires forall j :: 0 <= j < 14 ==> i.block[j] == 0
    ensures forall q :: ValidPath(q) ==> Ptr(disk, i, q) == 0
    ensures Dense(disk, i, 0)
  {
    hide U32At;
  }

  /** Nothing loose is left and n is dense again: the invariant holds. */
  lemma CloseLoose(g: Geometry, base: set<nat>, v: Vol, n: nat, i: Inode, np: nat)
    requires Loosened(g, base, v, n, {}) && n in v.inodes && n in v.npos && i.block == v.inodes[n].block
    requires Dense(v.disk, i, np) && i.size <= np * BLOCKSIZE
    ensures VolOk(g, base, v.(inodes := v.inodes[n := i], npos := v.npos[n := np]))
  {
    hide Accounted;
    hide Ptr;
    hide FreeBlocks;
    hide Owns;
    hide Dense;
    var v' := v.(inodes := v.inodes[n := i], npos := v.npos[n := np]);
    SamePtrSize(v.disk, v.inodes[n], i);
    OwnsSamePtr(v.disk, v.disk, v.inodes, v'.inodes, v.owner);
    assert Used(base, v) + {} == Used(base, v');
    CloseFilesOk(g, v, n, i, np);
    hide GeometryOk;
  }

  lemma CloseFilesOk(g: Geometry, v: Vol, n: nat, i: Inode, np: nat)
    requires OthersOk(g, v, n) && n in v.inodes && InodeFits(g, n) && i.size <= np * BLOCKSIZE && Dense(v.disk, i, np)
    ensures FilesOk(g, v.(inodes := v.inodes[n := i], npos := v.npos[n := np]))
  {
    hide Dense;
  }

  lemma FinishFree(g: Geometry, base: set<nat>, v0: Vol, v: Vol, n: nat, i: Inode, v': Vol)
    requires VolOk(g, base, v0) && Dropped(g, base, v0, v, n, 14, {}) && n in v.inodes && n in v.npos
    requires i == v.inodes[n].(size := 0, blocks := 0, atime := 0, mtime := 0)
    requires n > 0 && InodeBlock(g, n) < |v.disk|
    requires v' == Vol(Saved(g, v.disk, n, i), v.inodes[n := i], v.owner, v.npos[n := 0])
    ensures VolOk(g, base, v') && OthersKept(v0, v', n) && TableKept(g, v0, v', n) && Freed(g, v0, v', n)
  {
    hide Accounted;
    hide OnDisk;
    hide Saved;
    hide Loosened;
    hide OthersKept;
    hide VolOk;
    var w := v.(inodes := v.inodes[n := v.inodes[n].(size := 0)], npos := v.npos[n := 0]);
    EmptyTree(v.disk, w.inodes[n]);
    CloseLoose(g, base, v, n, w.inodes[n], 0);
    OthersKeptSize(v0, v, w, n, 0);
    SizeStep(g, base, w, n, i, v');
    OthersKeptTransitive(v0, w, v', n);
    NullBlocks(v0.inodes[n].block, i.block);
    FreedBlocks(g, base, v0, v', n);
    FreedTable(g, base, v0, w, n, i);
  }

  lemma OthersKeptSize(v0: Vol, v: Vol, w: Vol, n: nat, np: nat)
    requires OthersKept(v0, v, n) && n in v.inodes && n in v.npos && n in w.inodes
    requires w.disk == v.disk && w.owner == v.owner
    requires w.inodes == v.inodes[n := w.inodes[n]] && w.npos == v.npos[n := np]
    ensures OthersKept(v0, w, n)
  {
  }

  lemma NullBlocks(s: Slots, s': Slots)
    requires forall j :: 0 <= j < 15 ==> s'[j] == if j < 14 then 0 else s[j]
    ensures s' == Nulls(14) + [s[14]]
  {
  }

  lemma FreedTable(g: Geometry, base: set<nat>, v0: Vol, w: Vol, n: nat, i: Inode)
    requires VolOk(g, base, v0) && SameOn(v0.disk, w.disk, base - {0, 1, g.bitmap} + v0.owner.Keys)
    requires n > 0 && InodeBlock(g, n) < |w.disk|
    ensures TableKept(g, v0, w.(disk := Saved(g, w.disk, n, i)), n)
  {
    hide VolOk;
    hide OnDisk;
    hide Saved;
    MetaKeepsTable(g, base, v0, w, n);
    SavedInode(g, w.disk, n, i);
  }

  /** Equal accounting sets: the free blocks are those of before and those n owned. */
  lemma FreedBlocks(g: Geometry, base: set<nat>, v0: Vol, v: Vol, n: nat)
    requires VolOk(g, base, v0) && VolOk(g, base, v) && Remaining(v0.owner, v.owner, n, 14)
    ensures v.owner == Without(v0.owner, OwnedBlocks(v0.owner, n))
    ensures g.bitmap < |v.disk| == |v0.disk| && g.maxBlocks <= BITS
    ensures FreeBlocks(g, v.disk) == FreeBlocks(g, v0.disk) + OwnedBlocks(v0.owner, n)
    ensures FreeBlocks(g, v0.disk) !! OwnedBlocks(v0.owner, n)
  {
    hide VolOk;
    hide FreeBlocks;
    FreeMeans(g, base, v0);
    FreeMeans(g, base, v);
    forall b | b in v0.owner && v0.owner[b].ino == n ensures SlotOf(v0.owner[b].path) < 14 && b < g.maxBlocks && b !in base {
      OwnedSlot(g, base, v0, n, b);
    }
    assert v.owner == Without(v0.owner, OwnedBlocks(v0.owner, n));
  }

  /** The clear bits are the blocks that are neither metadata nor owned. */
  lemma FreeMeans(g: Geometry, base: set<nat>, v: Vol)
    requires VolOk(g, base, v)
    ensures g.bitmap < |v.disk| == g.maxBlocks <= BITS
    ensures forall b: nat :: b in FreeBlocks(g, v.disk) <==> b < g.maxBlocks && b !in base && b !in v.owner
  {
    hide Ptr;
    hide Owns;
    hide FilesOk;
  }

  lemma OwnedSlot(g: Geometry, base: set<nat>, v: Vol, n: nat, b: nat)
    requires VolOk(g, base, v) && b in v.owner && v.owner[b].ino == n
    ensures SlotOf(v.owner[b].path) < 14 && b < g.maxBlocks && b !in base
  {
    hide Ptr;
    hide FilesOk;
    hide Accounted;
    MappedSlot(v, n, b);
  }

  lemma MappedSlot(v: Vol, n: nat, b: nat)
    requires Owns(v.disk, v.inodes, v.owner) && b in v.owner && v.owner[b].ino == n
    ensures SlotOf(v.owner[b].path) < 14 && b < |v.disk|
  {
    hide Ptr;
    assert OwnedBy(v.disk, v.inodes, b, v.owner[b]);
  }

  /** Freeing one loose block in the middle of the work. */
  lemma LooseStep(g: Geometry, base: set<nat>, v0: Vol, v: Vol, n: nat, k: nat, loose: set<nat>, b: nat, disk': Disk)
    requires VolOk(g, base, v0) && Dropped(g, base, v0, v, n, k, loose) && b in loose
    requires 1 < g.bitmap < |v.disk| && g.maxBlocks <= BITS && b < BITS
    requires disk' == AfterFree(g, v.disk, b) && Accounted(g, disk', (Used(base, v) + loose) - {b})
    ensures Dropped(g, base, v0, v.(disk := disk'), n, k, loose - {b})
  {
    hide Accounted;
    hide AfterFree;
    hide VolOk;
    hide Loosened;
    hide OthersKept;
    FreeLoose(g, base, v, n, loose, b, disk');
    OthersKeptTransitive(v0, v, v.(disk := disk'), n);
    KeptBlocks(g, base, v0, v, v, n, k, b, disk');
  }

  lemma RestTables(g: Geometry, base: set<nat>, v: Vol, n: nat, k: nat, r: nat)
    requires VolOk(g, base, v) && n in v.inodes && k in {IND, DBL}
    requires if k == IND then r >= WORDS else r >= WORDS * (WORDS + 1)
    ensures Rest(v.owner, n, k, r) == {}
  {
    hide VolOk;
    hide Ptr;
    forall b | b in v.owner && v.owner[b].ino == n && Under(k, v.owner[b].path) && v.owner[b].path != RootPath(k)
      ensures Rank(v.owner[b].path) < r
    {
      MappedOwner(g, base, v, n, b);
    }
  }

  /** A table of v0 still reads as it did, wherever the work stands. */
  lemma SameEntry(g: Geometry, base: set<nat>, v0: Vol, v: Vol, n: nat, k: nat, loose: set<nat>, q: Path)
    requires VolOk(g, base, v0) && Dropped(g, base, v0, v, n, k, loose) && ValidPath(q) && IsTable(q)
    requires Ptr(v0.disk, v0.inodes[n], q) != 0
    ensures var t := Ptr(v0.disk, v0.inodes[n], q);
            t < |v.disk| == |v0.disk| && v.disk[t] == v0.disk[t]
  {
    hide VolOk;
    hide Ptr;
    hide Loosened;
    OwnerAt(g, base, v0, n, q);
  }

  lemma DroppedFacts(g: Geometry, base: set<nat>, v0: Vol, v: Vol, n: nat, k: nat, loose: set<nat>)
    requires Dropped(g, base, v0, v, n, k, loose)
    ensures 1 < g.bitmap < |v.disk| && g.maxBlocks == |v.disk| <= BITS && GeometryOk(g, v.disk, base)
    ensures Accounted(g, v.disk, Used(base, v) + loose) && n in v.inodes && n in v.npos
  {
    hide Ptr;
    hide Loosened;
    LooseFacts(g, base, v, n, loose);
  }

  lemma RestSmaller(owner: map<nat, Key>, n: nat, k: nat, r: nat, r': nat)
    requires k <= DBL && r <= r' && Rest(owner, n, k, r) == {}
    ensures Rest(owner, n, k, r') == {}
  {
    assert Rest(owner, n, k, r') <= Rest(owner, n, k, r);
  }

  /** The words of a table block are the pointers below it. */
  lemma TableWords(g: Geometry, base: set<nat>, v: Vol, n: nat, q: Path, t: nat)
    requires VolOk(g, base, v) && n in v.inodes && ValidPath(q) && IsTable(q) && t == Ptr(v.disk, v.inodes[n], q) != 0
    ensures t < |v.disk| && forall j :: 0 <= j < WORDS ==>
              U32At(v.disk[t], 4 * j) == Ptr(v.disk, v.inodes[n], Below(q, j))
  {
    hide VolOk;
    hide U32At;
    OwnerAt(g, base, v, n, q);
    hide Dense;
  }

  /** An inode that owned nothing, whatever was then mapped into it, gives everything back. */
  lemma AccountsRestored(g: Geometry, base: set<nat>, v0: Vol, v: Vol, w: Vol, n: nat)
    requires VolOk(g, base, v0) && VolOk(g, base, w) && OwnedBlocks(v0.owner, n) == {}
    requires OthersKept(v0, v, n) && Freed(g, v, w, n)
    ensures g.bitmap < |w.disk| == |v0.disk| && g.maxBlocks <= BITS
    ensures FreeBlocks(g, w.disk) == FreeBlocks(g, v0.disk)
    ensures SuperFree(w.disk) == SuperFree(v0.disk) && GroupFree(w.disk) == GroupFree(v0.disk)
  {
    hide Ptr;
    hide FilesOk;
    hide OnDisk;
    assert w.owner.Keys == v0.owner.Keys by {
      forall b | b in v0.owner ensures b in w.owner {
        assert b !in OwnedBlocks(v0.owner, n);
      }
    }
    BlockCount(g, base, v0);
    BlockCount(g, base, w);
  }
}
