/** The ext2 volume: geometry, block pointers of an inode, and who owns which block. */
module Layout {
  import opened Bytes

  const NDIRECT := 12
  const IND := 12
  const DBL := 13
  const MAXPOS := 12 + 512 + 512 * 512
  const SUPER_FREE := 1024 + 12   // s_free_blocks_count in block 0
  const GROUP_FREE := 12          // bg_free_blocks_count in block 1

  type Disk = seq<Block>

  /** The numbers FS_init reads from the superblock and the group descriptor. */
  datatype Geometry = Geometry(maxBlocks: nat, bitmap: nat, inodeStart: nat, inodeBlocks: nat)

  function Nulls(n: nat): (z: seq<u32>)
    ensures |z| == n
  {
    seq(n, _ => 0)
  }

  type Slots = s: seq<u32> | |s| == 15 witness Nulls(15)
  type Tail = s: seq<u32> | |s| == 7 witness Nulls(7)

  datatype Inode = Inode(modeUid: u32, size: u32, atime: u32, ctime: u32, mtime: u32, dtime: u32,
                         gidLinks: u32, blocks: u32, flags: u32, osd1: u32,
                         block: Slots, tail: Tail)

  predicate IsDir(i: Inode) {
    i.modeUid % 0x1_0000 / 0x1000 == 4
  }

  /** Every place in an inode's pointer tree that can hold a block number. */
  datatype Path =
    | Dir(k: nat)
    | Ind
    | IndData(k: nat)
    | Dbl
    | Tab(i: nat)
    | TabData(i: nat, j: nat)

  predicate ValidPath(q: Path) {
    match q
    case Dir(k) => k < NDIRECT
    case IndData(k) => k < WORDS
    case Tab(i) => i < WORDS
    case TabData(i, j) => i < WORDS && j < WORDS
    case _ => true
  }

  predicate IsTable(q: Path) {
    q.Ind? || q.Dbl? || q.Tab?
  }

  /** The path of logical block p, as read_file and write_file compute it. */
  function PathOf(p: nat): (q: Path)
    ensures p < MAXPOS ==> ValidPath(q)
    ensures !IsTable(q)
  {
    if p < NDIRECT then Dir(p)
    else if p < NDIRECT + WORDS then IndData(p - NDIRECT)
    else TabData((p - (NDIRECT + WORDS)) / WORDS, (p - (NDIRECT + WORDS)) % WORDS)
  }

  function PosOf(q: Path): nat
    requires !IsTable(q)
  {
    match q
    case Dir(k) => k
    case IndData(k) => NDIRECT + k
    case TabData(i, j) => NDIRECT + WORDS + i * WORDS + j
  }

  lemma PathOfPos(q: Path)
    requires ValidPath(q) && !IsTable(q)
    ensures PosOf(q) < MAXPOS && PathOf(PosOf(q)) == q
  {
  }

  lemma PosOfPath(p: nat)
    ensures PosOf(PathOf(p)) == p
  {
  }

  /** Word k of the pointer table in block t; block 0 is no table. */
  function Entry(disk: Disk, t: nat, k: nat): (e: u32)
    requires k < WORDS
    ensures t == 0 ==> e == 0
  {
    if 0 < t < |disk| then U32At(disk[t], 4 * k) else 0
  }

  function Ptr(disk: Disk, i: Inode, q: Path): u32
    requires ValidPath(q)
  {
    match q
    case Dir(k) => i.block[k]
    case Ind => i.block[IND]
    case IndData(k) => Entry(disk, i.block[IND], k)
    case Dbl => i.block[DBL]
    case Tab(a) => Entry(disk, i.block[DBL], a)
    case TabData(a, j) => Entry(disk, Entry(disk, i.block[DBL], a), j)
  }

  datatype Key = Key(ino: nat, path: Path)

  /** owner is exactly the inverse of the pointer tree: no block is reachable twice. */
  ghost predicate Owns(disk: Disk, inodes: map<nat, Inode>, owner: map<nat, Key>) {
    && (forall b :: b in owner ==> OwnedBy(disk, inodes, b, owner[b]))
    && (forall n, q :: n in inodes && ValidPath(q) && Ptr(disk, inodes[n], q) != 0 ==>
          Ptr(disk, inodes[n], q) in owner && owner[Ptr(disk, inodes[n], q)] == Key(n, q))
  }

  ghost predicate OwnedBy(disk: Disk, inodes: map<nat, Inode>, b: nat, key: Key)
  {
    && 0 < b < |disk|
    && key.ino in inodes
    && ValidPath(key.path)
    && Ptr(disk, inodes[key.ino], key.path) == b
  }

  lemma PtrFrame(disk: Disk, disk': Disk, i: Inode)
    requires |disk'| == |disk|
    requires forall q :: ValidPath(q) && IsTable(q) && 0 < Ptr(disk, i, q) < |disk| ==>
                            disk'[Ptr(disk, i, q)] == disk[Ptr(disk, i, q)]
    ensures forall q :: ValidPath(q) ==> Ptr(disk', i, q) == Ptr(disk, i, q)
  {
    forall q | ValidPath(q) ensures Ptr(disk', i, q) == Ptr(disk, i, q) {
      assert Ptr(disk, i, Ind) == i.block[IND] && Ptr(disk, i, Dbl) == i.block[DBL];
      if q.TabData? {
        assert Ptr(disk, i, Tab(q.i)) == Entry(disk, i.block[DBL], q.i);
      }
    }
  }

  /** Two disks agree on the blocks of s. */
  ghost predicate SameOn(disk: Disk, disk': Disk, s: set<nat>) {
    |disk'| == |disk| && forall b :: b in s && b < |disk| ==> disk'[b] == disk[b]
  }

  lemma PtrSameOn(disk: Disk, disk': Disk, inodes: map<nat, Inode>, owner: map<nat, Key>, n: nat, s: set<nat>)
    requires Owns(disk, inodes, owner) && n in inodes && SameOn(disk, disk', s)
    requires forall b :: b in owner && owner[b].ino == n && IsTable(owner[b].path) ==> b in s
    ensures forall q :: ValidPath(q) ==> Ptr(disk', inodes[n], q) == Ptr(disk, inodes[n], q)
  {
    var i := inodes[n];
    forall q | ValidPath(q) && IsTable(q) && Ptr(disk, i, q) < |disk|
      ensures disk'[Ptr(disk, i, q)] == disk[Ptr(disk, i, q)] || Ptr(disk, i, q) == 0
    {
      hide Ptr;
      if Ptr(disk, i, q) != 0 {
        assert owner[Ptr(disk, i, q)] == Key(n, q);
      }
    }
    PtrFrame(disk, disk', i);
  }

  /** A store to block w reaches only the inode, and only the table, that owns w. */
  lemma PtrAfterStore(disk: Disk, inodes: map<nat, Inode>, owner: map<nat, Key>, n: nat, w: nat, v: Block)
    requires Owns(disk, inodes, owner)
    requires 0 < w < |disk| && n in inodes
    requires w in owner ==> owner[w].ino != n || !IsTable(owner[w].path)
    ensures forall q :: ValidPath(q) ==> Ptr(disk[w := v], inodes[n], q) == Ptr(disk, inodes[n], q)
  {
    PtrSameOn(disk, disk[w := v], inodes, owner, n, owner.Keys - {w});
  }

  // ---------------------------------------------------------------------------------------------
  // Linking a fresh block into the tree, and dropping pointers from it

  /** From (disk, inodes) to (disk', inodes') exactly one null pointer, q of inode n, became b. */
  ghost predicate Linked(disk: Disk, inodes: map<nat, Inode>, disk': Disk, inodes': map<nat, Inode>,
                         n: nat, q: Path, b: nat)
  {
    && |disk'| == |disk| && inodes'.Keys == inodes.Keys
    && n in inodes && ValidPath(q) && 0 < b < |disk|
    && Ptr(disk, inodes[n], q) == 0
    && forall m, r :: m in inodes && ValidPath(r) ==>
         Ptr(disk', inodes'[m], r) == if m == n && r == q then b else Ptr(disk, inodes[m], r)
  }

  lemma LinkKeepsOwns(disk: Disk, disk': Disk, inodes: map<nat, Inode>, inodes': map<nat, Inode>,
                      owner: map<nat, Key>, n: nat, q: Path, b: nat)
    requires Owns(disk, inodes, owner) && b !in owner
    requires Linked(disk, inodes, disk', inodes', n, q, b)
    ensures Owns(disk', inodes', owner[b := Key(n, q)])
  {
    hide Ptr;
    var owner' := owner[b := Key(n, q)];
    forall c | c in owner' ensures OwnedBy(disk', inodes', c, owner'[c]) {
      if c != b {
        assert OwnedBy(disk, inodes, c, owner[c]);
      }
    }
    forall m, r | m in inodes' && ValidPath(r) && Ptr(disk', inodes'[m], r) != 0
      ensures Ptr(disk', inodes'[m], r) in owner' && owner'[Ptr(disk', inodes'[m], r)] == Key(m, r)
    {
      if m != n || r != q {
        assert Ptr(disk, inodes[m], r) in owner;
      }
    }
  }

  /** The path of slot k of i_block. */
  function RootPath(k: nat): (r: Path)
    requires k <= DBL
    ensures ValidPath(r)
  {
    if k < NDIRECT then Dir(k) else if k == IND then Ind else Dbl
  }

  /** Setting a direct slot, or installing an all-zero table, at a null pointer of the inode. */
  lemma LinkInode(disk: Disk, inodes: map<nat, Inode>, owner: map<nat, Key>, n: nat, k: nat, b: nat,
                  disk': Disk, i': Inode)
    requires Owns(disk, inodes, owner) && n in inodes
    requires k <= DBL && inodes[n].block[k] == 0
    requires 0 < b < |disk| && b !in owner && b < 0x1_0000_0000
    requires disk' == if k < NDIRECT then disk else disk[b := Zeros(BLOCKSIZE)]
    requires i'.block == inodes[n].block[k := b]
    ensures Linked(disk, inodes, disk', inodes[n := i'], n, RootPath(k), b)
    ensures Owns(disk', inodes[n := i'], owner[b := Key(n, RootPath(k))])
  {
    var q, inodes' := RootPath(k), inodes[n := i'];
    RootStore(disk', inodes[n], i', k, b);
    hide Entry;
    forall m, r | m in inodes && ValidPath(r)
      ensures Ptr(disk', inodes'[m], r) == if m == n && r == q then b else Ptr(disk, inodes[m], r)
    {
      hide Ptr;
      if k >= NDIRECT {
        PtrAfterStore(disk, inodes, owner, m, b, Zeros(BLOCKSIZE));
      }
    }
    LinkKeepsOwns(disk, disk', inodes, inodes', owner, n, q, b);
  }

  lemma RootStore(disk: Disk, i: Inode, i': Inode, k: nat, b: nat)
    requires k <= DBL
    requires b < 0x1_0000_0000 && i.block[k] == 0 && i'.block == i.block[k := b]
    requires k >= NDIRECT && b < |disk| ==> disk[b] == Zeros(BLOCKSIZE)
    ensures forall r :: ValidPath(r) ==> Ptr(disk, i', r) == if r == RootPath(k) then b else Ptr(disk, i, r)
  {
    if k >= NDIRECT {
      forall j | 0 <= j < WORDS ensures Entry(disk, b, j) == 0 {}
    }
    hide Entry;
  }

  /** Setting entry k of a table: a data entry, or an entry for a fresh all-zero second-level table. */
  lemma LinkTable(disk: Disk, inodes: map<nat, Inode>, owner: map<nat, Key>, n: nat, t: nat, k: nat, b: nat)
    requires Owns(disk, inodes, owner) && n in inodes
    requires t in owner && owner[t].ino == n && IsTable(owner[t].path)
    requires k < WORDS && Entry(disk, t, k) == 0
    requires 0 < b < |disk| && b !in owner && b < 0x1_0000_0000
    requires owner[t].path.Dbl? ==> forall j :: 0 <= j < WORDS ==> Entry(disk, b, j) == 0
    ensures Linked(disk, inodes, disk[t := PutU32(disk[t], 4 * k, b)], inodes, n, Below(owner[t].path, k), b)
    ensures Owns(disk[t := PutU32(disk[t], 4 * k, b)], inodes, owner[b := Key(n, Below(owner[t].path, k))])
  {
    var q := Below(owner[t].path, k);
    var disk' := disk[t := PutU32(disk[t], 4 * k, b)];
    assert OwnedBy(disk, inodes, t, owner[t]);
    EntryAfterStore(disk, t, k, b);
    forall m, r | m in inodes && ValidPath(r)
      ensures Ptr(disk', inodes[m], r) == if m == n && r == q then b else Ptr(disk, inodes[m], r)
    {
      if m != n {
        PtrAfterStore(disk, inodes, owner, m, t, disk'[t]);
      } else {
        TableStore(disk, disk', inodes, owner, n, t, k, b, r);
      }
    }
    LinkKeepsOwns(disk, disk', inodes, inodes, owner, n, q, b);
  }

  /** The path of entry k of the table at path q. */
  function Below(q: Path, k: nat): (r: Path)
    requires IsTable(q)
    ensures ValidPath(q) && k < WORDS ==> ValidPath(r)
  {
    match q
    case Ind => IndData(k)
    case Dbl => Tab(k)
    case Tab(i) => TabData(i, k)
  }

  /** disk' differs from disk in entry k of table t only, which now holds b. */
  ghost predicate EntryStored(disk: Disk, disk': Disk, t: nat, k: nat, b: u32) {
    && |disk'| == |disk|
    && forall s: nat, j :: 0 <= j < WORDS ==>
         Entry(disk', s, j) == if s == t && j == k then b else Entry(disk, s, j)
  }

  lemma EntryAfterStore(disk: Disk, t: nat, k: nat, b: u32)
    requires 0 < t < |disk| && k < WORDS
    ensures EntryStored(disk, disk[t := PutU32(disk[t], 4 * k, b)], t, k, b)
  {
    var disk' := disk[t := PutU32(disk[t], 4 * k, b)];
    forall s: nat, j | 0 <= j < WORDS
      ensures Entry(disk', s, j) == if s == t && j == k then b else Entry(disk, s, j)
    {
      if s == t && j != k { PutU32Elsewhere(disk[t], 4 * k, b, 4 * j); }
    }
  }

  lemma OwnerOf(disk: Disk, inodes: map<nat, Inode>, owner: map<nat, Key>, n: nat, t: nat, q: Path)
    requires Owns(disk, inodes, owner) && n in inodes && ValidPath(q)
    requires t in owner && owner[t].ino == n
    ensures t > 0 && (Ptr(disk, inodes[n], q) == t <==> owner[t].path == q)
  {
    assert OwnedBy(disk, inodes, t, owner[t]);
  }

  lemma TableStore(disk: Disk, disk': Disk, inodes: map<nat, Inode>, owner: map<nat, Key>,
                   n: nat, t: nat, k: nat, b: u32, r: Path)
    requires Owns(disk, inodes, owner) && n in inodes
    requires t in owner && owner[t].ino == n && IsTable(owner[t].path)
    requires k < WORDS && EntryStored(disk, disk', t, k, b)
    requires Entry(disk, t, k) == 0 && b !in owner
    requires owner[t].path.Dbl? ==> forall j :: 0 <= j < WORDS ==> Entry(disk, b, j) == 0
    requires ValidPath(r)
    ensures Ptr(disk', inodes[n], r) == if r == Below(owner[t].path, k) then b else Ptr(disk, inodes[n], r)
  {
    hide Entry;
    var i, own := inodes[n], owner[t].path;
    var d := i.block[DBL];
    OwnerOf(disk, inodes, owner, n, t, Ind);
    OwnerOf(disk, inodes, owner, n, t, Dbl);
    assert i.block[IND] == t <==> own == Ind;
    assert d == t <==> own == Dbl;
    if r.TabData? {
      var e := Entry(disk, d, r.i);
      OwnerOf(disk, inodes, owner, n, t, Tab(r.i));
      assert e == t <==> own == Tab(r.i);
      assert Entry(disk', d, r.i) == if own == Dbl && r.i == k then b else e;
      assert Entry(disk', b, r.j) == Entry(disk, b, r.j);
    }
  }
}
