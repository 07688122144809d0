/** Physical page frames, the two-level page tables of the processes, and who owns which frame. */
module UserMemory {
  import opened Bytes
  import Bitmap

  const NPROCS := 64
  const PAGE_SIZE := 4096
  /** RAMSZ MiB of page frames, a bit each. */
  const MAP_LEN := 8256
  const FRAMES := 66048
  /** The first frame not used by the kernel, and the last one dalloc_page accepts. */
  const FIRST := 2048
  const LAST := 65536
  /** Page-table entries per table, user tables per process, user pages per process. */
  const ENTRIES := 256
  const TABLES := 2048
  const LIMIT := 524288

  type Frame = s: seq<u32> | |s| == 1024 witness seq(1024, _ => 0)
  type PageDir = s: seq<u32> | |s| == 4096 witness seq(4096, _ => 0)
  type RamMap = s: seq<byte> | |s| == MAP_LEN witness seq(MAP_LEN, _ => 0)

  datatype Mem = Mem(bitmap: RamMap, ram: seq<Frame>, pgdir: seq<PageDir>, size: seq<nat>)

  predicate Shape(m: Mem) {
    |m.ram| == FRAMES && |m.pgdir| == NPROCS && |m.size| == NPROCS
  }

  // ---------------------------------------------------------------------------------------------
  // The frame bitmap

  predicate Marked(b: RamMap, f: nat)
    requires f < FRAMES
  {
    Bit(b[f / 8], f % 8)
  }

  function SetMark(b: RamMap, f: nat): (r: RamMap)
    requires f < FRAMES
    ensures forall g :: 0 <= g < FRAMES ==> (Marked(r, g) <==> g == f || Marked(b, g))
  {
    var r := b[f / 8 := Bitmap.ByteSet(b[f / 8], f % 8)];
    assert forall g :: 0 <= g < FRAMES ==> (Marked(r, g) <==> g == f || Marked(b, g)) by {
      forall g | 0 <= g < FRAMES ensures Marked(r, g) <==> g == f || Marked(b, g) {
        BitLaws(b[f / 8], f % 8, g % 8);
      }
    }
    r
  }

  function ClearMark(b: RamMap, f: nat): (r: RamMap)
    requires f < FRAMES
    ensures forall g :: 0 <= g < FRAMES ==> (Marked(r, g) <==> g != f && Marked(b, g))
  {
    var r := b[f / 8 := ClearBit(b[f / 8], f % 8)];
    assert forall g :: 0 <= g < FRAMES ==> (Marked(r, g) <==> g != f && Marked(b, g)) by {
      forall g | 0 <= g < FRAMES ensures Marked(r, g) <==> g != f && Marked(b, g) {
        BitLaws(b[f / 8], f % 8, g % 8);
      }
    }
    r
  }

  // ---------------------------------------------------------------------------------------------
  // Page-table words

  /** A page-directory word for the table in frame t: its address | 0x31, whose bits are clear there. */
  function Pde(t: nat): u32
    requires t < FRAMES
  {
    t * PAGE_SIZE + 0x31
  }

  /** A page-table word for frame f: its address | 0xFFE. */
  function Pte(f: nat): u32
    requires f < FRAMES
  {
    f * PAGE_SIZE + 0xFFE
  }

  /** The frame that holds the table a directory word points to: w & 0xFFFFFC00, page-aligned for every Pde. */
  function TableAt(w: u32): nat {
    (w - w % 1024) / PAGE_SIZE
  }

  /** The frame a table word points to: w & 0xFFFFF000. */
  function FrameAt(w: u32): nat {
    w / PAGE_SIZE
  }

  lemma WordFrames(f: nat)
    requires f < FRAMES
    ensures TableAt(Pde(f)) == f && FrameAt(Pte(f)) == f && Pde(f) != 0 && Pte(f) != 0
  {
    assert Pde(f) % 1024 == 0x31;
  }

  /** The table word of user page k of process p. */
  function Word(m: Mem, p: nat, k: nat): u32
    requires Shape(m) && p < NPROCS && k < LIMIT
  {
    var t := TableAt(m.pgdir[p][2048 + k / ENTRIES]);
    if t < FRAMES then m.ram[t][k % ENTRIES] else 0
  }

  // ---------------------------------------------------------------------------------------------
  // Ownership

  datatype Owner = Free | Table(p: nat, i: nat) | Page(p: nat, k: nat)

  /** What is owned lies outside the kernel's frames. */
  ghost predicate Frames(m: Mem, own: seq<Owner>)
    requires Shape(m)
  {
    |own| == FRAMES && forall f :: 0 <= f < FRAMES && own[f] != Free ==> f >= FIRST
  }

  /** What is owned is marked. */
  ghost predicate MarksOk(m: Mem, own: seq<Owner>) {
    |own| == FRAMES && forall f :: 0 <= f < FRAMES && own[f] != Free ==> Marked(m.bitmap, f)
  }

  ghost predicate TableOk(m: Mem, own: seq<Owner>, p: nat, i: nat)
    requires Shape(m) && |own| == FRAMES && p < NPROCS && i < TABLES
  {
    var w := m.pgdir[p][2048 + i];
    w == 0 || (TableAt(w) < FRAMES && w == Pde(TableAt(w)) && own[TableAt(w)] == Table(p, i))
  }

  ghost predicate PageOk(m: Mem, own: seq<Owner>, p: nat, k: nat)
    requires Shape(m) && |own| == FRAMES && p < NPROCS && k < LIMIT
  {
    var w := Word(m, p, k);
    && m.pgdir[p][2048 + k / ENTRIES] != 0
    && (w == 0 || (FrameAt(w) < FRAMES && w == Pte(FrameAt(w)) && own[FrameAt(w)] == Page(p, k)))
  }

  ghost predicate Backed(m: Mem, own: seq<Owner>, p: nat, n: nat, f: nat)
    requires Shape(m) && |own| == FRAMES && p < NPROCS && n <= LIMIT && f < FRAMES
  {
    own[f].Page? && own[f].p == p ==> own[f].k < n && Word(m, p, own[f].k) == Pte(f)
  }

  /** The user memory of p: its tables, its pages below n (mapped, or guards of word 0), and no page elsewhere. */
  ghost predicate Space(m: Mem, own: seq<Owner>, p: nat, n: nat)
    requires Shape(m) && |own| == FRAMES && p < NPROCS
  {
    && n <= LIMIT
    && (forall i :: 0 <= i < TABLES ==> TableOk(m, own, p, i))
    && (forall k :: 0 <= k < n ==> PageOk(m, own, p, k))
    && (forall f :: 0 <= f < FRAMES ==> Backed(m, own, p, n, f))
  }

  /** All of it, process q having ns[q] pages. No frame is shared: each has one owner. */
  ghost predicate Sound(m: Mem, own: seq<Owner>, ns: seq<nat>) {
    Shape(m) && |ns| == NPROCS && Frames(m, own) && forall q :: 0 <= q < NPROCS ==> Space(m, own, q, ns[q])
  }

  /** User page k of q is mapped as before to a frame with the contents it had. */
  predicate Kept(m: Mem, m': Mem, q: nat, k: nat)
    requires Shape(m) && Shape(m') && q < NPROCS && k < LIMIT
  {
    var w := Word(m, q, k);
    Word(m', q, k) == w && (w != 0 && FrameAt(w) < FRAMES ==> m'.ram[FrameAt(w)] == m.ram[FrameAt(w)])
  }

  // ---------------------------------------------------------------------------------------------
  // The single changes

  function PutDir(m: Mem, p: nat, i: nat, w: u32): (r: Mem)
    requires Shape(m) && p < NPROCS && i < TABLES
    ensures Shape(r)
  {
    m.(pgdir := m.pgdir[p := m.pgdir[p][2048 + i := w]])
  }

  function PutWord(m: Mem, t: nat, j: nat, w: u32): (r: Mem)
    requires Shape(m) && t < FRAMES && j < ENTRIES
    ensures Shape(r)
  {
    m.(ram := m.ram[t := m.ram[t][j := w]])
  }

  /** Storing a word into table i of p changes the word of one page only. */
  lemma PutWordAt(m: Mem, own: seq<Owner>, p: nat, i: nat, j: nat, w: u32, q: nat, k: nat)
    requires Shape(m) && Frames(m, own) && p < NPROCS && i < TABLES && j < ENTRIES && q < NPROCS && k < LIMIT
    requires TableOk(m, own, p, i) && TableOk(m, own, q, k / ENTRIES) && m.pgdir[p][2048 + i] != 0
    ensures TableAt(m.pgdir[p][2048 + i]) < FRAMES
    ensures Word(PutWord(m, TableAt(m.pgdir[p][2048 + i]), j, w), q, k) ==
            if q == p && k == i * ENTRIES + j then w else Word(m, q, k)
  {
    hide Marked;
    var t, u := TableAt(m.pgdir[p][2048 + i]), TableAt(m.pgdir[q][2048 + k / ENTRIES]);
    if u == t {
      assert m.pgdir[q][2048 + k / ENTRIES] != 0;
    }
  }

  lemma SpaceAt(m: Mem, own: seq<Owner>, ns: seq<nat>, q: nat)
    requires Sound(m, own, ns) && q < NPROCS
    ensures Shape(m) && |ns| == NPROCS && Frames(m, own) && Space(m, own, q, ns[q])
  {
  }

  /** Nobody's page below ns[q] changed. */
  ghost predicate KeptAll(m: Mem, m': Mem, ns: seq<nat>) {
    && Shape(m) && Shape(m') && |ns| == NPROCS && (forall q :: 0 <= q < NPROCS ==> ns[q] <= LIMIT)
    && forall q, k :: 0 <= q < NPROCS && 0 <= k < ns[q] ==> Kept(m, m', q, k)
  }

  // A fresh table

  ghost predicate TableAdded(m: Mem, own: seq<Owner>, p: nat, i: nat, t: nat, m': Mem)
    requires Shape(m) && |own| == FRAMES
  {
    && p < NPROCS && i < TABLES && FIRST <= t < FRAMES && own[t] == Free && m.pgdir[p][2048 + i] == 0
    && m' == PutDir(m.(bitmap := SetMark(m.bitmap, t)), p, i, Pde(t))
  }

  lemma AddTableSpace(m: Mem, own: seq<Owner>, ns: seq<nat>, p: nat, i: nat, t: nat, m': Mem, q: nat)
    requires Sound(m, own, ns) && TableAdded(m, own, p, i, t, m') && q < NPROCS
    ensures Space(m', own[t := Table(p, i)], q, ns[q])
    ensures forall k :: 0 <= k < ns[q] ==> Kept(m, m', q, k)
  {
    hide Marked;
    hide SetMark;
    SpaceAt(m, own, ns, q);
    hide Sound;
    WordFrames(t);
    var own' := own[t := Table(p, i)];
    forall j | 0 <= j < TABLES ensures TableOk(m', own', q, j) {
      assert TableOk(m, own, q, j);
    }
    forall k | 0 <= k < ns[q] ensures PageOk(m', own', q, k) && Kept(m, m', q, k) {
      assert PageOk(m, own, q, k) && TableOk(m, own, q, k / ENTRIES);
    }
    forall f | 0 <= f < FRAMES ensures Backed(m', own', q, ns[q], f) {
      assert Backed(m, own, q, ns[q], f);
      if own'[f].Page? && own'[f].p == q { assert PageOk(m, own, q, own[f].k); }
    }
  }

  lemma AddTable(m: Mem, own: seq<Owner>, ns: seq<nat>, p: nat, i: nat, t: nat, m': Mem)
    requires Sound(m, own, ns) && TableAdded(m, own, p, i, t, m')
    ensures Sound(m', own[t := Table(p, i)], ns) && KeptAll(m, m', ns)
  {
    hide Space;
    hide Kept;
    forall q | 0 <= q < NPROCS
      ensures Space(m', own[t := Table(p, i)], q, ns[q]) && ns[q] <= LIMIT
      ensures forall k :: 0 <= k < ns[q] ==> Kept(m, m', q, k)
    {
      AddTableSpace(m, own, ns, p, i, t, m', q);
      SpaceLimit(m, own, ns, q);
    }
    hide Marked;
  }

  lemma SpaceLimit(m: Mem, own: seq<Owner>, ns: seq<nat>, q: nat)
    requires Sound(m, own, ns) && q < NPROCS
    ensures ns[q] <= LIMIT
  {
  }

  // The word of page k of p rewritten: to a fresh frame, or to 0

  ghost predicate WordPut(m: Mem, p: nat, k: nat, w: u32, m': Mem)
    requires Shape(m)
  {
    && p < NPROCS && k < LIMIT && m.pgdir[p][2048 + k / ENTRIES] != 0
    && TableAt(m.pgdir[p][2048 + k / ENTRIES]) < FRAMES
    && m' == PutWord(m, TableAt(m.pgdir[p][2048 + k / ENTRIES]), k % ENTRIES, w)
  }

  lemma WordPutAt(m: Mem, own: seq<Owner>, p: nat, k: nat, w: u32, m': Mem, q: nat, l: nat)
    requires Shape(m) && Frames(m, own) && WordPut(m, p, k, w, m') && q < NPROCS && l < LIMIT
    requires TableOk(m, own, p, k / ENTRIES) && TableOk(m, own, q, l / ENTRIES)
    ensures Word(m', q, l) == if q == p && l == k then w else Word(m, q, l)
    ensures PageOk(m, own, q, l) && (q != p || l != k) ==> Kept(m, m', q, l)
  {
    PutWordAt(m, own, p, k / ENTRIES, k % ENTRIES, w, q, l);
    hide Marked;
  }

  // A page mapped to a fresh frame at the end

  ghost predicate PageAdded(m: Mem, own: seq<Owner>, p: nat, k: nat, f: nat, m': Mem)
    requires Shape(m) && |own| == FRAMES
  {
    FIRST <= f < FRAMES && own[f] == Free && WordPut(m.(bitmap := SetMark(m.bitmap, f)), p, k, Pte(f), m')
  }

  lemma AddPageSpace(m: Mem, own: seq<Owner>, ns: seq<nat>, p: nat, f: nat, m': Mem, q: nat)
    requires Sound(m, own, ns) && p < NPROCS && ns[p] < LIMIT && PageAdded(m, own, p, ns[p], f, m') && q < NPROCS
    ensures Space(m', own[f := Page(p, ns[p])], q, ns[p := ns[p] + 1][q])
    ensures forall l :: 0 <= l < ns[q] ==> Kept(m, m', q, l)
  {
    hide Marked;
    hide SetMark;
    SpaceAt(m, own, ns, q);
    SpaceAt(m, own, ns, p);
    hide Sound;
    hide PutWord;
    WordFrames(f);
    var k, own', n' := ns[p], own[f := Page(p, ns[p])], ns[p := ns[p] + 1][q];
    var m1 := m.(bitmap := SetMark(m.bitmap, f));
    assert Frames(m1, own);
    assert TableOk(m, own, p, k / ENTRIES) && TableOk(m1, own, p, k / ENTRIES);
    forall j | 0 <= j < TABLES ensures TableOk(m', own', q, j) && TableOk(m1, own, q, j) {
      assert TableOk(m, own, q, j);
      PutWordDirs(m, p, k, f, m');
    }
    forall l | 0 <= l < n' ensures PageOk(m', own', q, l) && (l < ns[q] ==> Kept(m, m', q, l)) {
      PutWordDirs(m, p, k, f, m');
      WordPutAt(m1, own, p, k, Pte(f), m', q, l);
      if l < ns[q] { assert PageOk(m, own, q, l) && PageOk(m1, own, q, l); }
    }
    forall g | 0 <= g < FRAMES ensures Backed(m', own', q, n', g) {
      assert Backed(m, own, q, ns[q], g);
      if own'[g].Page? && own'[g].p == q && g != f {
        WordPutAt(m1, own, p, k, Pte(f), m', q, own[g].k);
      } else if g == f && q == p {
        WordPutAt(m1, own, p, k, Pte(f), m', p, k);
      }
    }
  }

  lemma PutWordDirs(m: Mem, p: nat, k: nat, f: nat, m': Mem)
    requires Shape(m) && f < FRAMES && WordPut(m.(bitmap := SetMark(m.bitmap, f)), p, k, Pte(f), m')
    ensures m'.pgdir == m.pgdir && m'.size == m.size && m'.bitmap == SetMark(m.bitmap, f)
  {
  }

  lemma AddPage(m: Mem, own: seq<Owner>, ns: seq<nat>, p: nat, f: nat, m': Mem)
    requires Sound(m, own, ns) && p < NPROCS && ns[p] < LIMIT && PageAdded(m, own, p, ns[p], f, m')
    ensures Sound(m', own[f := Page(p, ns[p])], ns[p := ns[p] + 1]) && KeptAll(m, m', ns)
    ensures Word(m', p, ns[p]) == Pte(f)
  {
    hide Space;
    hide Kept;
    hide PutWord;
    forall q | 0 <= q < NPROCS
      ensures Space(m', own[f := Page(p, ns[p])], q, ns[p := ns[p] + 1][q]) && ns[q] <= LIMIT
      ensures forall k :: 0 <= k < ns[q] ==> Kept(m, m', q, k)
    {
      AddPageSpace(m, own, ns, p, f, m', q);
      SpaceLimit(m, own, ns, q);
    }
    hide Marked;
    PutWordDirs(m, p, ns[p], f, m');
    NewWord(m, own, ns, p, f, m');
  }

  lemma NewWord(m: Mem, own: seq<Owner>, ns: seq<nat>, p: nat, f: nat, m': Mem)
    requires Sound(m, own, ns) && p < NPROCS && ns[p] < LIMIT && PageAdded(m, own, p, ns[p], f, m')
    ensures Word(m', p, ns[p]) == Pte(f)
  {
  }

  // A page unmapped

  /** clrpage's loop body for page k, whose word is not 0. */
  ghost predicate PageDropped(m: Mem, p: nat, k: nat, m': Mem)
    requires Shape(m)
  {
    && p < NPROCS && k < LIMIT && FrameAt(Word(m, p, k)) < FRAMES
    && WordPut(m.(bitmap := Released(m.bitmap, FrameAt(Word(m, p, k)))), p, k, 0, m')
  }

  /** dalloc_page on a page-aligned address. */
  function Released(b: RamMap, f: nat): RamMap
    requires f < FRAMES
  {
    if FIRST <= f <= LAST then ClearMark(b, f) else b
  }

  lemma DropPageSpace(m: Mem, own: seq<Owner>, ns: seq<nat>, p: nat, k: nat, m': Mem, q: nat)
    requires Sound(m, own, ns) && p < NPROCS && k < ns[p] && Word(m, p, k) != 0 && PageDropped(m, p, k, m') && q < NPROCS
    ensures Space(m', own[FrameAt(Word(m, p, k)) := Free], q, ns[q])
    ensures forall l :: 0 <= l < ns[q] && (q != p || l != k) ==> Kept(m, m', q, l)
    ensures q == p ==> Word(m', p, k) == 0
  {
    hide Marked;
    hide ClearMark;
    SpaceAt(m, own, ns, q);
    SpaceAt(m, own, ns, p);
    hide Sound;
    hide PutWord;
    var f := FrameAt(Word(m, p, k));
    var own', m1 := own[f := Free], m.(bitmap := Released(m.bitmap, f));
    assert PageOk(m, own, p, k) && own[f] == Page(p, k);
    assert m'.pgdir == m.pgdir by { DropDirs(m, p, k, m'); }
    WordFrames(f);
    forall j | 0 <= j < TABLES ensures TableOk(m', own', q, j) && TableOk(m, own, q, j) {
      assert TableOk(m, own, q, j);
    }
    assert TableOk(m, own, p, k / ENTRIES);
    forall l | 0 <= l < LIMIT
      ensures Word(m', q, l) == if q == p && l == k then 0 else Word(m, q, l)
      ensures PageOk(m, own, q, l) && (q != p || l != k) ==> Kept(m, m', q, l)
    {
      DropAt(m, own, p, k, m', q, l);
    }
    forall l | 0 <= l < ns[q] ensures PageOk(m', own', q, l) {
      assert PageOk(m, own, q, l);
    }
    forall g | 0 <= g < FRAMES ensures Backed(m', own', q, ns[q], g) {
      assert Backed(m, own, q, ns[q], g);
    }
  }

  lemma DropDirs(m: Mem, p: nat, k: nat, m': Mem)
    requires Shape(m) && PageDropped(m, p, k, m')
    ensures m'.pgdir == m.pgdir && m'.size == m.size && m'.bitmap == Released(m.bitmap, FrameAt(Word(m, p, k)))
  {
  }

  lemma DropAt(m: Mem, own: seq<Owner>, p: nat, k: nat, m': Mem, q: nat, l: nat)
    requires Shape(m) && Frames(m, own) && PageDropped(m, p, k, m') && q < NPROCS && l < LIMIT
    requires TableOk(m, own, p, k / ENTRIES) && TableOk(m, own, q, l / ENTRIES)
    ensures Word(m', q, l) == if q == p && l == k then 0 else Word(m, q, l)
    ensures PageOk(m, own, q, l) && (q != p || l != k) ==> Kept(m, m', q, l)
  {
    hide Marked;
    hide PutWord;
    var m2 := m.(bitmap := m'.bitmap);
    DropDirs(m, p, k, m');
    PutWordAt(m, own, p, k / ENTRIES, k % ENTRIES, 0, q, l);
    assert m' == PutWord(m, TableAt(m.pgdir[p][2048 + k / ENTRIES]), k % ENTRIES, 0).(bitmap := m'.bitmap) by { DropForm(m, p, k, m'); }
    if PageOk(m, own, q, l) && (q != p || l != k) { DropKept(m, own, p, k, m', q, l); }
  }

  lemma DropForm(m: Mem, p: nat, k: nat, m': Mem)
    requires Shape(m) && PageDropped(m, p, k, m')
    ensures m' == PutWord(m, TableAt(m.pgdir[p][2048 + k / ENTRIES]), k % ENTRIES, 0).(bitmap := m'.bitmap)
  {
  }

  lemma DropKept(m: Mem, own: seq<Owner>, p: nat, k: nat, m': Mem, q: nat, l: nat)
    requires Shape(m) && Frames(m, own) && PageDropped(m, p, k, m') && q < NPROCS && l < LIMIT
    requires TableOk(m, own, p, k / ENTRIES) && TableOk(m, own, q, l / ENTRIES) && PageOk(m, own, q, l) && (q != p || l != k)
    requires Word(m', q, l) == Word(m, q, l)
    ensures Kept(m, m', q, l)
  {
    hide Marked;
  }

  lemma DropPage(m: Mem, own: seq<Owner>, ns: seq<nat>, p: nat, k: nat, m': Mem)
    requires Sound(m, own, ns) && p < NPROCS && k < ns[p] && Word(m, p, k) != 0 && PageDropped(m, p, k, m')
    ensures Sound(m', own[FrameAt(Word(m, p, k)) := Free], ns) && Word(m', p, k) == 0
    ensures own[FrameAt(Word(m, p, k))] == Page(p, k)
    ensures forall q, l :: 0 <= q < NPROCS && 0 <= l < ns[q] && (q != p || l != k) ==> Kept(m, m', q, l)
  {
    var f := FrameAt(Word(m, p, k));
    SpaceAt(m, own, ns, p);
    assert PageOk(m, own, p, k);
    hide Space;
    hide Kept;
    hide PutWord;
    hide Word;
    DropPageSpace(m, own, ns, p, k, m', p);
    forall q | 0 <= q < NPROCS
      ensures Space(m', own[f := Free], q, ns[q])
      ensures forall l :: 0 <= l < ns[q] && (q != p || l != k) ==> Kept(m, m', q, l)
    {
      DropPageSpace(m, own, ns, p, k, m', q);
    }
    hide Marked;
    DropDirs(m, p, k, m');
  }

  // ---------------------------------------------------------------------------------------------

  /** Pages from a on whose words are all 0 may be forgotten. */
  lemma ForgetPages(m: Mem, own: seq<Owner>, ns: seq<nat>, p: nat, a: nat)
    requires Sound(m, own, ns) && p < NPROCS && a <= ns[p]
    requires forall k :: a <= k < ns[p] ==> k < LIMIT && Word(m, p, k) == 0
    ensures Sound(m, own, ns[p := a])
  {
    SpaceAt(m, own, ns, p);
    forall f | 0 <= f < FRAMES ensures Backed(m, own, p, a, f) {
      assert Backed(m, own, p, ns[p], f);
      WordFrames(f);
    }
    hide PageOk;
    hide TableOk;
    hide Backed;
    assert Space(m, own, p, a);
    hide Space;
  }

  /** A guard page: a page of word 0 at the end. */
  lemma AddGuard(m: Mem, own: seq<Owner>, ns: seq<nat>, p: nat)
    requires Sound(m, own, ns) && p < NPROCS && ns[p] < LIMIT
    requires m.pgdir[p][2048 + ns[p] / ENTRIES] != 0 && Word(m, p, ns[p]) == 0
    ensures Sound(m, own, ns[p := ns[p] + 1])
  {
    SpaceAt(m, own, ns, p);
    var n := ns[p] + 1;
    forall f | 0 <= f < FRAMES ensures Backed(m, own, p, n, f) {
      assert Backed(m, own, p, ns[p], f);
    }
    assert PageOk(m, own, p, ns[p]);
    hide PageOk;
    hide TableOk;
    hide Backed;
    assert Space(m, own, p, ns[p] + 1);
    hide Space;
  }

  /** A word of 0 stored for the page behind the end changes nothing that counts. */
  lemma AddNothing(m: Mem, own: seq<Owner>, ns: seq<nat>, p: nat, m': Mem)
    requires Sound(m, own, ns) && p < NPROCS && ns[p] < LIMIT && WordPut(m, p, ns[p], 0, m')
    ensures Sound(m', own, ns) && KeptAll(m, m', ns)
    ensures m'.bitmap == m.bitmap && m'.pgdir == m.pgdir && m'.size == m.size
  {
    hide PutWord;
    hide Word;
    forall q | 0 <= q < NPROCS
      ensures Space(m', own, q, ns[q]) && ns[q] <= LIMIT
      ensures forall l :: 0 <= l < ns[q] ==> Kept(m, m', q, l)
    {
      AddNothingSpace(m, own, ns, p, m', q);
      SpaceLimit(m, own, ns, q);
    }
    hide Space;
    hide Kept;
    PutOnlyRam(m, p, ns[p], 0, m');
  }

  lemma PutOnlyRam(m: Mem, p: nat, k: nat, w: u32, m': Mem)
    requires Shape(m) && WordPut(m, p, k, w, m')
    ensures Shape(m') && m'.pgdir == m.pgdir && m'.size == m.size && m'.bitmap == m.bitmap
  {
  }

  lemma AddNothingSpace(m: Mem, own: seq<Owner>, ns: seq<nat>, p: nat, m': Mem, q: nat)
    requires Sound(m, own, ns) && p < NPROCS && ns[p] < LIMIT && WordPut(m, p, ns[p], 0, m') && q < NPROCS
    ensures Space(m', own, q, ns[q])
    ensures forall l :: 0 <= l < ns[q] ==> Kept(m, m', q, l)
  {
    SpaceAt(m, own, ns, q);
    SpaceAt(m, own, ns, p);
    hide Sound;
    hide PutWord;
    var k := ns[p];
    PutOnlyRam(m, p, k, 0, m');
    assert TableOk(m, own, p, k / ENTRIES);
    forall j | 0 <= j < TABLES ensures TableOk(m', own, q, j) {
      assert TableOk(m, own, q, j);
    }
    forall l | 0 <= l < ns[q] ensures PageOk(m', own, q, l) && Kept(m, m', q, l) {
      assert PageOk(m, own, q, l) && TableOk(m, own, q, l / ENTRIES);
      WordPutAt(m, own, p, k, 0, m', q, l);
    }
    forall g | 0 <= g < FRAMES ensures Backed(m', own, q, ns[q], g) {
      assert Backed(m, own, q, ns[q], g);
      if own[g].Page? && own[g].p == q {
        assert TableOk(m, own, q, own[g].k / ENTRIES);
        WordPutAt(m, own, p, k, 0, m', q, own[g].k);
      }
    }
  }

  // The contents of a page replaced

  ghost predicate Filled(m: Mem, f: nat, c: Frame, m': Mem)
    requires Shape(m)
  {
    f < FRAMES && m' == m.(ram := m.ram[f := c])
  }

  lemma FillAt(m: Mem, own: seq<Owner>, p: nat, k: nat, f: nat, c: Frame, m': Mem, q: nat, l: nat)
    requires Shape(m) && Frames(m, own) && Filled(m, f, c, m') && own[f] == Page(p, k) && q < NPROCS && l < LIMIT
    requires TableOk(m, own, q, l / ENTRIES)
    ensures Word(m', q, l) == Word(m, q, l)
    ensures PageOk(m, own, q, l) && (q != p || l != k) ==> Kept(m, m', q, l)
  {
  }

  /** Page l of q is mapped as before, and unless it is page k of p has its contents. */
  predicate MappedAlike(m: Mem, m': Mem, q: nat, l: nat, p: nat, k: nat)
    requires Shape(m) && Shape(m') && q < NPROCS
  {
    l < LIMIT && Word(m', q, l) == Word(m, q, l) && (q != p || l != k ==> Kept(m, m', q, l))
  }

  lemma FillSpace(m: Mem, own: seq<Owner>, ns: seq<nat>, p: nat, k: nat, f: nat, c: Frame, m': Mem, q: nat)
    requires Sound(m, own, ns) && Filled(m, f, c, m') && own[f] == Page(p, k) && q < NPROCS
    ensures Space(m', own, q, ns[q])
    ensures forall l :: 0 <= l < ns[q] ==> MappedAlike(m, m', q, l, p, k)
  {
    SpaceAt(m, own, ns, q);
    hide Sound;
    forall j | 0 <= j < TABLES ensures TableOk(m', own, q, j) {
      assert TableOk(m, own, q, j);
    }
    forall l | 0 <= l < ns[q]
      ensures PageOk(m', own, q, l) && MappedAlike(m, m', q, l, p, k)
    {
      assert PageOk(m, own, q, l) && TableOk(m, own, q, l / ENTRIES);
      FillAt(m, own, p, k, f, c, m', q, l);
    }
    forall g | 0 <= g < FRAMES ensures Backed(m', own, q, ns[q], g) {
      assert Backed(m, own, q, ns[q], g);
      if own[g].Page? && own[g].p == q {
        assert TableOk(m, own, q, own[g].k / ENTRIES);
        FillAt(m, own, p, k, f, c, m', q, own[g].k);
      }
    }
  }

  lemma FillPage(m: Mem, own: seq<Owner>, ns: seq<nat>, p: nat, k: nat, f: nat, c: Frame, m': Mem)
    requires Sound(m, own, ns) && Filled(m, f, c, m') && own[f] == Page(p, k)
    ensures Sound(m', own, ns)
    ensures forall q, l :: 0 <= q < NPROCS && 0 <= l < ns[q] ==> MappedAlike(m, m', q, l, p, k)
  {
    hide MappedAlike;
    hide Space;
    forall q | 0 <= q < NPROCS
      ensures Space(m', own, q, ns[q])
      ensures forall l :: 0 <= l < ns[q] ==> MappedAlike(m, m', q, l, p, k)
    {
      FillSpace(m, own, ns, p, k, f, c, m', q);
    }
  }
}
