/** Growing, shrinking and copying the user memory of a process, in the kernel's own loops over page tables. */
module UserSpace {
  import opened UserMemory

  const BASE := 0x8000_0000

  function PagesOf(m: Mem): (r: seq<nat>)
    requires Shape(m)
    ensures |r| == NPROCS && forall q :: 0 <= q < NPROCS ==> r[q] == m.size[q] / PAGE_SIZE
  {
    seq(NPROCS, q requires 0 <= q < NPROCS => m.size[q] / PAGE_SIZE)
  }

  function RoundUp(n: nat): (r: nat)
    ensures r % PAGE_SIZE == 0 && n <= r < n + PAGE_SIZE
  {
    if n % PAGE_SIZE != 0 then n + (PAGE_SIZE - n % PAGE_SIZE) else n
  }

  // ---------------------------------------------------------------------------------------------
  // Unmapping

  predicate InRange(o: Owner, p: nat, a: nat, b: nat) {
    o.Page? && o.p == p && a <= o.k < b
  }

  /** From m0 to m, exactly the pages a..b of p were unmapped: their frames belong to nobody, and are back in
      the bitmap unless they lie above the last frame dalloc_page accepts; nothing else moved. */
  ghost predicate Dropped(m0: Mem, own0: seq<Owner>, m: Mem, own: seq<Owner>, ns: seq<nat>, p: nat, a: nat, b: nat) {
    && Sound(m0, own0, ns) && Sound(m, own, ns) && p < NPROCS && a <= b <= ns[p]
    && m.pgdir == m0.pgdir && m.size == m0.size
    && (forall l :: a <= l < b ==> l < LIMIT && Word(m, p, l) == 0)
    && KeptBut(m0, m, ns, p, a, b)
    && (forall f :: 0 <= f < FRAMES ==> own[f] == if InRange(own0[f], p, a, b) then Free else own0[f])
    && (forall f :: 0 <= f < FRAMES ==>
          (Marked(m.bitmap, f) <==> Marked(m0.bitmap, f) && !(InRange(own0[f], p, a, b) && f <= LAST)))
  }

  ghost predicate KeptBut(m0: Mem, m: Mem, ns: seq<nat>, p: nat, a: nat, b: nat) {
    && Shape(m0) && Shape(m) && |ns| == NPROCS && (forall q :: 0 <= q < NPROCS ==> ns[q] <= LIMIT)
    && forall q, l :: 0 <= q < NPROCS && 0 <= l < ns[q] && !(q == p && a <= l < b) ==> Kept(m0, m, q, l)
  }

  lemma SoundLimits(m: Mem, own: seq<Owner>, ns: seq<nat>)
    requires Sound(m, own, ns)
    ensures Shape(m) && |ns| == NPROCS && |own| == FRAMES && forall q :: 0 <= q < NPROCS ==> ns[q] <= LIMIT
  {
    forall q | 0 <= q < NPROCS ensures ns[q] <= LIMIT {
      SpaceLimit(m, own, ns, q);
    }
  }

  lemma DroppedNone(m: Mem, own: seq<Owner>, ns: seq<nat>, p: nat, a: nat)
    requires Sound(m, own, ns) && p < NPROCS && a <= ns[p]
    ensures Dropped(m, own, m, own, ns, p, a, a)
  {
    SoundLimits(m, own, ns);
    hide Sound;
    hide Marked;
  }

  /** Only the frame page k is mapped to is owned as page k. */
  lemma OwnedAs(m: Mem, own: seq<Owner>, ns: seq<nat>, p: nat, k: nat, f: nat)
    requires Sound(m, own, ns) && p < NPROCS && k < LIMIT && f < FRAMES && own[f] == Page(p, k)
    ensures k < ns[p] && Word(m, p, k) == Pte(f) && FrameAt(Word(m, p, k)) == f && Word(m, p, k) != 0
  {
    SpaceAt(m, own, ns, p);
    hide Sound;
    assert Backed(m, own, p, ns[p], f);
    WordFrames(f);
  }

  lemma KeptTwice(m0: Mem, m: Mem, m': Mem, ns: seq<nat>, p: nat, a: nat, k: nat)
    requires KeptBut(m0, m, ns, p, a, k) && p < NPROCS && a <= k < ns[p] && Shape(m')
    requires forall q, l :: 0 <= q < NPROCS && 0 <= l < ns[q] && (q != p || l != k) ==> Kept(m, m', q, l)
    ensures KeptBut(m0, m', ns, p, a, k + 1)
  {
    hide Word;
    forall q, l | 0 <= q < NPROCS && 0 <= l < ns[q] && !(q == p && a <= l < k + 1) ensures Kept(m0, m', q, l) {
      assert Kept(m0, m, q, l) && Kept(m, m', q, l);
    }
  }

  lemma DropSkips(m0: Mem, own0: seq<Owner>, m: Mem, own: seq<Owner>, ns: seq<nat>, p: nat, a: nat, k: nat)
    requires Dropped(m0, own0, m, own, ns, p, a, k) && k < ns[p] && k < LIMIT && Word(m, p, k) == 0
    ensures Dropped(m0, own0, m, own, ns, p, a, k + 1)
  {
    SoundLimits(m0, own0, ns);
    SoundLimits(m, own, ns);
    hide Sound;
    hide Marked;
    assert Kept(m0, m, p, k);
    hide Kept;
    hide Word;
    forall f | 0 <= f < FRAMES ensures InRange(own0[f], p, a, k + 1) <==> InRange(own0[f], p, a, k) {
      if own0[f] == Page(p, k) { OwnedAs(m, own, ns, p, k, f); }
    }
  }

  lemma DropStep(m0: Mem, own0: seq<Owner>, m: Mem, own: seq<Owner>, ns: seq<nat>, p: nat, a: nat, k: nat, m': Mem)
    requires Dropped(m0, own0, m, own, ns, p, a, k) && k < ns[p] && k < LIMIT && Word(m, p, k) != 0
    requires PageDropped(m, p, k, m')
    ensures FrameAt(Word(m, p, k)) < FRAMES
    ensures Dropped(m0, own0, m', own[FrameAt(Word(m, p, k)) := Free], ns, p, a, k + 1)
  {
    SoundLimits(m0, own0, ns);
    SoundLimits(m, own, ns);
    hide Sound;
    hide Marked;
    hide PageDropped;
    var f := FrameAt(Word(m, p, k));
    DropPage(m, own, ns, p, k, m');
    DropDirs(m, p, k, m');
    assert Kept(m0, m, p, k);
    KeptTwice(m0, m, m', ns, p, a, k);
    var own' := own[f := Free];
    forall l | a <= l < k + 1 ensures Word(m', p, l) == 0 {
      if l < k { assert Kept(m, m', p, l); }
    }
    hide Kept;
    hide KeptBut;
    hide Word;
    forall g | 0 <= g < FRAMES
      ensures own'[g] == if InRange(own0[g], p, a, k + 1) then Free else own0[g]
      ensures Marked(m'.bitmap, g) <==> Marked(m0.bitmap, g) && !(InRange(own0[g], p, a, k + 1) && g <= LAST)
    {
      DropFrame(m0, own0, m, own, ns, p, a, k, m', g);
    }
  }

  lemma DropFrame(m0: Mem, own0: seq<Owner>, m: Mem, own: seq<Owner>, ns: seq<nat>, p: nat, a: nat, k: nat, m': Mem, g: nat)
    requires Dropped(m0, own0, m, own, ns, p, a, k) && k < ns[p] && k < LIMIT && g < FRAMES
    requires FrameAt(Word(m, p, k)) < FRAMES && own[FrameAt(Word(m, p, k))] == Page(p, k)
    requires m'.bitmap == Released(m.bitmap, FrameAt(Word(m, p, k)))
    ensures |own| == FRAMES == |own0| && Shape(m0)
    ensures own[FrameAt(Word(m, p, k)) := Free][g] == if InRange(own0[g], p, a, k + 1) then Free else own0[g]
    ensures Marked(m'.bitmap, g) <==> Marked(m0.bitmap, g) && !(InRange(own0[g], p, a, k + 1) && g <= LAST)
  {
    SoundLimits(m0, own0, ns);
    SoundLimits(m, own, ns);
    var f := FrameAt(Word(m, p, k));
    assert own0[f] == Page(p, k);
    if own0[g] == Page(p, k) { OwnedAs(m, own, ns, p, k, g); }
    OwnedLow(m, own, ns, f);
    hide Sound;
    hide Marked;
    hide KeptBut;
    hide Word;
  }

  lemma OwnedLow(m: Mem, own: seq<Owner>, ns: seq<nat>, f: nat)
    requires Sound(m, own, ns) && f < FRAMES
    ensures |own| == FRAMES && (own[f] != Free ==> FIRST <= f)
  {
  }

  // ---------------------------------------------------------------------------------------------
  // Growing

  /** From m0 to m, p got the pages ns0[p]..n, each mapped, and the tables they need; what is newly owned was
      free before and is marked now, and nothing else changed. */
  ghost predicate Grown(m0: Mem, own0: seq<Owner>, ns0: seq<nat>, m: Mem, own: seq<Owner>, p: nat, n: nat) {
    && p < NPROCS && Sound(m0, own0, ns0) && Sound(m, own, ns0[p := n]) && ns0[p] <= n <= LIMIT
    && KeptAll(m0, m, ns0)
    && (forall k :: ns0[p] <= k < n ==> Word(m, p, k) != 0)
    && OnlyNew(m0, own0, m, own, p, ns0[p], n)
  }

  /** The frames newly owned, for p, and the marks. */
  ghost predicate OnlyNew(m0: Mem, own0: seq<Owner>, m: Mem, own: seq<Owner>, p: nat, a: nat, n: nat) {
    && |own0| == FRAMES && |own| == FRAMES
    && forall f :: 0 <= f < FRAMES ==>
         && (own[f] != own0[f] ==>
               && own0[f] == Free && !Marked(m0.bitmap, f)
               && (InRange(own[f], p, a, n) || (own[f].Table? && own[f].p == p)))
         && (Marked(m.bitmap, f) <==> Marked(m0.bitmap, f) || own[f] != own0[f])
  }

  lemma GrownNone(m: Mem, own: seq<Owner>, ns: seq<nat>, p: nat)
    requires Sound(m, own, ns) && p < NPROCS
    ensures Grown(m, own, ns, m, own, p, ns[p])
  {
    SoundLimits(m, own, ns);
    assert ns[p := ns[p]] == ns;
    hide Sound;
    hide Marked;
  }

  lemma KeptOn(m0: Mem, m: Mem, m': Mem, ns0: seq<nat>, ns: seq<nat>)
    requires KeptAll(m0, m, ns0) && KeptAll(m, m', ns) && |ns0| == NPROCS && forall q :: 0 <= q < NPROCS ==> ns0[q] <= ns[q]
    ensures KeptAll(m0, m', ns0)
  {
    hide Word;
    forall q, k | 0 <= q < NPROCS && 0 <= k < ns0[q] ensures Kept(m0, m', q, k) {
      assert Kept(m0, m, q, k) && Kept(m, m', q, k);
    }
  }

  lemma OnlyNewStep(m0: Mem, own0: seq<Owner>, m: Mem, own: seq<Owner>, p: nat, a: nat, n: nat, f: nat, o: Owner, m': Mem, n': nat)
    requires OnlyNew(m0, own0, m, own, p, a, n) && f < FRAMES && own[f] == Free && !Marked(m.bitmap, f) && n <= n'
    requires InRange(o, p, a, n') || (o.Table? && o.p == p)
    requires m'.bitmap == SetMark(m.bitmap, f)
    ensures OnlyNew(m0, own0, m', own[f := o], p, a, n')
  {
    hide Marked;
    hide SetMark;
  }

  lemma GrowTable(m0: Mem, own0: seq<Owner>, ns0: seq<nat>, m: Mem, own: seq<Owner>, p: nat, n: nat, t: nat, m': Mem)
    requires Grown(m0, own0, ns0, m, own, p, n) && n < LIMIT && t < FRAMES && !Marked(m.bitmap, t)
    requires TableAdded(m, own, p, n / ENTRIES, t, m')
    ensures Grown(m0, own0, ns0, m', own[t := Table(p, n / ENTRIES)], p, n)
  {
    var ns := ns0[p := n];
    SoundLimits(m0, own0, ns0);
    hide Marked;
    hide Sound;
    hide Kept;
    AddTable(m, own, ns, p, n / ENTRIES, t, m');
    KeptOn(m0, m, m', ns0, ns);
    OnlyNewStep(m0, own0, m, own, p, ns0[p], n, t, Table(p, n / ENTRIES), m', n);
    hide OnlyNew;
    StillMapped(m, m', ns, p, ns0[p], n);
  }

  lemma StillMapped(m: Mem, m': Mem, ns: seq<nat>, p: nat, a: nat, n: nat)
    requires KeptAll(m, m', ns) && p < NPROCS && n <= ns[p] && (forall k :: a <= k < n ==> Word(m, p, k) != 0)
    ensures forall k :: a <= k < n ==> Word(m', p, k) != 0
  {
    forall k | a <= k < n ensures Word(m', p, k) != 0 {
      assert Kept(m, m', p, k);
    }
  }

  lemma GrowPage(m0: Mem, own0: seq<Owner>, ns0: seq<nat>, m: Mem, own: seq<Owner>, p: nat, n: nat, f: nat, m': Mem)
    requires Grown(m0, own0, ns0, m, own, p, n) && n < LIMIT && f < FRAMES && !Marked(m.bitmap, f)
    requires PageAdded(m, own, p, n, f, m')
    ensures Grown(m0, own0, ns0, m', own[f := Page(p, n)], p, n + 1)
  {
    var ns := ns0[p := n];
    SoundLimits(m0, own0, ns0);
    hide Marked;
    hide Sound;
    hide Kept;
    hide PageAdded;
    AddPage(m, own, ns, p, f, m');
    assert ns[p := n + 1] == ns0[p := n + 1];
    KeptOn(m0, m, m', ns0, ns);
    PageAddedMark(m, own, p, n, f, m');
    OnlyNewStep(m0, own0, m, own, p, ns0[p], n, f, Page(p, n), m', n + 1);
    hide OnlyNew;
    StillMapped(m, m', ns, p, ns0[p], n);
    WordFrames(f);
  }

  lemma PageAddedMark(m: Mem, own: seq<Owner>, p: nat, k: nat, f: nat, m': Mem)
    requires Shape(m) && |own| == FRAMES && PageAdded(m, own, p, k, f, m')
    ensures own[f] == Free && m'.bitmap == SetMark(m.bitmap, f) && m'.pgdir == m.pgdir && m'.size == m.size
  {
  }

  lemma DroppedMarks(m0: Mem, own0: seq<Owner>, m: Mem, own: seq<Owner>, ns: seq<nat>, p: nat, a: nat, b: nat)
    requires Dropped(m0, own0, m, own, ns, p, a, b) && MarksOk(m0, own0)
    ensures MarksOk(m, own)
  {
    SoundLimits(m, own, ns);
    hide Sound;
    hide Marked;
    hide KeptBut;
  }

  /** The new pages lie in frames of their own: free before, marked now, no two pages in one, and none of them
      a frame an older page of anybody is mapped to. */
  lemma GrownFresh(m0: Mem, own0: seq<Owner>, ns0: seq<nat>, m: Mem, own: seq<Owner>, p: nat, n: nat, k: nat, q: nat, l: nat)
    requires Grown(m0, own0, ns0, m, own, p, n) && ns0[p] <= k < n && q < NPROCS && l < ns0[p := n][q]
    ensures k < LIMIT && l < LIMIT
    ensures var f := FrameAt(Word(m, p, k));
            && FIRST <= f < FRAMES && Word(m, p, k) == Pte(f)
            && !Marked(m0.bitmap, f) && Marked(m.bitmap, f)
            && (Word(m, q, l) != 0 && FrameAt(Word(m, q, l)) == f ==> q == p && l == k)
  {
    hide Marked;
    var ns := ns0[p := n];
    SoundLimits(m, own, ns);
    SpaceAt(m, own, ns, p);
    SpaceAt(m, own, ns, q);
    assert PageOk(m, own, p, k) && PageOk(m, own, q, l);
    var f := FrameAt(Word(m, p, k));
    assert own[f] == Page(p, k);
    OwnedLow(m, own, ns, f);
    if own0[f] == own[f] { OwnedAs(m0, own0, ns0, p, k, f); }
    hide Sound;
  }

  /** Pages grown and unmapped again: all older pages are as they were. */
  lemma ShrinkBack(m0: Mem, ns0: seq<nat>, m1: Mem, own1: seq<Owner>, p: nat, n: nat, m2: Mem, own2: seq<Owner>)
    requires KeptAll(m0, m1, ns0) && p < NPROCS && ns0[p] <= n && Dropped(m1, own1, m2, own2, ns0[p := n], p, ns0[p], n)
    ensures Sound(m2, own2, ns0) && KeptAll(m0, m2, ns0)
  {
    var ns := ns0[p := n];
    ForgetPages(m2, own2, ns, p, ns0[p]);
    assert ns[p := ns0[p]] == ns0;
    hide Marked;
    hide Sound;
    hide Word;
    forall q, k | 0 <= q < NPROCS && 0 <= k < ns0[q] ensures Kept(m0, m2, q, k) {
      assert Kept(m0, m1, q, k) && Kept(m1, m2, q, k);
    }
  }

  /** Growing by some pages and unmapping exactly them brings back every page of everybody and the bitmap, but
      for the page tables, which stay, and the frames above the last one dalloc_page accepts. */
  lemma GrowThenShrink(m0: Mem, own0: seq<Owner>, ns0: seq<nat>, m1: Mem, own1: seq<Owner>, p: nat, n: nat, m2: Mem, own2: seq<Owner>)
    requires Grown(m0, own0, ns0, m1, own1, p, n) && Dropped(m1, own1, m2, own2, ns0[p := n], p, ns0[p], n)
    ensures Sound(m2, own2, ns0) && KeptAll(m0, m2, ns0)
    ensures forall f :: 0 <= f < FRAMES ==>
              (Marked(m2.bitmap, f) <==> Marked(m0.bitmap, f) || (own1[f] != own0[f] && (own1[f].Table? || f > LAST)))
  {
    ShrinkBack(m0, ns0, m1, own1, p, n, m2, own2);
    SoundLimits(m0, own0, ns0);
    SoundLimits(m1, own1, ns0[p := n]);
    forall f | 0 <= f < FRAMES && own1[f] == own0[f] ensures !InRange(own0[f], p, ns0[p], n) {
      if InRange(own0[f], p, ns0[p], n) { OwnedAs(m0, own0, ns0, p, own0[f].k, f); }
    }
    hide Marked;
    hide Sound;
    hide Word;
    hide Kept;
  }

  /** What is owned is marked, except perhaps page tables of p. */
  ghost predicate MarksBut(m: Mem, own: seq<Owner>, p: nat) {
    |own| == FRAMES && forall f :: 0 <= f < FRAMES && own[f] != Free ==> Marked(m.bitmap, f) || (own[f].Table? && own[f].p == p)
  }

  lemma DroppedMarksBut(m0: Mem, own0: seq<Owner>, m: Mem, own: seq<Owner>, ns: seq<nat>, p: nat, a: nat, b: nat)
    requires Dropped(m0, own0, m, own, ns, p, a, b) && MarksBut(m0, own0, p)
    ensures MarksBut(m, own, p)
  {
    SoundLimits(m, own, ns);
    hide Sound;
    hide Marked;
    hide KeptBut;
  }

  lemma GrowNothing(m0: Mem, own0: seq<Owner>, ns0: seq<nat>, m: Mem, own: seq<Owner>, p: nat, n: nat, m': Mem)
    requires Grown(m0, own0, ns0, m, own, p, n) && n < LIMIT && WordPut(m, p, n, 0, m')
    ensures Grown(m0, own0, ns0, m', own, p, n)
  {
    var ns := ns0[p := n];
    SoundLimits(m0, own0, ns0);
    hide Marked;
    hide Sound;
    hide Kept;
    hide WordPut;
    AddNothing(m, own, ns, p, m');
    KeptOn(m0, m, m', ns0, ns);
    StillMapped(m, m', ns, p, ns0[p], n);
  }

  // ---------------------------------------------------------------------------------------------
  // How many frames growing takes, and what a failure leaves

  /** What alloc_page can still hand out. */
  ghost function FreeFrames(b: RamMap): set<nat> {
    set f | FIRST <= f < FRAMES && !Marked(b, f)
  }

  lemma TakeFrame(b: RamMap, f: nat)
    requires FIRST <= f < FRAMES && !Marked(b, f)
    ensures |FreeFrames(SetMark(b, f))| == |FreeFrames(b)| - 1
  {
    hide Marked;
    hide SetMark;
    assert FreeFrames(SetMark(b, f)) == FreeFrames(b) - {f};
  }

  /** How many of the tables i..t the directory lacks. */
  function NullTables(dir: PageDir, i: nat, t: nat): nat
    requires t <= TABLES
  {
    if t <= i then 0 else NullTables(dir, i, t - 1) + if dir[2048 + t - 1] == 0 then 1 else 0
  }

  /** The frames that mapping the pages a..n takes: one for each, and one for each table that is missing. */
  function Needs(dir: PageDir, a: nat, n: nat): nat
    requires n <= LIMIT
  {
    if n <= a then 0 else n - a + NullTables(dir, a / ENTRIES, (n - 1) / ENTRIES + 1)
  }

  lemma {:induction false} NullTablesMore(dir: PageDir, i: nat, t: nat, u: nat)
    requires t <= u <= TABLES
    ensures NullTables(dir, i, t) <= NullTables(dir, i, u)
    decreases u
  {
    if t < u {
      NullTablesMore(dir, i, t, u - 1);
    }
  }

  lemma NeedsMore(dir: PageDir, a: nat, n: nat, k: nat)
    requires a <= n < k <= LIMIT
    ensures Needs(dir, a, n) < Needs(dir, a, k)
  {
    if a < n { NullTablesMore(dir, a / ENTRIES, (n - 1) / ENTRIES + 1, (k - 1) / ENTRIES + 1); }
  }

  /** Frames were enough for the pages before n, but not for page n and its table i. */
  lemma NeedsAt(dir: PageDir, a: nat, n: nat, i: nat, table: bool, free: nat)
    requires a <= n < LIMIT && i == n / ENTRIES && (!table ==> dir[2048 + i] == 0 && (n == a || n % ENTRIES == 0))
    requires free == n - a + NullTables(dir, a / ENTRIES, if table then i + 1 else i)
    ensures Needs(dir, a, n) <= free < Needs(dir, a, n + 1) && (table <==> free + 1 == Needs(dir, a, n + 1))
  {
    if a < n {
      var j := (n - 1) / ENTRIES + 1;
      assert j == if n % ENTRIES == 0 then i else i + 1;
      NullTablesMore(dir, a / ENTRIES, j, if table then i + 1 else i);
    }
  }

  /** Only tables of p are newly owned, in frames that were free. */
  ghost predicate OnlyTables(m0: Mem, own0: seq<Owner>, own: seq<Owner>, p: nat) {
    && |own0| == FRAMES && |own| == FRAMES
    && forall f :: 0 <= f < FRAMES && own[f] != own0[f] ==>
         own0[f] == Free && !Marked(m0.bitmap, f) && own[f].Table? && own[f].p == p
  }

  /** The pages grown are unmapped again, and the frame of table t is unmarked too if it is lost. */
  ghost predicate Undone(m1: Mem, own1: seq<Owner>, m2: Mem, own2: seq<Owner>, p: nat, a: nat, n: nat, lost: bool, t: nat) {
    && |own1| == FRAMES && |own2| == FRAMES
    && (forall f :: 0 <= f < FRAMES ==> own2[f] == if InRange(own1[f], p, a, n) then Free else own1[f])
    && (forall f :: 0 <= f < FRAMES ==>
          (Marked(m2.bitmap, f) <==>
             Marked(m1.bitmap, f) && !(InRange(own1[f], p, a, n) && f <= LAST) && !(lost && f == t)))
  }

  lemma UndoneMeans(m0: Mem, own0: seq<Owner>, ns0: seq<nat>, m1: Mem, own1: seq<Owner>, p: nat, n: nat,
                    m2: Mem, own2: seq<Owner>, lost: bool, t: nat)
    requires Grown(m0, own0, ns0, m1, own1, p, n) && MarksOk(m1, own1) && Undone(m1, own1, m2, own2, p, ns0[p], n, lost, t)
    requires lost ==> t < FRAMES && own1[t].Table?
    ensures OnlyTables(m0, own0, own2, p) && (MarksOk(m2, own2) <==> !lost)
  {
    SoundLimits(m0, own0, ns0);
    forall f | 0 <= f < FRAMES && own1[f] == own0[f] ensures !InRange(own0[f], p, ns0[p], n) {
      if InRange(own0[f], p, ns0[p], n) { OwnedAs(m0, own0, ns0, p, own0[f].k, f); }
    }
    hide Marked;
    hide Sound;
    hide Word;
    hide Kept;
    assert lost ==> own2[t] != Free && !Marked(m2.bitmap, t);
  }

  // ---------------------------------------------------------------------------------------------
  // Copying

  /** Page k of d in m is a guard where page k of s was one in m0, and has its contents otherwise. */
  predicate Twin(m0: Mem, s: nat, m: Mem, d: nat, k: nat)
    requires Shape(m0) && Shape(m) && s < NPROCS && d < NPROCS && k < LIMIT
  {
    var w, v := Word(m0, s, k), Word(m, d, k);
    && (v == 0 <==> w == 0)
    && (w != 0 ==> FrameAt(w) < FRAMES && FrameAt(v) < FRAMES && m.ram[FrameAt(v)] == m0.ram[FrameAt(w)])
  }

  /** From m0 to m, d got twins of the first n pages of s in frames that were free, and nothing else changed. */
  ghost predicate Copied(m0: Mem, own0: seq<Owner>, ns: seq<nat>, m: Mem, own: seq<Owner>, s: nat, d: nat, n: nat) {
    && s < NPROCS && d < NPROCS && s != d && Sound(m0, own0, ns) && ns[d] == 0 && n <= ns[s] <= LIMIT
    && Sound(m, own, ns[d := n]) && KeptAll(m0, m, ns)
    && m.size == m0.size && (forall q :: 0 <= q < NPROCS && q != d ==> m.pgdir[q] == m0.pgdir[q])
    && (forall k :: 0 <= k < n ==> Twin(m0, s, m, d, k))
    && OnlyNew(m0, own0, m, own, d, 0, n)
  }

  lemma CopiedNone(m: Mem, own: seq<Owner>, ns: seq<nat>, s: nat, d: nat)
    requires Sound(m, own, ns) && s < NPROCS && d < NPROCS && s != d && ns[d] == 0
    ensures Copied(m, own, ns, m, own, s, d, 0)
  {
    SoundLimits(m, own, ns);
    assert ns[d := 0] == ns;
    hide Sound;
    hide Marked;
  }

  lemma TwinsKept(m0: Mem, s: nat, m: Mem, d: nat, n: nat, m': Mem, ns: seq<nat>)
    requires Shape(m0) && s < NPROCS && d < NPROCS && n <= LIMIT && KeptAll(m, m', ns) && n <= ns[d]
    requires forall k :: 0 <= k < n ==> Twin(m0, s, m, d, k)
    ensures forall k :: 0 <= k < n ==> Twin(m0, s, m', d, k)
  {
    hide Word;
    forall k | 0 <= k < n ensures Twin(m0, s, m', d, k) {
      assert Twin(m0, s, m, d, k) && Kept(m, m', d, k);
    }
  }

  lemma CopyTable(m0: Mem, own0: seq<Owner>, ns: seq<nat>, m: Mem, own: seq<Owner>, s: nat, d: nat, n: nat, t: nat, m': Mem)
    requires Copied(m0, own0, ns, m, own, s, d, n) && n < LIMIT && t < FRAMES && !Marked(m.bitmap, t)
    requires TableAdded(m, own, d, n / ENTRIES, t, m')
    ensures Copied(m0, own0, ns, m', own[t := Table(d, n / ENTRIES)], s, d, n)
  {
    var ns' := ns[d := n];
    SoundLimits(m0, own0, ns);
    hide Marked;
    hide Sound;
    hide Kept;
    hide Twin;
    AddTable(m, own, ns', d, n / ENTRIES, t, m');
    KeptOn(m0, m, m', ns, ns');
    TwinsKept(m0, s, m, d, n, m', ns');
    OnlyNewStep(m0, own0, m, own, d, 0, n, t, Table(d, n / ENTRIES), m', n);
    hide OnlyNew;
  }

  lemma CopyGuard(m0: Mem, own0: seq<Owner>, ns: seq<nat>, m: Mem, own: seq<Owner>, s: nat, d: nat, n: nat, m': Mem)
    requires Copied(m0, own0, ns, m, own, s, d, n) && n < ns[s] && Word(m0, s, n) == 0 && WordPut(m, d, n, 0, m')
    ensures Copied(m0, own0, ns, m', own, s, d, n + 1)
  {
    var ns' := ns[d := n];
    SoundLimits(m0, own0, ns);
    ZeroPut(m, own, ns', d, n, m');
    hide Marked;
    hide Sound;
    hide Kept;
    hide WordPut;
    AddNothing(m, own, ns', d, m');
    AddGuard(m', own, ns', d);
    assert ns'[d := n + 1] == ns[d := n + 1];
    KeptOn(m0, m, m', ns, ns');
    TwinsKept(m0, s, m, d, n, m', ns');
    hide Word;
  }

  lemma ZeroPut(m: Mem, own: seq<Owner>, ns: seq<nat>, p: nat, k: nat, m': Mem)
    requires Sound(m, own, ns) && p < NPROCS && k < LIMIT && WordPut(m, p, k, 0, m')
    ensures m'.pgdir == m.pgdir && m'.pgdir[p][2048 + k / ENTRIES] != 0 && Word(m', p, k) == 0
  {
  }

  lemma CopyPage(m0: Mem, own0: seq<Owner>, ns: seq<nat>, m: Mem, own: seq<Owner>, s: nat, d: nat, n: nat, f: nat, m1: Mem, m2: Mem)
    requires Copied(m0, own0, ns, m, own, s, d, n) && n < ns[s] && f < FRAMES && !Marked(m.bitmap, f)
    requires Word(m0, s, n) != 0 && FrameAt(Word(m, s, n)) < FRAMES
    requires PageAdded(m, own, d, n, f, m1) && Filled(m1, f, m1.ram[FrameAt(Word(m, s, n))], m2)
    ensures Copied(m0, own0, ns, m2, own[f := Page(d, n)], s, d, n + 1)
  {
    var ns', own' := ns[d := n], own[f := Page(d, n)];
    SoundLimits(m0, own0, ns);
    hide Marked;
    hide Sound;
    hide PageAdded;
    AddPage(m, own, ns', d, f, m1);
    assert ns'[d := n + 1] == ns[d := n + 1];
    PageAddedMark(m, own, d, n, f, m1);
    FillPage(m1, own', ns[d := n + 1], d, n, f, m1.ram[FrameAt(Word(m, s, n))], m2);
    OnlyNewStep(m0, own0, m, own, d, 0, n, f, Page(d, n), m1, n + 1);
    hide OnlyNew;
    forall q, l | 0 <= q < NPROCS && 0 <= l < ns'[q] ensures Kept(m, m2, q, l) {
      assert Kept(m, m1, q, l) && MappedAlike(m1, m2, q, l, d, n);
    }
    assert MappedAlike(m1, m2, d, n, d, n);
    KeptOn(m0, m, m2, ns, ns');
    TwinsKept(m0, s, m, d, n, m2, ns');
    assert Kept(m0, m, s, n) && Kept(m, m1, s, n);
    WordFrames(f);
    NewTwin(m0, own0, ns, m, s, d, n, f, m1, m2);
    OnlyNewBitmap(m0, own0, m1, own', d, n + 1, m2);
  }

  lemma OnlyNewBitmap(m0: Mem, own0: seq<Owner>, m: Mem, own: seq<Owner>, p: nat, n: nat, m': Mem)
    requires OnlyNew(m0, own0, m, own, p, 0, n) && m'.bitmap == m.bitmap
    ensures OnlyNew(m0, own0, m', own, p, 0, n)
  {
    hide Marked;
  }

  lemma NewTwin(m0: Mem, own0: seq<Owner>, ns: seq<nat>, m: Mem, s: nat, d: nat, n: nat, f: nat, m1: Mem, m2: Mem)
    requires Shape(m0) && Shape(m) && Shape(m1) && Shape(m2) && s < NPROCS && d < NPROCS && n < LIMIT && f < FRAMES
    requires Word(m0, s, n) != 0 && FrameAt(Word(m, s, n)) < FRAMES && Kept(m0, m, s, n) && Kept(m, m1, s, n)
    requires Word(m2, d, n) == Word(m1, d, n) == Pte(f) && Filled(m1, f, m1.ram[FrameAt(Word(m, s, n))], m2)
    ensures Twin(m0, s, m2, d, n)
  {
    WordFrames(f);
    hide Word;
  }

  /** What a finished copy means for page k of the child: a guard where the parent has one, otherwise equal
      contents in a frame that was free, that no other page of anybody is mapped to; and every page there was,
      of the parent and of everybody, is as it was. */
  lemma CopiedMeans(m0: Mem, own0: seq<Owner>, ns: seq<nat>, m: Mem, own: seq<Owner>, s: nat, d: nat, n: nat, k: nat, q: nat, l: nat)
    requires Copied(m0, own0, ns, m, own, s, d, n) && k < n && q < NPROCS && l < ns[d := n][q]
    ensures Shape(m0) && Shape(m) && k < LIMIT && l < LIMIT
    ensures Word(m, d, k) == 0 <==> Word(m0, s, k) == 0
    ensures Word(m, d, k) != 0 ==>
              var f := FrameAt(Word(m, d, k));
              && FIRST <= f < FRAMES && Word(m, d, k) == Pte(f) && !Marked(m0.bitmap, f) && Marked(m.bitmap, f)
              && FrameAt(Word(m0, s, k)) < FRAMES && m.ram[f] == m0.ram[FrameAt(Word(m0, s, k))]
              && (Word(m, q, l) != 0 && FrameAt(Word(m, q, l)) == f ==> q == d && l == k)
    ensures q != d ==> Kept(m0, m, q, l)
  {
    hide Marked;
    var ns' := ns[d := n];
    SoundLimits(m0, own0, ns);
    SoundLimits(m, own, ns');
    SpaceAt(m, own, ns', d);
    SpaceAt(m, own, ns', q);
    assert PageOk(m, own, d, k) && PageOk(m, own, q, l) && Twin(m0, s, m, d, k);
    if Word(m, d, k) != 0 {
      var f := FrameAt(Word(m, d, k));
      OwnedLow(m, own, ns', f);
      if own0[f] == own[f] { OwnedAs(m0, own0, ns, d, k, f); }
    }
    hide Sound;
  }
}
