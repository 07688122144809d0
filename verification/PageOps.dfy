/** The page allocator and the loops that grow, shrink and copy user memory, changing frames and tables in place. */
module PageOps {
  import opened Bytes
  import opened UserMemory
  import opened UserSpace
  import Bitmap

  class Memory {
    var bitmap: RamMap
    var ram: seq<Frame>
    var pgdir: seq<PageDir>
    var size: seq<nat>
    const brkStart: seq<nat>
    ghost var own: seq<Owner>

    ghost function Abs(): Mem
      reads this
    {
      Mem(bitmap, ram, pgdir, size)
    }

    /** All sizes are whole pages, and all memory is accounted for. */
    ghost predicate Valid()
      reads this
    {
      && Shape(Abs()) && |brkStart| == NPROCS && (forall q :: 0 <= q < NPROCS ==> size[q] % PAGE_SIZE == 0)
      && Sound(Abs(), own, PagesOf(Abs())) && MarksOk(Abs(), own)
    }

    /** setupvm and the start of the kernel: no user memory, whatever the frames hold. */
    constructor (ram: seq<Frame>, brkStart: seq<nat>)
      requires |ram| == FRAMES && |brkStart| == NPROCS
      ensures Valid() && this.ram == ram && this.brkStart == brkStart && forall q :: 0 <= q < NPROCS ==> size[q] == 0
      ensures (forall f :: 0 <= f < FRAMES ==> own[f] == Free && !Marked(bitmap, f))
      ensures forall q, i :: 0 <= q < NPROCS && 2048 <= i < 4096 ==> pgdir[q][i] == 0
    {
      this.ram, this.brkStart := ram, brkStart;
      bitmap := seq(MAP_LEN, _ => 0);
      pgdir := seq(NPROCS, _ => seq(4096, j requires 0 <= j => if j < 258 then 0x50_0000 + j * 1024 + 0x11 else 0));
      size := seq(NPROCS, _ => 0);
      own := seq(FRAMES, _ => Free);
      new;
      NoMemory(Abs(), own);
      forall f | 0 <= f < FRAMES ensures !Marked(bitmap, f) {
        ZeroBit(f % 8);
      }
    }

    /** alloc_page(): the address of the lowest free frame behind the kernel's, or 0 */
    method AllocPage() returns (addr: nat)
      modifies `bitmap
      ensures addr == 0 ==> bitmap == old(bitmap) && forall g :: FIRST <= g < FRAMES ==> Marked(bitmap, g)
      ensures addr != 0 ==>
                && addr % PAGE_SIZE == 0 && FIRST <= addr / PAGE_SIZE < FRAMES && 0x80_0000 <= addr
                && !Marked(old(bitmap), addr / PAGE_SIZE) && bitmap == SetMark(old(bitmap), addr / PAGE_SIZE)
                && forall g :: FIRST <= g < addr / PAGE_SIZE ==> Marked(old(bitmap), g)
    {
      hide SetMark;
      for i := 256 to MAP_LEN
        invariant bitmap == old(bitmap) && forall g :: FIRST <= g < i * 8 ==> Marked(bitmap, g)
      {
        for j := 0 to 8
          invariant bitmap == old(bitmap) && forall g :: FIRST <= g < i * 8 + j ==> Marked(bitmap, g)
        {
          var f := i * 8 + j;
          assert f / 8 == i && f % 8 == j;
          if !Bit(bitmap[i], j) {
            MarkByte(bitmap, f);
            bitmap := bitmap[i := Bitmap.ByteSet(bitmap[i], j)];
            return i * PAGE_SIZE * 8 + j * PAGE_SIZE;
          }
        }
      }
      return 0;
    }

    static lemma MarkByte(b: RamMap, f: nat)
      requires f < FRAMES
      ensures b[f / 8 := Bitmap.ByteSet(b[f / 8], f % 8)] == SetMark(b, f)
    {
    }

    /** dalloc_page(page) */
    method DallocPage(addr: nat)
      modifies `bitmap
      ensures bitmap == if addr % PAGE_SIZE == 0 && addr < FRAMES * PAGE_SIZE then Released(old(bitmap), addr / PAGE_SIZE) else old(bitmap)
      ensures forall g :: 0 <= g < FRAMES ==>
                (Marked(bitmap, g) <==> Marked(old(bitmap), g) && !(addr == 0x1000 * g && 0x80_0000 <= addr <= 0x1000_0000))
    {
      if addr < 0x80_0000 || addr > 0x1000_0000 {
        return;
      }
      if addr % PAGE_SIZE != 0 {
        return;
      }
      var f := addr / PAGE_SIZE;
      bitmap := bitmap[f / 8 := ClearBit(bitmap[f / 8], f % 8)];
    }

    /** The body of clrpage's inner loop for entry j of the table in frame t. */
    method ClearEntry(t: nat, j: nat, ghost m0: Mem, ghost own0: seq<Owner>, ghost ns: seq<nat>, ghost p: nat, ghost a: nat, ghost k: nat)
      requires Dropped(m0, own0, Abs(), own, ns, p, a, k) && k < ns[p] && k < LIMIT
      requires t < FRAMES && j < ENTRIES && t == TableAt(pgdir[p][2048 + k / ENTRIES]) && j == k % ENTRIES
      modifies `bitmap, `ram, `own
      ensures Dropped(m0, own0, Abs(), own, ns, p, a, k + 1)
    {
      hide Dropped;
      hide Marked;
      ghost var m := Abs();
      DroppedAt(m0, own0, m, own, ns, p, a, k);
      if ram[t][j] != 0 {
        DallocPage(FrameAt(ram[t][j]) * PAGE_SIZE);
        ram := ram[t := ram[t][j := 0]];
        assert PageDropped(m, p, k, Abs());
        DropStep(m0, own0, m, own, ns, p, a, k, Abs());
        own := own[FrameAt(Word(m, p, k)) := Free];
      } else {
        DropSkips(m0, own0, m, own, ns, p, a, k);
      }
    }

    /** clrpage(proc, start, size), ns being the pages that count as mapped or guards */
    method ClrPage(p: nat, start: nat, sz: nat, ghost ns: seq<nat>)
      requires Sound(Abs(), own, ns) && p < NPROCS
      requires sz > 0 && start >= BASE ==> CanClear(ns, size, p, (RoundUp(start) - BASE) / PAGE_SIZE, RoundUp(sz) / PAGE_SIZE)
      modifies this
      ensures sz == 0 || start < BASE ==> Abs() == old(Abs()) && own == old(own)
      ensures sz > 0 && start >= BASE ==>
                var a, n := (RoundUp(start) - BASE) / PAGE_SIZE, RoundUp(sz) / PAGE_SIZE;
                && size == (if a + n <= LIMIT then old(size)[p := old(size)[p] - RoundUp(sz)] else old(size))
                && Dropped(old(Abs()), old(own), Abs().(size := old(size)), own, ns, p, a, if a + n <= LIMIT then a + n else LIMIT)
    {
      hide Dropped;
      hide Sound;
      if sz == 0 || start < BASE {
        return;
      }
      var size1, first := RoundUp(sz), RoundUp(start);
      var plen := size1 / PAGE_SIZE;
      var tpos: nat, toff: nat := first / 0x10_0000, first % 0x10_0000 / PAGE_SIZE;
      ghost var m0, own0, a, n := Abs(), own, (first - BASE) / PAGE_SIZE, plen;
      SoundLimits(m0, own0, ns);
      DroppedNone(m0, own0, ns, p, a);
      while true
        invariant 2048 <= tpos <= 4096 && 0 <= toff < ENTRIES && plen > 0 && size == m0.size
        invariant a <= Index(tpos, toff) <= LIMIT && Index(tpos, toff) + plen == a + n
        invariant Dropped(m0, own0, Abs(), own, ns, p, a, Index(tpos, toff))
        decreases 4096 - tpos
      {
        if tpos == 4096 {
          return;
        }
        DroppedTable(m0, own0, Abs(), own, ns, p, a, Index(tpos, toff));
        var t := TableAt(pgdir[p][tpos]);
        if t != 0 {
          for j := toff to ENTRIES
            invariant plen > 0 && size == m0.size && Index(tpos, j) + plen == a + n
            invariant Index(tpos, j) <= LIMIT
            invariant Dropped(m0, own0, Abs(), own, ns, p, a, Index(tpos, j)) && pgdir == m0.pgdir
          {
            ClearEntry(t, j, m0, own0, ns, p, a, Index(tpos, j));
            DroppedDirs(m0, own0, Abs(), own, ns, p, a, Index(tpos, j) + 1);
            plen := plen - 1;
            if plen == 0 {
              size := size[p := size[p] - size1];
              return;
            }
          }
        }
        toff, tpos := 0, tpos + 1;
      }
    }

    /** allocuvm's step for a missing table of page n: the directory word filled in, or false. */
    method AddDir(p: nat, tpos: nat, ghost m0: Mem, ghost own0: seq<Owner>, ghost ns0: seq<nat>, ghost n: nat) returns (ok: bool)
      requires Grown(m0, own0, ns0, Abs(), own, p, n) && MarksOk(Abs(), own)
      requires n < LIMIT && tpos == n / ENTRIES && pgdir[p][2048 + tpos] == 0
      modifies `bitmap, `pgdir, `own
      ensures Grown(m0, own0, ns0, Abs(), own, p, n) && MarksOk(Abs(), own)
      ensures ok <==> pgdir[p][2048 + tpos] != 0
      ensures |pgdir| == NPROCS && forall i :: 2048 <= i < 4096 && i != 2048 + tpos ==> pgdir[p][i] == old(pgdir[p])[i]
      ensures |FreeFrames(bitmap)| == |FreeFrames(old(bitmap))| - (if ok then 1 else 0)
      ensures !ok ==> FreeFrames(bitmap) == {}
    {
      hide Grown;
      hide Marked;
      hide SetMark;
      ghost var m := Abs();
      GrownShape(m0, own0, ns0, m, own, p, n);
      var addr := AllocPage();
      if addr == 0 {
        return false;
      }
      ghost var t := addr / PAGE_SIZE;
      TakeFrame(m.bitmap, t);
      pgdir := pgdir[p := pgdir[p][2048 + tpos := addr + 0x31]];
      assert TableAdded(m, own, p, tpos, t, Abs());
      GrowTable(m0, own0, ns0, m, own, p, n, t, Abs());
      MarksMore(m, own, t, Table(p, tpos), Abs());
      own := own[t := Table(p, tpos)];
      return true;
    }

    /** The body of allocuvm's inner loop: entry j of the table in frame t mapped for page n, or left 0. */
    method AddEntry(p: nat, t: nat, j: nat, ghost m0: Mem, ghost own0: seq<Owner>, ghost ns0: seq<nat>, ghost n: nat) returns (ok: bool)
      requires Grown(m0, own0, ns0, Abs(), own, p, n) && MarksOk(Abs(), own) && n < LIMIT
      requires pgdir[p][2048 + n / ENTRIES] != 0 && t == TableAt(pgdir[p][2048 + n / ENTRIES]) && t < FRAMES && j == n % ENTRIES
      modifies `bitmap, `ram, `own
      ensures MarksOk(Abs(), own)
      ensures ok ==> Grown(m0, own0, ns0, Abs(), own, p, n + 1)
      ensures !ok ==> Grown(m0, own0, ns0, Abs(), own, p, n) && FreeFrames(bitmap) == {}
      ensures |FreeFrames(bitmap)| == |FreeFrames(old(bitmap))| - (if ok then 1 else 0)
    {
      hide Grown;
      hide Marked;
      hide SetMark;
      ghost var m := Abs();
      GrownShape(m0, own0, ns0, m, own, p, n);
      var addr := AllocPage();
      ram := ram[t := ram[t][j := addr]];
      if addr == 0 {
        GrowNothing(m0, own0, ns0, m, own, p, n, Abs());
        return false;
      }
      ghost var f := addr / PAGE_SIZE;
      TakeFrame(m.bitmap, f);
      ram := ram[t := ram[t][j := ram[t][j] + 0xFFE]];
      assert m.ram[t][j := addr][j := addr + 0xFFE] == m.ram[t][j := Pte(f)];
      assert PageAdded(m, own, p, n, f, Abs());
      GrowPage(m0, own0, ns0, m, own, p, n, f, Abs());
      MarksMore(m, own, f, Page(p, n), Abs());
      own := own[f := Page(p, n)];
      return true;
    }

    /** The clean-up of a failed allocuvm: the sz bytes mapped so far, from start on, are unmapped again. */
    method Undo(p: nat, start: nat, sz: nat, ghost m0: Mem, ghost ns0: seq<nat>, ghost n: nat)
      requires KeptAll(m0, Abs(), ns0) && p < NPROCS && ns0[p] <= n && Sound(Abs(), own, ns0[p := n]) && MarksBut(Abs(), own, p)
      requires start == BASE + ns0[p] * PAGE_SIZE && sz % PAGE_SIZE == 0 && n <= LIMIT
      requires if n == LIMIT then ns0[p] + sz / PAGE_SIZE >= n else ns0[p] + sz / PAGE_SIZE == n
      requires (n - ns0[p]) * PAGE_SIZE <= size[p]
      modifies this
      ensures Sound(Abs(), own, ns0) && KeptAll(m0, Abs(), ns0) && MarksBut(Abs(), own, p) && pgdir == old(pgdir)
      ensures size == if ns0[p] + sz / PAGE_SIZE <= LIMIT then old(size)[p := old(size)[p] - sz] else old(size)
      ensures Undone(old(Abs()), old(own), Abs(), own, p, ns0[p], n, false, 0)
    {
      hide Sound;
      hide Dropped;
      hide MarksBut;
      ghost var m1, own1, ns := Abs(), own, ns0[p := n];
      SoundLimits(m1, own1, ns);
      ClrPage(p, start, sz, ns);
      if sz > 0 {
        ghost var m2 := Abs().(size := m1.size);
        ShrinkBack(m0, ns0, m1, own1, p, n, m2, own);
        DroppedMarksBut(m1, own1, m2, own, ns, p, ns0[p], n);
        DroppedUndone(m1, own1, m2, own, ns, p, ns0[p], n);
        SizeAside(m0, m2, own, ns0, p, Abs());
      } else {
        assert ns == ns0;
        UndoneNone(m1, own1, p, n);
      }
    }

    /** The inner loop of allocuvm: entries from toff on mapped until plen pages are done or the table is full.
        left is what is still to do, failed the entry no frame was found for, or -1. */
    method FillTable(p: nat, tpos: nat, toff: nat, plen: nat, ghost m0: Mem, ghost own0: seq<Owner>, ghost ns0: seq<nat>, ghost n: nat)
      returns (left: nat, failed: int)
      requires Grown(m0, own0, ns0, Abs(), own, p, n) && MarksOk(Abs(), own) && Shape(Abs()) && p < NPROCS
      requires plen > 0 && tpos < TABLES && toff < ENTRIES && n == tpos * ENTRIES + toff && pgdir[p][2048 + tpos] != 0
      modifies `bitmap, `ram, `size, `own
      ensures left <= plen && Grown(m0, own0, ns0, Abs(), own, p, n + (plen - left)) && MarksOk(Abs(), own)
      ensures size == old(size)[p := old(size)[p] + (plen - left) * PAGE_SIZE]
      ensures failed == -1 ==> left == 0 || n + (plen - left) == (tpos + 1) * ENTRIES
      ensures failed != -1 ==> left > 0 && 0 <= failed < ENTRIES && n + (plen - left) == tpos * ENTRIES + failed
      ensures n + (plen - left) <= (tpos + 1) * ENTRIES
      ensures |FreeFrames(bitmap)| == |FreeFrames(old(bitmap))| - (plen - left) && (failed != -1 ==> FreeFrames(bitmap) == {})
    {
      hide Grown;
      hide MarksOk;
      hide FreeFrames;
      GrownTable(m0, own0, ns0, Abs(), own, p, n);
      var t := TableAt(pgdir[p][2048 + tpos]);
      left := plen;
      for j := toff to ENTRIES
        invariant 0 < left <= plen && tpos * ENTRIES + j == n + (plen - left)
        invariant Grown(m0, own0, ns0, Abs(), own, p, n + (plen - left)) && MarksOk(Abs(), own)
        invariant size == old(size)[p := old(size)[p] + (plen - left) * PAGE_SIZE]
        invariant |FreeFrames(bitmap)| == |FreeFrames(old(bitmap))| - (plen - left)
      {
        var ok := AddEntry(p, t, j, m0, own0, ns0, n + (plen - left));
        if !ok {
          return left, j;
        }
        ghost var m1 := Abs();
        size := size[p := size[p] + PAGE_SIZE];
        GrownShape(m0, own0, ns0, m1, own, p, n + (plen - left) + 1);
        GrownSize(m0, own0, ns0, m1, own, p, n + (plen - left) + 1, Abs());
        left := left - 1;
        if left == 0 {
          return 0, -1;
        }
      }
      return left, -1;
    }

    /** One turn of allocuvm's outer loop: failed is -1, the entry no frame was found for, or ENTRIES if there
        was none for the table itself. */
    method OneTable(p: nat, tpos: nat, toff: nat, plen: nat, ghost m0: Mem, ghost own0: seq<Owner>, ghost ns0: seq<nat>, ghost n: nat)
      returns (left: nat, failed: int)
      requires Grown(m0, own0, ns0, Abs(), own, p, n) && MarksOk(Abs(), own) && Shape(Abs()) && p < NPROCS
      requires plen > 0 && tpos < TABLES && toff < ENTRIES && n == tpos * ENTRIES + toff
      modifies this
      ensures left <= plen && Grown(m0, own0, ns0, Abs(), own, p, n + (plen - left)) && MarksOk(Abs(), own)
      ensures size == old(size)[p := old(size)[p] + (plen - left) * PAGE_SIZE]
      ensures failed == -1 ==> left == 0 || n + (plen - left) == (tpos + 1) * ENTRIES
      ensures failed != -1 ==> left > 0 && 0 <= failed <= ENTRIES && FreeFrames(bitmap) == {}
      ensures n + (plen - left) <= (tpos + 1) * ENTRIES
      ensures |pgdir| == NPROCS && forall i :: 2048 <= i < 4096 && i != 2048 + tpos ==> pgdir[p][i] == old(pgdir[p])[i]
      ensures failed == ENTRIES ==> left == plen && pgdir[p][2048 + tpos] == 0 == old(pgdir[p])[2048 + tpos]
      ensures failed != -1 && failed < ENTRIES ==>
                n + (plen - left) == tpos * ENTRIES + failed && FIRST <= TableAt(pgdir[p][2048 + tpos]) < FRAMES
      ensures failed < ENTRIES ==> pgdir[p][2048 + tpos] != 0
      ensures |FreeFrames(bitmap)| == |FreeFrames(old(bitmap))| - (plen - left)
                                      - (if failed < ENTRIES && old(pgdir[p])[2048 + tpos] == 0 then 1 else 0)
    {
      hide Grown;
      hide MarksOk;
      hide FreeFrames;
      if pgdir[p][2048 + tpos] == 0 {
        var ok := AddDir(p, tpos, m0, own0, ns0, n);
        GrownShape(m0, own0, ns0, Abs(), own, p, n);
        if !ok {
          return plen, ENTRIES;
        }
      }
      GrownTable(m0, own0, ns0, Abs(), own, p, n);
      left, failed := FillTable(p, tpos, toff, plen, m0, own0, ns0, n);
      GrownShape(m0, own0, ns0, Abs(), own, p, n + (plen - left));
    }

    /** allocuvm's exit when a frame was wanting. */
    method GiveUp(p: nat, tpos: nat, failed: nat, start: nat, sz: nat, ghost m0: Mem, ghost ns0: seq<nat>, ghost n: nat)
      requires KeptAll(m0, Abs(), ns0) && p < NPROCS && ns0[p] <= n && Sound(Abs(), own, ns0[p := n]) && MarksBut(Abs(), own, p)
      requires start == BASE + ns0[p] * PAGE_SIZE && sz % PAGE_SIZE == 0 && n < LIMIT && ns0[p] + sz / PAGE_SIZE == n
      requires sz <= size[p] && tpos < TABLES
      requires failed < ENTRIES ==> pgdir[p][2048 + tpos] != 0 && FIRST <= TableAt(pgdir[p][2048 + tpos]) < FRAMES
      modifies this
      ensures Sound(Abs(), own, ns0) && KeptAll(m0, Abs(), ns0) && MarksBut(Abs(), own, p) && pgdir == old(pgdir)
      ensures size == old(size)[p := old(size)[p] - sz] && |pgdir| == NPROCS
      ensures var t := TableAt(pgdir[p][2048 + tpos]);
              Undone(old(Abs()), old(own), Abs(), own, p, ns0[p], n, failed == 0 && t <= LAST, t)
    {
      hide Sound;
      hide MarksBut;
      hide KeptAll;
      hide Undone;
      ghost var m1, own1 := Abs(), own;
      KeptShape(m0, m1, ns0);
      if failed == 0 {
        DallocPage(TableAt(pgdir[p][2048 + tpos]) * PAGE_SIZE);
        ghost var m2 := Abs();
        Unmarked(m0, ns0, m1, own, p, n, tpos, m2);
        Undo(p, start, sz, m0, ns0, n);
        UndoneLost(m1, m2, own1, Abs(), own, p, ns0[p], n, TableAt(pgdir[p][2048 + tpos]));
      } else {
        Undo(p, start, sz, m0, ns0, n);
        UndoneKept(m1, own1, Abs(), own, p, ns0[p], n, TableAt(pgdir[p][2048 + tpos]));
      }
    }

    static lemma KeptShape(m0: Mem, m: Mem, ns: seq<nat>)
      requires KeptAll(m0, m, ns)
      ensures Shape(m0) && Shape(m) && |ns| == NPROCS
    {
    }

    /** allocuvm's exit when a frame was wanting for page at or for its table. */
    method NoFrame(p: nat, tpos: nat, failed: nat, start: nat, sz: nat, ghost m0: Mem, ghost own0: seq<Owner>, ghost ns0: seq<nat>, ghost at: nat)
      requires Shape(m0) && ns0 == PagesOf(m0) && Grown(m0, own0, ns0, Abs(), own, p, at) && MarksOk(Abs(), own)
      requires Shape(Abs()) && p < NPROCS && tpos < TABLES && at < LIMIT && failed <= ENTRIES && tpos == at / ENTRIES && ns0[p] <= at
      requires start == BASE + ns0[p] * PAGE_SIZE && sz == (at - ns0[p]) * PAGE_SIZE <= size[p]
      requires if failed < ENTRIES then failed == at % ENTRIES && pgdir[p][2048 + tpos] != 0 else pgdir[p][2048 + tpos] == 0
      requires Needs(m0.pgdir[p], ns0[p], at) <= |FreeFrames(m0.bitmap)| < Needs(m0.pgdir[p], ns0[p], at + 1)
      requires failed < ENTRIES <==> |FreeFrames(m0.bitmap)| + 1 == Needs(m0.pgdir[p], ns0[p], at + 1)
      modifies this
      ensures AfterFailure(m0, own0, Abs(), own, p, at) && size == old(size)[p := old(size)[p] - sz]
    {
      hide Sound;
      hide Grown;
      hide MarksOk;
      hide MarksBut;
      hide KeptAll;
      hide PagesOf;
      hide FreeFrames;
      hide Needs;
      hide Undone;
      hide AfterFailure;
      ghost var m1, own1 := Abs(), own;
      GrownKept(m0, own0, ns0, m1, own1, p, at);
      if failed < ENTRIES { GrownTable(m0, own0, ns0, m1, own1, p, at); }
      GiveUp(p, tpos, failed, start, sz, m0, ns0, at);
      KeptShape(m0, Abs(), ns0);
      Failure(m0, own0, ns0, m1, own1, p, at, Abs(), own, failed == 0 && TableAt(pgdir[p][2048 + tpos]) <= LAST,
              TableAt(pgdir[p][2048 + tpos]));
    }

    /** allocuvm's exit at the end of the address space. */
    method NoAddress(p: nat, start: nat, sz: nat, ghost m0: Mem, ghost own0: seq<Owner>, ghost ns0: seq<nat>)
      requires Shape(m0) && ns0 == PagesOf(m0) && Grown(m0, own0, ns0, Abs(), own, p, LIMIT) && MarksOk(Abs(), own)
      requires Shape(Abs()) && p < NPROCS && start == BASE + ns0[p] * PAGE_SIZE && sz % PAGE_SIZE == 0
      requires ns0[p] <= LIMIT <= ns0[p] + sz / PAGE_SIZE && (LIMIT - ns0[p]) * PAGE_SIZE <= size[p]
      modifies this
      ensures AfterFailure(m0, own0, Abs(), own, p, LIMIT)
    {
      hide Sound;
      hide Grown;
      hide MarksOk;
      hide MarksBut;
      hide KeptAll;
      hide PagesOf;
      hide FreeFrames;
      hide Needs;
      hide Undone;
      hide AfterFailure;
      ghost var m1, own1 := Abs(), own;
      GrownKept(m0, own0, ns0, m1, own1, p, LIMIT);
      Undo(p, start, sz, m0, ns0, LIMIT);
      KeptShape(m0, Abs(), ns0);
      Failure(m0, own0, ns0, m1, own1, p, LIMIT, Abs(), own, false, 0);
    }

    /** One turn of allocuvm's outer loop, and what it took from the free frames. */
    method Turn(p: nat, tpos: nat, toff: nat, plen: nat, ghost m0: Mem, ghost own0: seq<Owner>, ghost ns0: seq<nat>, ghost n: nat)
      returns (left: nat, failed: int)
      requires Growing(m0, own0, ns0, Abs(), own, p, tpos, n) && p < |ns0|
      requires plen > 0 && tpos < TABLES && toff < ENTRIES && n == tpos * ENTRIES + toff && (toff > 0 ==> n == ns0[p])
      modifies this
      ensures left <= plen
      ensures var at := n + (plen - left);
              if failed == -1 then
                && Growing(m0, own0, ns0, Abs(), own, p, tpos + 1, at)
                && (if left == 0 then tpos * ENTRIES < at <= (tpos + 1) * ENTRIES else at == (tpos + 1) * ENTRIES)
              else
                && 0 <= failed <= ENTRIES && left > 0 && at < LIMIT && ns0[p] <= at && tpos == at / ENTRIES
                && Shape(m0) && Shape(Abs()) && p < NPROCS && Grown(m0, own0, ns0, Abs(), own, p, at) && MarksOk(Abs(), own)
                && size == m0.size[p := m0.size[p] + (at - ns0[p]) * PAGE_SIZE]
                && (if failed < ENTRIES then failed == at % ENTRIES && pgdir[p][2048 + tpos] != 0 else pgdir[p][2048 + tpos] == 0)
                && Needs(m0.pgdir[p], ns0[p], at) <= |FreeFrames(m0.bitmap)| < Needs(m0.pgdir[p], ns0[p], at + 1)
                && (failed < ENTRIES <==> |FreeFrames(m0.bitmap)| + 1 == Needs(m0.pgdir[p], ns0[p], at + 1))
    {
      hide Sound;
      hide Grown;
      hide MarksOk;
      hide FreeFrames;
      hide NullTables;
      hide Needs;
      ghost var a, free0 := ns0[p], |FreeFrames(m0.bitmap)|;
      left, failed := OneTable(p, tpos, toff, plen, m0, own0, ns0, n);
      NullTablesNext(m0.pgdir[p], a / ENTRIES, tpos);
      GrownShape(m0, own0, ns0, Abs(), own, p, n + (plen - left));
      if failed != -1 {
        NeedsAt(m0.pgdir[p], a, n + (plen - left), tpos, failed < ENTRIES, free0);
      }
    }

    /** allocuvm(proc, size): the address of the new memory, or 0. When it fails, at is the first page for which,
        its table included, there was no frame left, or LIMIT if there were no addresses left. */
    method AllocUvm(p: nat, sz: nat) returns (start: nat, ghost at: nat)
      requires Valid() && p < NPROCS
      modifies this
      ensures start != 0 ==> Valid() && start == BASE + old(size[p]) && size == old(size)[p := old(size[p]) + RoundUp(sz)]
      ensures start != 0 ==> Grown(old(Abs()), old(own), PagesOf(old(Abs())), Abs(), own, p, (old(size[p]) + RoundUp(sz)) / PAGE_SIZE)
      ensures var a, n := old(size[p]) / PAGE_SIZE, (old(size[p]) + RoundUp(sz)) / PAGE_SIZE;
              start != 0 <==> sz > 0 && n <= LIMIT && Needs(old(pgdir[p]), a, n) <= |FreeFrames(old(bitmap))|
      ensures start == 0 ==> AfterFailure(old(Abs()), old(own), Abs(), own, p, at)
      ensures start == 0 && sz == 0 ==> Abs() == old(Abs()) && own == old(own) && at == LIMIT
      ensures start == 0 && at < LIMIT ==> at < (old(size[p]) + RoundUp(sz)) / PAGE_SIZE && size == old(size)
      ensures start == 0 && at == LIMIT && sz > 0 ==> (old(size[p]) + RoundUp(sz)) / PAGE_SIZE > LIMIT
    {
      hide Sound;
      hide Grown;
      hide MarksOk;
      hide MarksBut;
      hide KeptAll;
      hide PagesOf;
      hide RoundUp;
      hide FreeFrames;
      hide NullTables;
      hide Needs;
      hide Undone;
      hide AfterFailure;
      hide Growing;
      ghost var m0, own0, ns0 := Abs(), own, PagesOf(Abs());
      ghost var a := ns0[p];
      GrownNone(m0, own0, ns0, p);
      if sz == 0 {
        FailureNone(m0, own0, ns0, p);
        return 0, LIMIT;
      }
      var size1 := RoundUp(sz);
      var nplen := size1 / PAGE_SIZE;
      var plen: nat := nplen;
      var tpos: nat, toff: nat := size[p] / 0x10_0000, size[p] % 0x10_0000 / PAGE_SIZE;
      var startAddr := BASE + tpos * 0x10_0000 + PAGE_SIZE * toff;
      GrowingNone(m0, own0, ns0, p, tpos);
      while true
        invariant 0 < plen <= nplen && tpos <= TABLES && 0 <= toff < ENTRIES && (toff > 0 ==> plen == nplen)
        invariant tpos * ENTRIES + toff == a + (nplen - plen)
        invariant Growing(m0, own0, ns0, Abs(), own, p, tpos, a + (nplen - plen))
        decreases TABLES - tpos
      {
        at := a + (nplen - plen);
        if tpos == TABLES {
          GrowingFacts(m0, own0, ns0, Abs(), own, p, tpos, at);
          NoAddress(p, startAddr, nplen * PAGE_SIZE, m0, own0, ns0);
          return 0, LIMIT;
        }
        var failed: int;
        plen, failed := Turn(p, tpos, toff, plen, m0, own0, ns0, at);
        at := a + (nplen - plen);
        if failed != -1 {
          NeedsMost(m0.pgdir[p], a, at, a + nplen);
          NoFrame(p, tpos, failed, startAddr, (nplen - plen) * PAGE_SIZE, m0, own0, ns0, at);
          return 0, at;
        }
        if plen == 0 {
          GrowingFacts(m0, own0, ns0, Abs(), own, p, tpos + 1, at);
          GrownPages(m0, own0, Abs(), own, p, a + nplen);
          NeedsAll(m0.pgdir[p], a, a + nplen, tpos);
          return startAddr, at;
        }
        toff, tpos := 0, tpos + 1;
      }
    }

    /** The clrpage of a shrinking ksbrk: everything from address start to the end. */
    method Shrink(p: nat, start: nat, sz: nat)
      requires Valid() && p < NPROCS && start >= BASE && sz > 0 && sz % PAGE_SIZE == 0 && start + sz == BASE + size[p]
      modifies this
      ensures Valid() && size == old(size)[p := old(size[p]) - sz]
      ensures Dropped(old(Abs()), old(own), Abs().(size := old(size)), own, PagesOf(old(Abs())), p,
                      (old(size[p]) - sz) / PAGE_SIZE, old(size[p]) / PAGE_SIZE)
    {
      hide Sound;
      hide Dropped;
      hide MarksOk;
      hide PagesOf;
      ghost var m0, own0, ns := Abs(), own, PagesOf(Abs());
      SoundLimits(m0, own0, ns);
      assert RoundUp(sz) == sz;
      ClrPage(p, start, sz, ns);
      DroppedDirs(m0, own0, Abs().(size := m0.size), own, ns, p, (start - BASE) / PAGE_SIZE, ns[p]);
      ShrunkPages(m0, own0, Abs(), own, p, (start - BASE) / PAGE_SIZE);
    }

    /** ksbrk(increment) for process p: the old end of its memory, or -1; at as for allocuvm */
    method KSbrk(p: nat, increment: int) returns (r: int, ghost at: nat)
      requires Valid() && p < NPROCS && -BASE < increment && BASE <= brkStart[p]
      modifies this
      ensures increment == 0 ==> r == BASE + old(size[p]) && Abs() == old(Abs()) && own == old(own)
      ensures increment > 0 && r != -1 ==>
                && Valid() && r == BASE + old(size[p]) && size == old(size)[p := old(size[p]) + RoundUp(increment)]
                && Grown(old(Abs()), old(own), PagesOf(old(Abs())), Abs(), own, p, (old(size[p]) + RoundUp(increment)) / PAGE_SIZE)
      ensures increment > 0 ==>
                var a, n := old(size[p]) / PAGE_SIZE, (old(size[p]) + RoundUp(increment)) / PAGE_SIZE;
                r != -1 <==> n <= LIMIT && Needs(old(pgdir[p]), a, n) <= |FreeFrames(old(bitmap))|
      ensures increment > 0 && r == -1 ==>
                && AfterFailure(old(Abs()), old(own), Abs(), own, p, at)
                && (at < LIMIT ==> at < (old(size[p]) + RoundUp(increment)) / PAGE_SIZE && size == old(size))
                && (at == LIMIT ==> (old(size[p]) + RoundUp(increment)) / PAGE_SIZE > LIMIT)
      ensures increment < 0 && BASE + old(size[p]) - RoundUp(-increment) < brkStart[p] ==> r == -1 && Abs() == old(Abs()) && own == old(own)
      ensures increment < 0 && BASE + old(size[p]) - RoundUp(-increment) >= brkStart[p] ==>
                && Valid() && r == BASE + old(size[p]) && size == old(size)[p := old(size[p]) - RoundUp(-increment)]
                && Dropped(old(Abs()), old(own), Abs().(size := old(size)), own, PagesOf(old(Abs())), p,
                           (old(size[p]) - RoundUp(-increment)) / PAGE_SIZE, old(size[p]) / PAGE_SIZE)
    {
      hide Sound;
      hide Grown;
      hide Dropped;
      hide MarksOk;
      hide PagesOf;
      hide RoundUp;
      hide AfterFailure;
      hide Needs;
      hide FreeFrames;
      at := LIMIT;
      var pos, off := size[p] / 0x10_0000, size[p] % 0x10_0000 / PAGE_SIZE;
      var startAddr := BASE + pos * 0x10_0000 + PAGE_SIZE * off;
      if increment == 0 {
        return startAddr, at;
      }
      if increment > 0 {
        var a;
        a, at := AllocUvm(p, increment);
        if a == 0 {
          return -1, at;
        }
        return startAddr, at;
      }
      var delsize := RoundUp(-increment);
      var delstart := startAddr - delsize;
      if delstart < brkStart[p] {
        return -1, at;
      }
      Shrink(p, delstart, delsize);
      return startAddr, at;
    }

    /** ksbrk(n) and then ksbrk(-n), m1 and own1 being what lies between: sizes, all pages of everybody and the
        bitmap are back, except that the tables that were added stay, and pages in frames dalloc_page refuses. */
    method GrowAndShrink(p: nat, n: int) returns (r: int, ghost m1: Mem, ghost own1: seq<Owner>)
      requires Valid() && p < NPROCS && 0 < n < BASE && BASE <= brkStart[p] <= BASE + size[p]
      modifies this
      ensures r != -1 ==> Valid() && size == old(size) && KeptAll(old(Abs()), Abs(), PagesOf(old(Abs())))
      ensures r != -1 ==> Grown(old(Abs()), old(own), PagesOf(old(Abs())), m1, own1, p, (old(size[p]) + RoundUp(n)) / PAGE_SIZE)
      ensures r != -1 ==> |own1| == FRAMES && forall f :: 0 <= f < FRAMES ==>
                (Marked(bitmap, f) <==> Marked(old(bitmap), f) || (own1[f] != old(own)[f] && (own1[f].Table? || f > LAST)))
      ensures r != -1 ==> OnlyTables(old(Abs()), old(own), own, p)
      ensures r != -1 ==> forall f :: 0 <= f < FRAMES && own1[f] != old(own)[f] && own1[f].Table? ==> own[f] == own1[f]
    {
      hide Sound;
      hide Grown;
      hide Dropped;
      hide MarksOk;
      hide KeptAll;
      hide Marked;
      hide Needs;
      hide FreeFrames;
      hide AfterFailure;
      hide OnlyTables;
      ghost var m0, own0, ns0 := Abs(), own, PagesOf(Abs());
      ghost var at;
      r, at := KSbrk(p, n);
      m1, own1 := Abs(), own;
      if r == -1 {
        return;
      }
      ghost var top := (m0.size[p] + RoundUp(n)) / PAGE_SIZE;
      GrownPages(m0, own0, m1, own1, p, top);
      var r2;
      r2, at := KSbrk(p, -n);
      ghost var m2 := Abs().(size := m1.size);
      GrowThenShrink(m0, own0, ns0, m1, own1, p, top, m2, own);
      ThereAndBack(m0, own0, ns0, m1, own1, p, top, m2, own);
      SizeAlone(m0, m2, ns0, Abs());
    }

    /** copyuvm's step for the table of page n: the child's directory word filled in, or false. */
    method CopyDir(d: nat, tpos: nat, ghost m0: Mem, ghost own0: seq<Owner>, ghost ns: seq<nat>, ghost s: nat, ghost n: nat)
      returns (ok: bool)
      requires Copied(m0, own0, ns, Abs(), own, s, d, n) && MarksOk(Abs(), own) && n < LIMIT
      requires tpos == 2048 + n / ENTRIES && pgdir[d][tpos] == 0
      modifies `bitmap, `pgdir, `own
      ensures Copied(m0, own0, ns, Abs(), own, s, d, n) && MarksOk(Abs(), own)
      ensures |pgdir| == NPROCS && (ok <==> pgdir[d][tpos] != 0)
      ensures forall i :: 0 <= i < 4096 && i != tpos ==> pgdir[d][i] == old(pgdir[d])[i]
      ensures |FreeFrames(bitmap)| == |FreeFrames(old(bitmap))| - (if ok then 1 else 0) && (!ok ==> FreeFrames(bitmap) == {})
    {
      hide Copied;
      hide Marked;
      hide SetMark;
      ghost var m := Abs();
      CopiedShape(m0, own0, ns, m, own, s, d, n);
      var addr := AllocPage();
      if addr == 0 {
        return false;
      }
      ghost var t := addr / PAGE_SIZE;
      TakeFrame(m.bitmap, t);
      pgdir := pgdir[d := pgdir[d][tpos := addr + 0x31]];
      assert TableAdded(m, own, d, tpos - 2048, t, Abs());
      CopyTable(m0, own0, ns, m, own, s, d, n, t, Abs());
      MarksMore(m, own, t, Table(d, tpos - 2048), Abs());
      own := own[t := Table(d, tpos - 2048)];
      return true;
    }

    /** The body of copyuvm's inner loop for entry j of the two tables, page n: false if no frame is left. */
    method CopyEntry(d: nat, dt: nat, st: nat, j: nat, ghost m0: Mem, ghost own0: seq<Owner>, ghost ns: seq<nat>,
                     ghost s: nat, ghost n: nat)
      returns (ok: bool)
      requires Shape(m0) && s < NPROCS && n < LIMIT
      requires Copied(m0, own0, ns, Abs(), own, s, d, n) && MarksOk(Abs(), own) && n < ns[s]
      requires pgdir[d][2048 + n / ENTRIES] != 0 && dt == TableAt(pgdir[d][2048 + n / ENTRIES]) && dt < FRAMES
      requires st == TableAt(pgdir[s][2048 + n / ENTRIES]) && st < FRAMES && j == n % ENTRIES
      modifies `bitmap, `ram, `own
      ensures ok ==> Copied(m0, own0, ns, Abs(), own, s, d, n + 1) && MarksOk(Abs(), own)
      ensures ok ==> |FreeFrames(bitmap)| == |FreeFrames(old(bitmap))| - (if Word(m0, s, n) != 0 then 1 else 0)
      ensures !ok ==> FreeFrames(bitmap) == {} == FreeFrames(old(bitmap)) && Word(m0, s, n) != 0
    {
      hide Copied;
      hide Marked;
      hide SetMark;
      ghost var m := Abs();
      CopiedShape(m0, own0, ns, m, own, s, d, n);
      CopiedSource(m0, own0, ns, m, own, s, d, n);
      SourceEntry(m, s, n);
      if ram[st][j] == 0 {
        ram := ram[dt := ram[dt][j := 0]];
        CopyGuard(m0, own0, ns, m, own, s, d, n, Abs());
        return true;
      }
      var addr := AllocPage();
      ram := ram[dt := ram[dt][j := addr]];
      if addr == 0 {
        return false;
      }
      ghost var f := addr / PAGE_SIZE;
      TakeFrame(m.bitmap, f);
      ram := ram[dt := ram[dt][j := ram[dt][j] + 0xFFE]];
      assert m.ram[dt][j := addr][j := addr + 0xFFE] == m.ram[dt][j := Pte(f)];
      ghost var m1 := Abs();
      assert PageAdded(m, own, d, n, f, m1);
      CopySlots(m0, own0, ns, m, own, s, d, n, f, m1);
      ram := ram[FrameAt(ram[dt][j]) := ram[FrameAt(ram[st][j])]];
      CopyPage(m0, own0, ns, m, own, s, d, n, f, m1, Abs());
      MarksMore(m, own, f, Page(d, n), Abs());
      own := own[f := Page(d, n)];
      return true;
    }

    /** The inner loop of copyuvm over the entries of table tpos; left is what remains to be copied. */
    method CopyEntries(d: nat, s: nat, tpos: nat, plen: nat, ghost m0: Mem, ghost own0: seq<Owner>, ghost ns: seq<nat>, ghost g: nat)
      returns (left: nat, ok: bool)
      requires 2048 <= tpos < 4096 && plen > 0 && Copied(m0, own0, ns, Abs(), own, s, d, Index(tpos, 0)) && MarksOk(Abs(), own)
      requires Index(tpos, 0) < ns[s] && plen == Unmapped(ns[s], g, Index(tpos, 0)) && g + 1 < ns[s] && pgdir[d][tpos] != 0
      requires forall k :: 0 <= k < ns[s] ==> k < LIMIT && (Word(m0, s, k) == 0 <==> k == g)
      modifies `bitmap, `ram, `own
      ensures ok && left == 0 ==> Copied(m0, own0, ns, Abs(), own, s, d, ns[s]) && MarksOk(Abs(), own)
      ensures ok && left > 0 ==>
                && Copied(m0, own0, ns, Abs(), own, s, d, Index(tpos + 1, 0)) && MarksOk(Abs(), own)
                && Index(tpos + 1, 0) < ns[s] && left == Unmapped(ns[s], g, Index(tpos + 1, 0))
      ensures left <= plen && |FreeFrames(bitmap)| == |FreeFrames(old(bitmap))| - (plen - left)
      ensures ok && left == 0 ==> ns[s] <= Index(tpos + 1, 0)
      ensures !ok ==> left > 0 && FreeFrames(bitmap) == {}
    {
      hide Copied;
      hide Sound;
      hide MarksOk;
      hide Word;
      hide FreeFrames;
      CopiedSource(m0, own0, ns, Abs(), own, s, d, Index(tpos, 0));
      CopiedTables(m0, own0, ns, Abs(), own, s, d, Index(tpos, 0));
      var st, dt := TableAt(pgdir[s][tpos]), TableAt(pgdir[d][tpos]);
      left := plen;
      for j := 0 to ENTRIES
        invariant Index(tpos, j) < ns[s] && plen >= left > 0 && left == Unmapped(ns[s], g, Index(tpos, j))
        invariant |FreeFrames(bitmap)| == |FreeFrames(old(bitmap))| - (plen - left)
        invariant Copied(m0, own0, ns, Abs(), own, s, d, Index(tpos, j)) && MarksOk(Abs(), own)
      {
        ghost var n := Index(tpos, j);
        assert n / ENTRIES == tpos - 2048 && n % ENTRIES == j;
        CopiedSource(m0, own0, ns, Abs(), own, s, d, n);
        SourceEntry(Abs(), s, n);
        var mapped := ram[st][j] != 0;
        ok := CopyEntry(d, dt, st, j, m0, own0, ns, s, n);
        if !ok {
          return left, false;
        }
        if mapped {
          left := left - 1;
          if left == 0 {
            return 0, true;
          }
        }
      }
      return left, true;
    }

    static lemma SourceEntry(m: Mem, s: nat, n: nat)
      requires Shape(m) && s < NPROCS && n < LIMIT && TableAt(m.pgdir[s][2048 + n / ENTRIES]) < FRAMES
      ensures Word(m, s, n) == m.ram[TableAt(m.pgdir[s][2048 + n / ENTRIES])][n % ENTRIES]
    {
    }

    /** copyuvm(d_proc, s_proc), for a parent with the one guard page g, below its last page, and a child with
        no memory: it succeeds if there is a frame for each mapped page and each table; what happens to the
        child when frames run out is left open */
    method CopyUvm(d: nat, s: nat, ghost g: nat) returns (ok: bool)
      requires Valid() && d < NPROCS && s < NPROCS && d != s && size[d] == 0 && (forall i :: 2048 <= i < 4096 ==> pgdir[d][i] == 0)
      requires OneGuard(Abs(), s, g)
      modifies this
      ensures ok ==> Valid() && size == old(size)[d := old(size[s])]
      ensures ok ==> Copied(old(Abs()), old(own), PagesOf(old(Abs())), Abs().(size := old(size)), own, s, d, old(size[s]) / PAGE_SIZE)
      ensures var n := old(size[s]) / PAGE_SIZE;
              ok <==> (n - 1) + ((n - 1) / ENTRIES + 1) <= |FreeFrames(old(bitmap))|
    {
      hide FreeFrames;
      hide Copied;
      hide Sound;
      hide MarksOk;
      ghost var m0, own0, ns := Abs(), own, PagesOf(Abs());
      var plen := size[s] / PAGE_SIZE;
      plen := plen - 1;
      var tpos := 2048;
      CopiedNone(m0, own0, ns, s, d);
      while true
        invariant 2048 <= tpos && Index(tpos, 0) < ns[s] && plen > 0 && plen == Unmapped(ns[s], g, Index(tpos, 0))
        invariant Copied(m0, own0, ns, Abs(), own, s, d, Index(tpos, 0)) && MarksOk(Abs(), own) && size == m0.size
        invariant |FreeFrames(bitmap)| == |FreeFrames(m0.bitmap)| - (ns[s] - 1 - plen) - (tpos - 2048)
        invariant |pgdir| == NPROCS && forall i :: tpos <= i < 4096 ==> pgdir[d][i] == 0
        decreases 4096 - tpos
      {
        CopiedSource(m0, own0, ns, Abs(), own, s, d, Index(tpos, 0));
        ok := CopyDir(d, tpos, m0, own0, ns, s, Index(tpos, 0));
        if !ok {
          return false;
        }
        CopiedSource(m0, own0, ns, Abs(), own, s, d, Index(tpos, 0));
        CopiedTables(m0, own0, ns, Abs(), own, s, d, Index(tpos, 0));
        plen, ok := CopyEntries(d, s, tpos, plen, m0, own0, ns, g);
        if !ok {
          return false;
        }
        if plen == 0 {
          size := size[d := size[s]];
          CopiedPages(m0, own0, Abs().(size := m0.size), own, s, d, Abs());
          return true;
        }
        tpos := tpos + 1;
      }
    }
  }

  /** What a failed allocuvm leaves: every page of everybody as it was, and nothing newly owned but tables of p.
      What is owned is marked, unless the page no frame was left for was the first of a table that is there and
      whose frame dalloc_page accepts: that table is free in the bitmap though it is still in use. */
  ghost predicate AfterFailure(m0: Mem, own0: seq<Owner>, m: Mem, own: seq<Owner>, p: nat, at: nat) {
    && Shape(m0) && Shape(m) && p < NPROCS && at <= LIMIT
    && Sound(m, own, PagesOf(m0)) && KeptAll(m0, m, PagesOf(m0)) && MarksBut(m, own, p) && OnlyTables(m0, own0, own, p)
    && (MarksOk(m, own) <==> !(at < LIMIT && FreesTable(m, p, at)))
    && (at < LIMIT ==>
          var a, free := PagesOf(m0)[p], |FreeFrames(m0.bitmap)|;
          && a <= at && Needs(m0.pgdir[p], a, at) <= free < Needs(m0.pgdir[p], a, at + 1)
          && (m.pgdir[p][2048 + at / ENTRIES] != 0 <==> free + 1 == Needs(m0.pgdir[p], a, at + 1)))
  }

  /** A run that ends so: one frame is left, and a process without memory asks for a page. Its page table, in
      the directory, is in a frame the bitmap has as free. */
  method TableLost(ram: seq<Frame>, brkStart: seq<nat>) returns (mem: Memory, start: nat)
    requires |ram| == FRAMES && |brkStart| == NPROCS
    ensures start == 0 && |mem.pgdir| == NPROCS
    ensures mem.pgdir[0][2048] == Pde(FIRST) && !Marked(mem.bitmap, FIRST)
  {
    hide Sound;
    hide Grown;
    hide KeptAll;
    mem := new Memory(ram, brkStart);
    ghost var m := mem.Abs();
    mem.bitmap := seq(MAP_LEN, i => if i == FIRST / 8 then 254 else 255);
    OneLeft(mem.bitmap);
    BitmapAside(m, mem.own, PagesOf(m), mem.Abs());
    ghost var m0 := mem.Abs();
    assert PagesOf(m0) == PagesOf(m);
    OneMissing(m0.pgdir[0]);
    ghost var at;
    ghost var own0 := mem.own;
    start, at := mem.AllocUvm(0, PAGE_SIZE);
    TableThere(mem.Abs(), mem.own, PagesOf(m0), 0);
    SoleTable(m0, own0, mem.Abs(), mem.own);
  }

  /** Whatever is newly owned is in the one frame that was free. */
  lemma SoleTable(m0: Mem, own0: seq<Owner>, m: Mem, own: seq<Owner>)
    requires OnlyTables(m0, own0, own, 0) && FreeFrames(m0.bitmap) == {FIRST}
    requires (forall f :: 0 <= f < FRAMES ==> own0[f] == Free) && forall f :: 0 <= f < FRAMES && own[f] != Free ==> FIRST <= f
    ensures MarksOk(m, own) || !Marked(m.bitmap, FIRST)
    ensures forall f :: 0 <= f < FRAMES && own[f] != Free ==> f == FIRST
  {
    hide Marked;
    forall f | 0 <= f < FRAMES && own[f] != Free ensures f == FIRST {
      assert f in FreeFrames(m0.bitmap);
    }
  }

  lemma {:induction false} ZeroBit(k: nat)
    ensures !Bit(0, k)
  {
    if k > 0 {
      ZeroBit(k - 1);
    }
  }

  lemma OneLeft(b: RamMap)
    requires b == seq(MAP_LEN, i => if i == FIRST / 8 then 254 else 255)
    ensures FreeFrames(b) == {FIRST}
  {
    assert Bit(255, 0) && Bit(255, 1) && Bit(255, 2) && Bit(255, 3) && Bit(255, 4) && Bit(255, 5) && Bit(255, 6) && Bit(255, 7);
    assert !Bit(254, 0) && Bit(254, 1) && Bit(254, 2) && Bit(254, 3) && Bit(254, 4) && Bit(254, 5) && Bit(254, 6) && Bit(254, 7);
    hide Bit;
    forall f | 0 <= f < FRAMES ensures Marked(b, f) <==> f != FIRST {
      assert f / 8 == FIRST / 8 && f % 8 == 0 <==> f == FIRST;
    }
  }

  lemma OneMissing(dir: PageDir)
    requires dir[2048] == 0
    ensures Needs(dir, 0, 1) == 2
  {
    assert NullTables(dir, 0, 1) == NullTables(dir, 0, 0) + 1;
  }

  lemma TableThere(m: Mem, own: seq<Owner>, ns: seq<nat>, p: nat)
    requires Sound(m, own, ns) && p < NPROCS
    ensures Shape(m) && |own| == FRAMES && forall f :: 0 <= f < FRAMES && own[f] != Free ==> FIRST <= f
    ensures var w := m.pgdir[p][2048]; w != 0 ==> FIRST <= TableAt(w) < FRAMES && w == Pde(TableAt(w)) && own[TableAt(w)] == Table(p, 0)
  {
    SpaceAt(m, own, ns, p);
    assert TableOk(m, own, p, 0);
  }

  predicate FreesTable(m: Mem, p: nat, at: nat)
    requires Shape(m) && p < NPROCS && at < LIMIT
  {
    var w := m.pgdir[p][2048 + at / ENTRIES];
    at % ENTRIES == 0 && w != 0 && TableAt(w) <= LAST
  }

  lemma Failure(m0: Mem, own0: seq<Owner>, ns0: seq<nat>, m1: Mem, own1: seq<Owner>, p: nat, at: nat,
                m2: Mem, own2: seq<Owner>, lost: bool, t: nat)
    requires Shape(m0) && ns0 == PagesOf(m0) && Grown(m0, own0, ns0, m1, own1, p, at) && MarksOk(m1, own1)
    requires Undone(m1, own1, m2, own2, p, ns0[p], at, lost, t) && (lost ==> t < FRAMES && own1[t].Table?)
    requires Sound(m2, own2, ns0) && KeptAll(m0, m2, ns0) && MarksBut(m2, own2, p)
    requires Shape(m2) && p < NPROCS && at <= LIMIT && (lost <==> at < LIMIT && FreesTable(m2, p, at))
    requires at < LIMIT ==>
               var free := |FreeFrames(m0.bitmap)|;
               && ns0[p] <= at && Needs(m0.pgdir[p], ns0[p], at) <= free < Needs(m0.pgdir[p], ns0[p], at + 1)
               && (m2.pgdir[p][2048 + at / ENTRIES] != 0 <==> free + 1 == Needs(m0.pgdir[p], ns0[p], at + 1))
    ensures AfterFailure(m0, own0, m2, own2, p, at)
  {
    hide Sound;
    hide Grown;
    hide KeptAll;
    hide MarksOk;
    hide MarksBut;
    hide PagesOf;
    hide Undone;
    hide FreeFrames;
    UndoneMeans(m0, own0, ns0, m1, own1, p, at, m2, own2, lost, t);
  }

  /** At the head of allocuvm's outer loop: p has the pages ns0[p]..n, the tables from tpos on are untouched,
      and the frames taken are one for each page and one for each table that was missing. */
  ghost predicate Growing(m0: Mem, own0: seq<Owner>, ns0: seq<nat>, m: Mem, own: seq<Owner>, p: nat, tpos: nat, n: nat) {
    && Shape(m0) && Shape(m) && p < NPROCS && |ns0| == NPROCS && ns0[p] <= n <= LIMIT && ns0[p] / ENTRIES <= tpos <= TABLES
    && Grown(m0, own0, ns0, m, own, p, n) && MarksOk(m, own)
    && m.size == m0.size[p := m0.size[p] + (n - ns0[p]) * PAGE_SIZE]
    && (forall i :: 2048 + tpos <= i < 4096 ==> m.pgdir[p][i] == m0.pgdir[p][i])
    && |FreeFrames(m.bitmap)| == |FreeFrames(m0.bitmap)| - (n - ns0[p]) - NullTables(m0.pgdir[p], ns0[p] / ENTRIES, tpos)
  }

  lemma GrowingFacts(m0: Mem, own0: seq<Owner>, ns0: seq<nat>, m: Mem, own: seq<Owner>, p: nat, tpos: nat, n: nat)
    requires Growing(m0, own0, ns0, m, own, p, tpos, n)
    ensures Shape(m0) && Shape(m) && p < NPROCS && |ns0| == NPROCS && ns0[p] <= n <= LIMIT
    ensures Grown(m0, own0, ns0, m, own, p, n) && MarksOk(m, own)
    ensures m.size == m0.size[p := m0.size[p] + (n - ns0[p]) * PAGE_SIZE]
    ensures tpos <= TABLES && n - ns0[p] + NullTables(m0.pgdir[p], ns0[p] / ENTRIES, tpos) <= |FreeFrames(m0.bitmap)|
  {
    hide Grown;
    hide MarksOk;
    hide FreeFrames;
    hide NullTables;
  }

  lemma GrowingNone(m: Mem, own: seq<Owner>, ns: seq<nat>, p: nat, tpos: nat)
    requires Shape(m) && p < NPROCS && |ns| == NPROCS && Grown(m, own, ns, m, own, p, ns[p]) && MarksOk(m, own) && tpos == ns[p] / ENTRIES
    ensures Growing(m, own, ns, m, own, p, tpos, ns[p]) && tpos <= TABLES
  {
    GrownShape(m, own, ns, m, own, p, ns[p]);
    hide Grown;
    hide MarksOk;
    hide FreeFrames;
    assert m.size[p := m.size[p]] == m.size;
  }

  lemma FailureNone(m: Mem, own: seq<Owner>, ns: seq<nat>, p: nat)
    requires Shape(m) && ns == PagesOf(m) && p < NPROCS && Grown(m, own, ns, m, own, p, ns[p]) && MarksOk(m, own)
    ensures AfterFailure(m, own, m, own, p, LIMIT)
  {
    GrownKept(m, own, ns, m, own, p, ns[p]);
    assert ns[p := ns[p]] == ns;
    hide Sound;
    hide Grown;
    hide Kept;
    hide Marked;
  }

  lemma NullTablesNext(dir: PageDir, i: nat, t: nat)
    requires i <= t < TABLES
    ensures NullTables(dir, i, t + 1) == NullTables(dir, i, t) + if dir[2048 + t] == 0 then 1 else 0
  {
  }

  lemma NeedsMost(dir: PageDir, a: nat, n: nat, k: nat)
    requires a <= n < LIMIT && n < k
    ensures k <= LIMIT ==> Needs(dir, a, n + 1) <= Needs(dir, a, k)
  {
    if n + 1 < k <= LIMIT { NeedsMore(dir, a, n + 1, k); }
  }

  lemma NeedsAll(dir: PageDir, a: nat, n: nat, i: nat)
    requires a < n <= LIMIT && i * ENTRIES < n <= (i + 1) * ENTRIES && i < TABLES
    ensures Needs(dir, a, n) == n - a + NullTables(dir, a / ENTRIES, i + 1)
  {
    assert (n - 1) / ENTRIES == i;
  }

  /** Page g of s, not its last, is its only guard. */
  ghost predicate OneGuard(m: Mem, s: nat, g: nat) {
    && Shape(m) && s < NPROCS && m.size[s] / PAGE_SIZE <= LIMIT && g + 1 < m.size[s] / PAGE_SIZE
    && forall k :: 0 <= k < m.size[s] / PAGE_SIZE ==> (Word(m, s, k) == 0 <==> k == g)
  }

  /** How many of the pages from k on are mapped, if all of total but g are. */
  function Unmapped(total: nat, g: nat, k: nat): int {
    total - 1 - (if g < k then k - 1 else k)
  }

  /** n pages from a on: all of them there, or everything up to the end of the address space. */
  ghost predicate CanClear(ns: seq<nat>, size: seq<nat>, p: nat, a: nat, n: nat)
    requires |ns| == NPROCS && |size| == NPROCS && p < NPROCS
  {
    a <= LIMIT && if a + n <= LIMIT then a + n <= ns[p] && n * PAGE_SIZE <= size[p] else ns[p] == LIMIT
  }

  /** The user page that entry j of table tpos stands for. */
  function Index(tpos: nat, j: nat): nat
    requires tpos >= 2048
  {
    (tpos - 2048) * ENTRIES + j
  }

  lemma DroppedDirs(m0: Mem, own0: seq<Owner>, m: Mem, own: seq<Owner>, ns: seq<nat>, p: nat, a: nat, b: nat)
    requires Dropped(m0, own0, m, own, ns, p, a, b)
    ensures m.pgdir == m0.pgdir && m.size == m0.size && Shape(m) && Shape(m0)
  {
  }

  lemma DroppedUndone(m0: Mem, own0: seq<Owner>, m: Mem, own: seq<Owner>, ns: seq<nat>, p: nat, a: nat, b: nat)
    requires Dropped(m0, own0, m, own, ns, p, a, b)
    ensures Undone(m0, own0, m, own, p, a, b, false, 0) && m.pgdir == m0.pgdir
  {
    SoundLimits(m0, own0, ns);
    SoundLimits(m, own, ns);
    hide Sound;
    hide Marked;
    hide KeptBut;
  }

  lemma UndoneNone(m: Mem, own: seq<Owner>, p: nat, n: nat)
    requires |own| == FRAMES
    ensures Undone(m, own, m, own, p, n, n, false, 0)
  {
    hide Marked;
  }

  lemma UndoneKept(m1: Mem, own1: seq<Owner>, m2: Mem, own2: seq<Owner>, p: nat, a: nat, n: nat, t: nat)
    requires Undone(m1, own1, m2, own2, p, a, n, false, 0)
    ensures Undone(m1, own1, m2, own2, p, a, n, false, t)
  {
    hide Marked;
  }

  /** Unmarking table t first comes to the same. */
  lemma UndoneLost(m0: Mem, m1: Mem, own: seq<Owner>, m2: Mem, own2: seq<Owner>, p: nat, a: nat, n: nat, t: nat)
    requires FIRST <= t < FRAMES && m1.bitmap == Released(m0.bitmap, t) && Undone(m1, own, m2, own2, p, a, n, false, 0)
    ensures Undone(m0, own, m2, own2, p, a, n, t <= LAST, t)
  {
    hide Marked;
    hide ClearMark;
  }

  lemma DroppedAt(m0: Mem, own0: seq<Owner>, m: Mem, own: seq<Owner>, ns: seq<nat>, p: nat, a: nat, k: nat)
    requires Dropped(m0, own0, m, own, ns, p, a, k) && k < ns[p] && k < LIMIT
    ensures Shape(m) && p < NPROCS && PageOk(m, own, p, k) && TableAt(m.pgdir[p][2048 + k / ENTRIES]) < FRAMES
    ensures |own| == FRAMES && (Word(m, p, k) != 0 ==> FrameAt(Word(m, p, k)) < FRAMES)
  {
    SpaceAt(m, own, ns, p);
    assert TableOk(m, own, p, k / ENTRIES);
  }

  lemma DroppedTable(m0: Mem, own0: seq<Owner>, m: Mem, own: seq<Owner>, ns: seq<nat>, p: nat, a: nat, k: nat)
    requires Dropped(m0, own0, m, own, ns, p, a, k) && k < ns[p] && k < LIMIT
    ensures Shape(m) && p < NPROCS && m.pgdir == m0.pgdir && FIRST <= TableAt(m.pgdir[p][2048 + k / ENTRIES]) < FRAMES
  {
    SpaceAt(m, own, ns, p);
    assert TableOk(m, own, p, k / ENTRIES) && PageOk(m, own, p, k);
  }

  lemma GrownShape(m0: Mem, own0: seq<Owner>, ns0: seq<nat>, m: Mem, own: seq<Owner>, p: nat, n: nat)
    requires Grown(m0, own0, ns0, m, own, p, n)
    ensures Shape(m) && p < NPROCS && |own| == FRAMES && ns0[p] <= n <= LIMIT
  {
  }

  lemma MarksMore(m: Mem, own: seq<Owner>, f: nat, o: Owner, m': Mem)
    requires MarksOk(m, own) && f < FRAMES && m'.bitmap == SetMark(m.bitmap, f)
    ensures MarksOk(m', own[f := o])
  {
    hide Marked;
    hide SetMark;
  }

  /** Sizes play no part in what is mapped. */
  lemma SizeAside(m0: Mem, m: Mem, own: seq<Owner>, ns: seq<nat>, p: nat, m': Mem)
    requires Sound(m, own, ns) && KeptAll(m0, m, ns) && MarksBut(m, own, p) && Shape(m') && m' == m.(size := m'.size)
    ensures Sound(m', own, ns) && KeptAll(m0, m', ns) && MarksBut(m', own, p)
  {
    SizeAsideSound(m, own, ns, m');
    hide Sound;
    hide Marked;
    forall q, k | 0 <= q < NPROCS && 0 <= k < ns[q] ensures Kept(m0, m', q, k) {
      assert Kept(m0, m, q, k);
    }
  }

  lemma SizeAsideSound(m: Mem, own: seq<Owner>, ns: seq<nat>, m': Mem)
    requires Sound(m, own, ns) && Shape(m') && m' == m.(size := m'.size)
    ensures Sound(m', own, ns)
  {
    forall q | 0 <= q < NPROCS ensures Space(m', own, q, ns[q]) {
      SpaceAt(m, own, ns, q);
      forall i | 0 <= i < TABLES ensures TableOk(m', own, q, i) { assert TableOk(m, own, q, i); }
      forall k | 0 <= k < ns[q] ensures PageOk(m', own, q, k) { assert PageOk(m, own, q, k); }
      forall f | 0 <= f < FRAMES ensures Backed(m', own, q, ns[q], f) { assert Backed(m, own, q, ns[q], f); }
    }
  }

  lemma GrownSize(m0: Mem, own0: seq<Owner>, ns0: seq<nat>, m: Mem, own: seq<Owner>, p: nat, n: nat, m': Mem)
    requires Grown(m0, own0, ns0, m, own, p, n) && MarksOk(m, own) && Shape(m') && m' == m.(size := m'.size)
    ensures Grown(m0, own0, ns0, m', own, p, n) && MarksOk(m', own)
  {
    SizeAsideSound(m, own, ns0[p := n], m');
    hide Sound;
    hide Marked;
    forall q, k | 0 <= q < NPROCS && 0 <= k < ns0[q] ensures Kept(m0, m', q, k) {
      assert Kept(m0, m, q, k);
    }
    forall k | ns0[p] <= k < n ensures Word(m', p, k) != 0 {
      assert Word(m, p, k) != 0;
    }
  }

  lemma GrownKept(m0: Mem, own0: seq<Owner>, ns0: seq<nat>, m: Mem, own: seq<Owner>, p: nat, n: nat)
    requires Grown(m0, own0, ns0, m, own, p, n) && MarksOk(m, own)
    ensures Shape(m) && p < NPROCS && |ns0| == NPROCS && ns0[p] <= n <= LIMIT
    ensures KeptAll(m0, m, ns0) && Sound(m, own, ns0[p := n]) && MarksBut(m, own, p)
  {
    hide Sound;
    hide Marked;
    hide Kept;
  }

  lemma GrownTable(m0: Mem, own0: seq<Owner>, ns0: seq<nat>, m: Mem, own: seq<Owner>, p: nat, n: nat)
    requires Grown(m0, own0, ns0, m, own, p, n) && n < LIMIT && Shape(m) && p < NPROCS && m.pgdir[p][2048 + n / ENTRIES] != 0
    ensures FIRST <= TableAt(m.pgdir[p][2048 + n / ENTRIES]) < FRAMES
    ensures |own| == FRAMES && own[TableAt(m.pgdir[p][2048 + n / ENTRIES])] == Table(p, n / ENTRIES)
  {
    SpaceAt(m, own, ns0[p := n], p);
    assert TableOk(m, own, p, n / ENTRIES);
  }

  /** dalloc_page on a page table of p that is still in the directory: no page is disturbed. */
  lemma Unmarked(m0: Mem, ns0: seq<nat>, m: Mem, own: seq<Owner>, p: nat, n: nat, i: nat, m': Mem)
    requires KeptAll(m0, m, ns0) && p < NPROCS && n <= LIMIT && Sound(m, own, ns0[p := n]) && MarksBut(m, own, p) && i < TABLES
    requires m.pgdir[p][2048 + i] != 0 && FIRST <= TableAt(m.pgdir[p][2048 + i]) < FRAMES
    requires m' == m || m' == m.(bitmap := Released(m.bitmap, TableAt(m.pgdir[p][2048 + i])))
    ensures KeptAll(m0, m', ns0) && Sound(m', own, ns0[p := n]) && MarksBut(m', own, p)
  {
    var ns := ns0[p := n];
    SpaceAt(m, own, ns, p);
    assert TableOk(m, own, p, i);
    BitmapAside(m, own, ns, m');
    hide Sound;
    hide Marked;
    hide ClearMark;
    forall q, k | 0 <= q < NPROCS && 0 <= k < ns0[q] ensures Kept(m0, m', q, k) {
      assert Kept(m0, m, q, k);
    }
  }

  lemma BitmapAside(m: Mem, own: seq<Owner>, ns: seq<nat>, m': Mem)
    requires Sound(m, own, ns) && Shape(m') && m' == m.(bitmap := m'.bitmap)
    ensures Sound(m', own, ns)
  {
    forall q | 0 <= q < NPROCS ensures Space(m', own, q, ns[q]) {
      SpaceAt(m, own, ns, q);
      forall i | 0 <= i < TABLES ensures TableOk(m', own, q, i) { assert TableOk(m, own, q, i); }
      forall k | 0 <= k < ns[q] ensures PageOk(m', own, q, k) { assert PageOk(m, own, q, k); }
      forall f | 0 <= f < FRAMES ensures Backed(m', own, q, ns[q], f) { assert Backed(m, own, q, ns[q], f); }
    }
  }

  lemma GrownPages(m0: Mem, own0: seq<Owner>, m: Mem, own: seq<Owner>, p: nat, n: nat)
    requires Shape(m0) && Grown(m0, own0, PagesOf(m0), m, own, p, n)
    requires (forall q :: 0 <= q < NPROCS ==> m0.size[q] % PAGE_SIZE == 0)
    requires Shape(m) && p < NPROCS && n >= PagesOf(m0)[p] && m.size == m0.size[p := m0.size[p] + (n - PagesOf(m0)[p]) * PAGE_SIZE]
    ensures PagesOf(m) == PagesOf(m0)[p := n] && Sound(m, own, PagesOf(m))
    ensures forall q :: 0 <= q < NPROCS ==> m.size[q] % PAGE_SIZE == 0
  {
    hide Sound;
    assert PagesOf(m) == PagesOf(m0)[p := n];
  }

  lemma ShrunkPages(m0: Mem, own0: seq<Owner>, m: Mem, own: seq<Owner>, p: nat, a: nat)
    requires Shape(m0) && p < NPROCS && (forall q :: 0 <= q < NPROCS ==> m0.size[q] % PAGE_SIZE == 0)
    requires Shape(m) && a <= PagesOf(m0)[p] && m.size == m0.size[p := a * PAGE_SIZE]
    requires Dropped(m0, own0, m.(size := m0.size), own, PagesOf(m0), p, a, PagesOf(m0)[p]) && MarksOk(m0, own0)
    ensures Sound(m, own, PagesOf(m)) && MarksOk(m, own) && forall q :: 0 <= q < NPROCS ==> m.size[q] % PAGE_SIZE == 0
  {
    var m1, ns := m.(size := m0.size), PagesOf(m0);
    DroppedMarks(m0, own0, m1, own, ns, p, a, ns[p]);
    ForgetPages(m1, own, ns, p, a);
    SizeAsideSound(m1, own, ns[p := a], m);
    assert PagesOf(m) == ns[p := a];
    hide Sound;
    hide Marked;
  }

  lemma ThereAndBack(m0: Mem, own0: seq<Owner>, ns0: seq<nat>, m1: Mem, own1: seq<Owner>, p: nat, n: nat, m2: Mem, own2: seq<Owner>)
    requires Grown(m0, own0, ns0, m1, own1, p, n) && Dropped(m1, own1, m2, own2, ns0[p := n], p, ns0[p], n)
    ensures |own0| == |own2| == FRAMES && Shape(m0) && Shape(m2)
    ensures OnlyTables(m0, own0, own2, p) && |own1| == FRAMES
    ensures forall f :: 0 <= f < FRAMES && own1[f] != own0[f] && own1[f].Table? ==> own2[f] == own1[f]
  {
    SoundLimits(m0, own0, ns0);
    SoundLimits(m2, own2, ns0[p := n]);
    forall f | 0 <= f < FRAMES && own1[f] == own0[f] ensures !InRange(own0[f], p, ns0[p], n) {
      if InRange(own0[f], p, ns0[p], n) { OwnedAs(m0, own0, ns0, p, own0[f].k, f); }
    }
    hide Marked;
    hide Sound;
    hide Word;
    hide Kept;
  }

  lemma SizeAlone(m0: Mem, m: Mem, ns: seq<nat>, m': Mem)
    requires KeptAll(m0, m, ns) && Shape(m') && m' == m.(size := m'.size)
    ensures KeptAll(m0, m', ns)
  {
    forall q, k | 0 <= q < NPROCS && 0 <= k < ns[q] ensures Kept(m0, m', q, k) {
      assert Kept(m0, m, q, k);
    }
  }

  lemma CopiedShape(m0: Mem, own0: seq<Owner>, ns: seq<nat>, m: Mem, own: seq<Owner>, s: nat, d: nat, n: nat)
    requires Copied(m0, own0, ns, m, own, s, d, n)
    ensures Shape(m0) && Shape(m) && |ns| == NPROCS && s < NPROCS && d < NPROCS && |own| == FRAMES && n <= ns[s] <= LIMIT
  {
  }

  /** The source's table word for page n, before and now. */
  lemma CopiedSource(m0: Mem, own0: seq<Owner>, ns: seq<nat>, m: Mem, own: seq<Owner>, s: nat, d: nat, n: nat)
    requires Copied(m0, own0, ns, m, own, s, d, n) && n < ns[s]
    ensures Shape(m0) && Shape(m) && s < NPROCS && d < NPROCS && ns[s] <= LIMIT && |ns| == NPROCS
    ensures Word(m, s, n) == Word(m0, s, n) && (Word(m, s, n) != 0 ==> FrameAt(Word(m, s, n)) < FRAMES)
    ensures TableAt(m.pgdir[s][2048 + n / ENTRIES]) < FRAMES
  {
    SpaceAt(m, own, ns[d := n], s);
    assert Kept(m0, m, s, n);
    assert PageOk(m, own, s, n) && TableOk(m, own, s, n / ENTRIES);
  }

  lemma CopiedTables(m0: Mem, own0: seq<Owner>, ns: seq<nat>, m: Mem, own: seq<Owner>, s: nat, d: nat, n: nat)
    requires Copied(m0, own0, ns, m, own, s, d, n) && n < LIMIT && Shape(m) && d < NPROCS && m.pgdir[d][2048 + n / ENTRIES] != 0
    ensures TableAt(m.pgdir[d][2048 + n / ENTRIES]) < FRAMES
  {
    SpaceAt(m, own, ns[d := n], d);
    assert TableOk(m, own, d, n / ENTRIES);
  }

  /** Storing the new word leaves the source's word alone. */
  lemma CopySlots(m0: Mem, own0: seq<Owner>, ns: seq<nat>, m: Mem, own: seq<Owner>, s: nat, d: nat, n: nat, f: nat, m1: Mem)
    requires Copied(m0, own0, ns, m, own, s, d, n) && n < ns[s] && f < FRAMES && Shape(m) && PageAdded(m, own, d, n, f, m1)
    ensures Shape(m1) && n < LIMIT && Word(m1, s, n) == Word(m, s, n) && Word(m1, d, n) == Pte(f) && FrameAt(Pte(f)) == f
  {
    AddPage(m, own, ns[d := n], d, f, m1);
    assert Kept(m, m1, s, n);
    WordFrames(f);
    hide Sound;
  }

  lemma CopiedPages(m0: Mem, own0: seq<Owner>, m1: Mem, own: seq<Owner>, s: nat, d: nat, m: Mem)
    requires Shape(m0) && s < NPROCS && d < NPROCS && (forall q :: 0 <= q < NPROCS ==> m0.size[q] % PAGE_SIZE == 0)
    requires Copied(m0, own0, PagesOf(m0), m1, own, s, d, PagesOf(m0)[s]) && MarksOk(m1, own)
    requires m == m1.(size := m0.size[d := m0.size[s]])
    ensures Shape(m) && Sound(m, own, PagesOf(m)) && MarksOk(m, own) && forall q :: 0 <= q < NPROCS ==> m.size[q] % PAGE_SIZE == 0
  {
    SizeAsideSound(m1, own, PagesOf(m0)[d := PagesOf(m0)[s]], m);
    assert PagesOf(m) == PagesOf(m0)[d := PagesOf(m0)[s]];
    hide Sound;
    hide Marked;
  }

  lemma NoMemory(m: Mem, own: seq<Owner>)
    requires Shape(m) && |own| == FRAMES && forall f :: 0 <= f < FRAMES ==> own[f] == Free
    requires forall q :: 0 <= q < NPROCS ==> m.size[q] == 0
    requires forall q, i :: 0 <= q < NPROCS && 2048 <= i < 4096 ==> m.pgdir[q][i] == 0
    ensures Sound(m, own, PagesOf(m)) && MarksOk(m, own)
  {
    forall q | 0 <= q < NPROCS ensures Space(m, own, q, PagesOf(m)[q]) {
      assert forall f :: 0 <= f < FRAMES ==> Backed(m, own, q, 0, f);
    }
  }
}
