/** The kernel's own form of the process table: slots linked through one next field into three lists, changed
    in place. Every method is proved against the operation of ProcSpec it carries out. */
module ProcKernel {
  import opened ProcQueue
  import opened ProcSpec
  import opened ProcInvariant
  import opened ProcLaws
  import Runs = ProcRuns

  // ---------------------------------------------------------------------------------------------
  // Lists through a table of next references: slot numbers, and -1 for null

  function At(q: seq<nat>, i: nat): int {
    if i < |q| then q[i] else -1
  }

  /** head starts a chain through exactly the slots of q, in this order. */
  ghost predicate Linked(nx: seq<int>, head: int, q: seq<nat>) {
    head == At(q, 0) && forall i :: 0 <= i < |q| ==> q[i] < |nx| && nx[q[i]] == At(q, i + 1)
  }

  ghost predicate Apart(a: seq<nat>, b: seq<nat>) {
    forall x :: x in a ==> x !in b
  }

  ghost predicate Elsewhere(nx: seq<int>, nx': seq<int>, q: seq<nat>, p: nat) {
    |nx'| == |nx| && forall x: nat :: x < |nx| && x != p && x !in q ==> nx'[x] == nx[x]
  }

  lemma LinkedKept(nx: seq<int>, nx': seq<int>, q: seq<nat>, p: nat, head: int, o: seq<nat>)
    requires Linked(nx, head, o) && Elsewhere(nx, nx', q, p) && p !in o && Apart(q, o)
    ensures Linked(nx', head, o)
  {
    forall i | 0 <= i < |o| ensures nx'[o[i]] == nx[o[i]] {
      assert o[i] in o;
    }
  }

  lemma LinkedFirst(nx: seq<int>, head: int, q: seq<nat>, p: nat)
    requires Linked(nx, head, q) && p < |nx| && p !in q
    ensures Linked(nx[p := head], p, [p] + q) && Elsewhere(nx, nx[p := head], q, p)
  {
    forall i | 0 <= i < |q| ensures q[i] != p {
      assert q[i] in q;
    }
    forall i | 0 <= i < |q| + 1 ensures nx[p := head][([p] + q)[i]] == At([p] + q, i + 1) {
      if i > 0 { assert nx[q[i - 1]] == At(q, i); }
    }
  }

  lemma LinkedRest(nx: seq<int>, head: int, q: seq<nat>)
    requires Linked(nx, head, q) && q != []
    ensures head == q[0] && Linked(nx, nx[q[0]], q[1..])
  {
    forall i | 0 <= i < |q| - 1 ensures nx[q[1..][i]] == At(q[1..], i + 1) {
      assert nx[q[i + 1]] == At(q, i + 2);
    }
  }

  /** nx with p linked in behind x. */
  function Spliced(nx: seq<int>, x: nat, p: nat): (r: seq<int>)
    requires x < |nx| && p < |nx|
  {
    nx[p := nx[x]][x := p]
  }

  function Behind(q: seq<nat>, p: nat, k: nat): (r: seq<nat>)
    requires k <= |q|
    ensures |r| == |q| + 1
  {
    q[..k] + [p] + q[k..]
  }

  lemma BehindNone(q: seq<nat>, p: nat)
    ensures Behind(q, p, 0) == [p] + q
  {
  }

  lemma BehindAt(q: seq<nat>, p: nat, k: nat, i: nat)
    requires k <= |q| && i <= |q|
    ensures Behind(q, p, k)[i] == if i < k then q[i] else if i == k then p else q[i - 1]
  {
  }

  lemma LinkedAfterAt(nx: seq<int>, head: int, q: seq<nat>, p: nat, k: nat, i: nat)
    requires Linked(nx, head, q) && Distinct(q) && p < |nx| && p !in q && 1 <= k <= |q| && i <= |q|
    ensures q[k - 1] < |nx| && var r := Behind(q, p, k); r[i] < |nx| && Spliced(nx, q[k - 1], p)[r[i]] == At(r, i + 1)
  {
    hide Behind;
    BehindAt(q, p, k, i);
    if i < |q| { BehindAt(q, p, k, i + 1); }
    assert q[k - 1] in q && nx[q[k - 1]] == At(q, k);
    if i < k {
      assert q[i] in q && nx[q[i]] == At(q, i + 1);
    } else if i > k {
      assert q[i - 1] in q && nx[q[i - 1]] == At(q, i);
    }
  }

  lemma LinkedAfter(nx: seq<int>, head: int, q: seq<nat>, p: nat, k: nat)
    requires Linked(nx, head, q) && Distinct(q) && p < |nx| && p !in q && 1 <= k <= |q|
    ensures q[k - 1] < |nx| && Linked(Spliced(nx, q[k - 1], p), head, Behind(q, p, k))
    ensures Elsewhere(nx, Spliced(nx, q[k - 1], p), q, p)
  {
    assert q[k - 1] in q;
    var r := Behind(q, p, k);
    hide Behind;
    hide Distinct;
    forall i | 0 <= i < |r| ensures r[i] < |nx| && Spliced(nx, q[k - 1], p)[r[i]] == At(r, i + 1) {
      LinkedAfterAt(nx, head, q, p, k, i);
    }
  }

  lemma LinkedAt(nx: seq<int>, head: int, q: seq<nat>)
    requires Linked(nx, head, q)
    ensures head == At(q, 0) && forall i :: 0 <= i < |q| ==> q[i] < |nx| && nx[q[i]] == At(q, i + 1)
  {
  }

  ghost predicate Ahead(pr: seq<int>, q: seq<nat>, p: nat, k: nat)
    requires Pids(pr, q) && p < |pr| && k <= |q|
  {
    forall i :: 0 <= i < k ==> pr[q[i]] >= pr[p]
  }

  lemma AheadNone(pr: seq<int>, q: seq<nat>, p: nat)
    requires Pids(pr, q) && p < |pr|
    ensures Ahead(pr, q, p, 0)
  {
  }

  lemma AheadStep(pr: seq<int>, q: seq<nat>, p: nat, k: nat)
    requires Pids(pr, q) && p < |pr| && k < |q| && Ahead(pr, q, p, k) && pr[q[k]] >= pr[p]
    ensures Ahead(pr, q, p, k + 1)
  {
  }

  lemma PlaceIs(pr: seq<int>, q: seq<nat>, p: nat, k: nat)
    requires Pids(pr, q) && p < |pr| && k <= |q|
    requires Ahead(pr, q, p, k) && (k < |q| ==> pr[p] > pr[q[k]])
    ensures Insert(pr, q, p) == Behind(q, p, k)
  {
    hide Place;
    InsertAt(pr, q, p);
  }

  /** Lists with these heads, each without repeats, no slot on two of them. */
  ghost predicate Lists(nx: seq<int>, hs: seq<int>, qs: seq<seq<nat>>) {
    && |hs| == |qs|
    && (forall i :: 0 <= i < |qs| ==> Linked(nx, hs[i], qs[i]) && Distinct(qs[i]))
    && (forall i, j :: 0 <= i < |qs| && 0 <= j < |qs| && i != j ==> Apart(qs[i], qs[j]))
  }

  ghost predicate Nowhere(qs: seq<seq<nat>>, p: nat) {
    forall i :: 0 <= i < |qs| ==> p !in qs[i]
  }

  lemma NowhereAt(qs: seq<seq<nat>>, p: nat, i: nat)
    requires Nowhere(qs, p) && i < |qs|
    ensures p !in qs[i]
  {
  }

  lemma ListsAt(nx: seq<int>, hs: seq<int>, qs: seq<seq<nat>>, i: nat)
    requires Lists(nx, hs, qs) && i < |qs|
    ensures i < |hs| && Linked(nx, hs[i], qs[i]) && Distinct(qs[i])
    ensures (hs[i] == -1 <==> qs[i] == []) && (qs[i] != [] ==> hs[i] == qs[i][0] < |nx|)
  {
  }

  /** The head of list i taken off. */
  lemma ListsPop(nx: seq<int>, hs: seq<int>, qs: seq<seq<nat>>, i: nat)
    requires Lists(nx, hs, qs) && i < |qs| && qs[i] != []
    ensures hs[i] == qs[i][0] < |nx| && Lists(nx, hs[i := nx[hs[i]]], qs[i := qs[i][1..]])
    ensures Nowhere(qs[i := qs[i][1..]], qs[i][0])
  {
    LinkedRest(nx, hs[i], qs[i]);
    hide Linked;
    assert qs[i] == [qs[i][0]] + qs[i][1..];
  }

  /** p, so far on no list, joined list i, in whatever place. */
  lemma ListsPush(nx: seq<int>, nx': seq<int>, hs: seq<int>, qs: seq<seq<nat>>, i: nat, p: nat, h: int, q: seq<nat>)
    requires Lists(nx, hs, qs) && i < |qs| && Nowhere(qs, p)
    requires Linked(nx', h, q) && Distinct(q) && (forall x :: x in q <==> x == p || x in qs[i])
    requires Elsewhere(nx, nx', qs[i], p)
    ensures Lists(nx', hs[i := h], qs[i := q])
  {
    hide Linked;
    hide Distinct;
    hide Elsewhere;
    forall j | 0 <= j < |qs| && j != i ensures Linked(nx', hs[j], qs[j]) {
      LinkedKept(nx, nx', qs[i], p, hs[j], qs[j]);
    }
  }

  lemma ListsInsert(nx: seq<int>, nx': seq<int>, hs: seq<int>, qs: seq<seq<nat>>, i: nat, p: nat, h: int, pr: seq<int>)
    requires Lists(nx, hs, qs) && i < |qs| && Nowhere(qs, p) && Pids(pr, qs[i]) && p < |pr|
    requires Linked(nx', h, Insert(pr, qs[i], p)) && Elsewhere(nx, nx', qs[i], p)
    ensures Lists(nx', hs[i := h], qs[i := Insert(pr, qs[i], p)])
  {
    hide Lists;
    hide Linked;
    hide Elsewhere;
    hide Insert;
    ListsAt(nx, hs, qs, i);
    InsertPids(pr, qs[i], p);
    InsertDistinct(pr, qs[i], p);
    ListsPush(nx, nx', hs, qs, i, p, h, Insert(pr, qs[i], p));
  }

  lemma ListsMore(nx: seq<int>, r: int, s: int, f: int, run: seq<nat>, sleep: seq<nat>, free: seq<nat>)
    requires Lists(nx, [r, s, f], [run, sleep, free])
    ensures Lists(nx, [r, s, f, -1], [run, sleep, free, []])
  {
    ListsAt(nx, [r, s, f], [run, sleep, free], 0);
    ListsAt(nx, [r, s, f], [run, sleep, free], 1);
    ListsAt(nx, [r, s, f], [run, sleep, free], 2);
    assert Apart(run, sleep) && Apart(run, free) && Apart(sleep, free) by {
      assert [run, sleep, free][0] == run && [run, sleep, free][1] == sleep && [run, sleep, free][2] == free;
    }
  }

  lemma ListsLess(nx: seq<int>, r: int, s: int, f: int, t: int, run: seq<nat>, free: seq<nat>, rest: seq<nat>)
    requires Lists(nx, [r, s, f, t], [run, [], free, rest])
    ensures Lists(nx, [r, t, f], [run, rest, free])
  {
    ghost var hs, qs := [r, s, f, t], [run, [], free, rest];
    ListsAt(nx, hs, qs, 0);
    ListsAt(nx, hs, qs, 2);
    ListsAt(nx, hs, qs, 3);
    assert Apart(run, rest) && Apart(run, free) && Apart(rest, free) by {
      assert qs[0] == run && qs[2] == free && qs[3] == rest;
    }
  }

  lemma CurrentNowhere(k: Kern)
    requires QueuesOk(k) && k.procs[k.curr].state == RUNNABLE
    ensures Nowhere([k.run, k.sleep, k.free], k.curr)
  {
  }

  lemma AllFree(nx: seq<int>)
    requires |nx| == NPROCS && forall i :: 0 <= i < NPROCS ==> nx[i] == if i < NPROCS - 1 then i + 1 else -1
    ensures Lists(nx, [-1, -1, 0], [[], [], Runs.Upto(0, NPROCS)])
  {
    hide Runs.Upto;
    var q := Runs.Upto(0, NPROCS);
    assert Linked(nx, 0, q) && Distinct(q);
    hide Linked;
    assert Linked(nx, -1, []) by { NothingLinked(nx); }
    var qs: seq<seq<nat>> := [[], [], q];
    assert forall i, j :: 0 <= i < 3 && 0 <= j < 3 && i != j ==> Apart(qs[i], qs[j]);
  }

  lemma NothingLinked(nx: seq<int>)
    ensures Linked(nx, -1, [])
  {
  }

  lemma FirstTaken(blank: seq<PInfo>, p: PInfo, free: seq<nat>)
    requires |blank| == NPROCS && forall i :: 0 <= i < NPROCS ==> blank[i] == Runs.Unused()
    requires p == Runs.Unused().(state := RUNNABLE) && free == Runs.Upto(0, NPROCS)[1..]
    ensures Runs.OsInit() == Kern(blank[0 := p], [], [], free, 0)
  {
    assert free == Runs.Upto(1, NPROCS);
    assert blank[0 := p] == Runs.OsInit().procs;
  }

  // ---------------------------------------------------------------------------------------------
  // The table procs[NPROCS]: a process pointer is a slot number, null is -1

  datatype Slot = Slot(next: int, info: PInfo)

  function Nexts(t: seq<Slot>): (r: seq<int>)
    ensures |r| == |t| && forall i :: 0 <= i < |t| ==> r[i] == t[i].next
  {
    seq(|t|, i requires 0 <= i < |t| => t[i].next)
  }

  function Infos(t: seq<Slot>): (r: seq<PInfo>)
    ensures |r| == |t| && forall i :: 0 <= i < |t| ==> r[i] == t[i].info
  {
    seq(|t|, i requires 0 <= i < |t| => t[i].info)
  }

  lemma NextSet(t: seq<Slot>, p: nat, q: int)
    requires p < |t|
    ensures var t' := t[p := t[p].(next := q)]; Nexts(t') == Nexts(t)[p := q] && Infos(t') == Infos(t)
  {
  }

  lemma InfoSet(t: seq<Slot>, p: nat, x: PInfo)
    requires p < |t|
    ensures var t' := t[p := t[p].(info := x)]; Nexts(t') == Nexts(t) && Infos(t') == Infos(t)[p := x]
  {
  }

  class Kernel {
    const procs: array<Slot>
    var freequeue: int
    var runnablequeue: int
    var sleepqueue: int
    var currProc: nat
    ghost var run: seq<nat>
    ghost var sleep: seq<nat>
    ghost var free: seq<nat>

    ghost predicate Valid()
      reads this, procs
    {
      && procs.Length == NPROCS && currProc < NPROCS
      && Lists(Nexts(procs[..]), [runnablequeue, sleepqueue, freequeue], [run, sleep, free])
    }

    /** The value the table stands for. */
    ghost function Abs(): (k: Kern)
      reads this, procs
    {
      Kern(Infos(procs[..]), run, sleep, free, currProc)
    }

    /** enqueue(queue, p) */
    method Enqueue(head: int, p: nat, ghost q: seq<nat>) returns (h: int)
      requires procs.Length == NPROCS && p < NPROCS
      requires Linked(Nexts(procs[..]), head, q) && Distinct(q) && p !in q
      modifies procs
      ensures Infos(procs[..]) == old(Infos(procs[..])) && Pids(Pr(Infos(procs[..])), q)
      ensures Linked(Nexts(procs[..]), h, Insert(Pr(Infos(procs[..])), q, p))
      ensures Elsewhere(old(Nexts(procs[..])), Nexts(procs[..]), q, p)
    {
      hide Insert;
      hide Pr;
      hide Linked;
      hide Elsewhere;
      hide Distinct;
      hide Ahead;
      hide Behind;
      ghost var t := procs[..];
      ghost var pr, nx := Pr(Infos(t)), Nexts(t);
      LinkedAt(nx, head, q);
      AheadNone(pr, q, p);
      if head == -1 || procs[p].info.priority > procs[head].info.priority {
        procs[p] := procs[p].(next := head);
        assert procs[..] == t[p := t[p].(next := head)];
        NextSet(t, p, head);
        LinkedFirst(nx, head, q, p);
        PlaceIs(pr, q, p, 0);
        BehindNone(q, p);
        return p;
      }
      var s := head;
      ghost var i := 0;
      AheadStep(pr, q, p, 0);
      while procs[s].next != -1 && procs[p].info.priority <= procs[procs[s].next].info.priority
        invariant procs[..] == t
        invariant i < |q| && s == q[i] && Ahead(pr, q, p, i + 1)
        decreases |q| - i
      {
        s, i := procs[s].next, i + 1;
        AheadStep(pr, q, p, i);
      }
      LinkedAfter(nx, head, q, p, i + 1);
      PlaceIs(pr, q, p, i + 1);
      assert q[i] in q;
      LinkBehind(s, p);
      h := head;
    }

    method LinkBehind(s: nat, p: nat)
      requires procs.Length == NPROCS && p < NPROCS && s < NPROCS && s != p
      modifies procs
      ensures Infos(procs[..]) == old(Infos(procs[..])) && Nexts(procs[..]) == Spliced(old(Nexts(procs[..])), s, p)
    {
      ghost var t := procs[..];
      procs[p] := procs[p].(next := procs[s].next);
      procs[s] := procs[s].(next := p);
      NextSet(t, p, t[s].next);
      NextSet(t[p := t[p].(next := t[s].next)], s, p);
      assert procs[..] == t[p := t[p].(next := t[s].next)][s := t[s].(next := p)];
    }

    /** OS_init: every slot on the free list in pid order, and the first one taken for the current process. */
    constructor ()
      ensures Valid() && fresh(procs) && Abs() == Runs.OsInit()
    {
      procs, currProc := new Slot[NPROCS], 0;
      freequeue, runnablequeue, sleepqueue := 0, -1, -1;
      run, sleep, free := [], [], Runs.Upto(0, NPROCS);
      new;
      hide Lists;
      LinkAll();
      AllFree(Nexts(procs[..]));
      TakeFirst();
    }

    method LinkAll()
      requires procs.Length == NPROCS
      modifies procs
      ensures forall i :: 0 <= i < NPROCS ==> procs[i] == Slot(if i < NPROCS - 1 then i + 1 else -1, Runs.Unused())
    {
      for i := 0 to NPROCS
        invariant forall j :: 0 <= j < i ==> procs[j] == Slot(j + 1, Runs.Unused())
      {
        procs[i] := Slot(i + 1, Runs.Unused());
      }
      procs[NPROCS - 1] := procs[NPROCS - 1].(next := -1);
    }

    method TakeFirst()
      requires Valid() && run == [] && sleep == [] && free == Runs.Upto(0, NPROCS)
      requires forall i :: 0 <= i < NPROCS ==> procs[i].info == Runs.Unused()
      modifies this, procs
      ensures Valid() && Abs() == Runs.OsInit()
    {
      hide Lists;
      ghost var t := procs[..];
      var p := AllocProc();
      assert p == 0;
      currProc := p;
      procs[p] := procs[p].(info := procs[p].info.(priority := 0));
      procs[p] := procs[p].(info := procs[p].info.(state := RUNNABLE));
      ghost var p0 := Runs.Unused().(state := RUNNABLE);
      assert procs[..] == t[0 := t[0].(info := p0)];
      InfoSet(t, 0, p0);
      FirstTaken(Infos(t), p0, free);
    }

    /** allocproc() */
    method AllocProc() returns (p: int)
      requires Valid()
      modifies `freequeue, `free
      ensures Valid() && (p == -1 <==> old(free) == [])
      ensures p != -1 ==> 0 <= p < NPROCS && p == old(free)[0] && Nowhere([run, sleep, free], p)
      ensures free == if p == -1 then [] else old(free)[1..]
    {
      hide Lists;
      hide Nowhere;
      ghost var hs, qs := [runnablequeue, sleepqueue, freequeue], [run, sleep, free];
      ListsAt(Nexts(procs[..]), hs, qs, 2);
      p := freequeue;
      if p != -1 {
        ListsPop(Nexts(procs[..]), hs, qs, 2);
        freequeue := procs[p].next;
        free := free[1..];
        assert [runnablequeue, sleepqueue, freequeue] == hs[2 := freequeue] && [run, sleep, free] == qs[2 := free];
      }
    }

    /** dallocproc(p) */
    method DallocProc(p: nat)
      requires Valid() && p < NPROCS && Nowhere([run, sleep, free], p)
      modifies `freequeue, `free, procs
      ensures Valid() && free == [p] + old(free) && Infos(procs[..]) == old(Infos(procs[..]))
    {
      hide Lists;
      ghost var t, hs, qs := procs[..], [runnablequeue, sleepqueue, freequeue], [run, sleep, free];
      ListsAt(Nexts(t), hs, qs, 2);
      procs[p] := procs[p].(next := freequeue);
      assert procs[..] == t[p := t[p].(next := freequeue)];
      NextSet(t, p, freequeue);
      LinkedFirst(Nexts(t), freequeue, free, p);
      ListsPush(Nexts(t), Nexts(procs[..]), hs, qs, 2, p, p, [p] + free);
      freequeue := p;
      free := [p] + free;
      assert [runnablequeue, sleepqueue, freequeue] == hs[2 := freequeue] && [run, sleep, free] == qs[2 := free];
    }

    /** scheduler(), entered through switch_context */
    method Scheduler()
      requires Valid() && QueuesOk(Abs()) && (Abs().procs[currProc].state == RUNNABLE || run != [])
      modifies this, procs
      ensures Valid() && Abs() == ProcSpec.Scheduler(old(Abs()))
      ensures SortedOk(old(Abs())) ==> Dispatched(old(Abs()), Abs())
    {
      hide SortedOk;
      hide Dispatched;
      ghost var k := Abs();
      hide Lists;
      hide Insert;
      hide Pr;
      hide Linked;
      hide Elsewhere;
      ghost var hs, qs, nx := [runnablequeue, sleepqueue, freequeue], [run, sleep, free], Nexts(procs[..]);
      ghost var pr := Pr(Infos(procs[..]));
      if procs[currProc].info.state == RUNNABLE {
        CurrentNowhere(Abs());
        ListsAt(nx, hs, qs, 0);
        runnablequeue := Enqueue(runnablequeue, currProc, run);
        ListsInsert(nx, Nexts(procs[..]), hs, qs, 0, currProc, runnablequeue, pr);
        run := Insert(pr, run, currProc);
        assert [runnablequeue, sleepqueue, freequeue] == hs[0 := runnablequeue] && [run, sleep, free] == qs[0 := run];
      }
      hs, qs, nx := [runnablequeue, sleepqueue, freequeue], [run, sleep, free], Nexts(procs[..]);
      ListsPop(nx, hs, qs, 0);
      currProc := runnablequeue;
      runnablequeue := procs[currProc].next;
      run := run[1..];
      assert [runnablequeue, sleepqueue, freequeue] == hs[0 := runnablequeue] && [run, sleep, free] == qs[0 := run];
      Dispatches(k);
    }

    /** The part of sleep(event) before the switch. */
    method FallAsleep(event: Addr)
      requires Valid() && QueuesOk(Abs()) && Abs().procs[currProc].state == RUNNABLE
      modifies this, procs
      ensures Valid() && Abs() == ProcSpec.FallAsleep(old(Abs()), event)
      ensures SortedOk(old(Abs())) ==> FellAsleep(old(Abs()), event, Abs())
    {
      hide SortedOk;
      hide FellAsleep;
      ghost var k := Abs();
      hide Lists;
      hide Insert;
      hide Linked;
      hide Elsewhere;
      CurrentNowhere(Abs());
      ghost var t, hs, qs := procs[..], [runnablequeue, sleepqueue, freequeue], [run, sleep, free];
      procs[currProc] := procs[currProc].(info := procs[currProc].info.(event := event));
      procs[currProc] := procs[currProc].(info := procs[currProc].info.(state := SLEEPING));
      ghost var asleep := t[currProc].info.(event := event, state := SLEEPING);
      assert procs[..] == t[currProc := t[currProc].(info := asleep)];
      InfoSet(t, currProc, asleep);
      SamePr(Infos(t), Infos(procs[..]));
      ListsAt(Nexts(t), hs, qs, 1);
      sleepqueue := Enqueue(sleepqueue, currProc, sleep);
      ListsInsert(Nexts(t), Nexts(procs[..]), hs, qs, 1, currProc, sleepqueue, Pr(Infos(t)));
      sleep := Insert(Pr(Infos(t)), sleep, currProc);
      assert [runnablequeue, sleepqueue, freequeue] == hs[1 := sleepqueue] && [run, sleep, free] == qs[1 := sleep];
      FallsAsleep(k, event);
    }

    /** sleep(event) */
    method Sleep(event: Addr)
      requires Valid() && QueuesOk(Abs()) && SortedOk(Abs()) && Abs().procs[currProc].state == RUNNABLE && run != []
      modifies this, procs
      ensures Valid() && Abs() == ProcSpec.Scheduler(ProcSpec.FallAsleep(old(Abs()), event))
      ensures SleptOn(old(Abs()), event, old(Abs().procs[currProc].inWait), Abs())
    {
      SameInfo(Abs());
      SleepMeans(Abs(), event, Abs().procs[currProc].inWait, Abs());
      hide SleptOn;
      hide Dispatched;
      hide FellAsleep;
      FallAsleepOk(Abs(), event);
      FallAsleep(event);
      Scheduler();
    }

    /** The three queues and, under construction in wakeup, the new sleep queue. */
    ghost predicate Draining(tmp: int, rest: seq<nat>)
      reads this, procs
    {
      && procs.Length == NPROCS && currProc < NPROCS
      && Lists(Nexts(procs[..]), [runnablequeue, sleepqueue, freequeue, tmp], [run, sleep, free, rest])
    }

    /** The branch of wakeup's loop for a sleeper on the event. */
    method Rouse(p: nat, ghost tmp: int, ghost rest: seq<nat>)
      requires Draining(tmp, rest) && p < NPROCS && Nowhere([run, sleep, free, rest], p)
      modifies `runnablequeue, `run, procs
      ensures Draining(tmp, rest) && Pids(Pr(old(Infos(procs[..]))), old(run))
      ensures run == Insert(Pr(old(Infos(procs[..]))), old(run), p)
      ensures Infos(procs[..]) == old(Infos(procs[..]))[p := old(procs[p].info).(state := RUNNABLE)]
    {
      hide Lists;
      hide Insert;
      hide Linked;
      hide Elsewhere;
      hide Nowhere;
      ghost var t, hs, qs := procs[..], [runnablequeue, sleepqueue, freequeue, tmp], [run, sleep, free, rest];
      procs[p] := procs[p].(info := procs[p].info.(state := RUNNABLE));
      assert procs[..] == t[p := t[p].(info := t[p].info.(state := RUNNABLE))];
      InfoSet(t, p, t[p].info.(state := RUNNABLE));
      SamePr(Infos(t), Infos(procs[..]));
      ListsAt(Nexts(t), hs, qs, 0);
      NowhereAt(qs, p, 0);
      runnablequeue := Enqueue(runnablequeue, p, run);
      ListsInsert(Nexts(t), Nexts(procs[..]), hs, qs, 0, p, runnablequeue, Pr(Infos(t)));
      run := Insert(Pr(Infos(t)), run, p);
      assert [runnablequeue, sleepqueue, freequeue, tmp] == hs[0 := runnablequeue];
      assert [run, sleep, free, rest] == qs[0 := run];
    }

    /** The branch of wakeup's loop for any other sleeper. */
    method SetAside(p: nat, tmp: int, ghost rest: seq<nat>) returns (tmp': int)
      requires Draining(tmp, rest) && p < NPROCS && Nowhere([run, sleep, free, rest], p)
      modifies procs
      ensures Pids(Pr(old(Infos(procs[..]))), rest) && Draining(tmp', Insert(Pr(old(Infos(procs[..]))), rest, p))
      ensures Infos(procs[..]) == old(Infos(procs[..]))
    {
      hide Lists;
      hide Insert;
      hide Linked;
      hide Elsewhere;
      hide Nowhere;
      ghost var t, hs, qs := procs[..], [runnablequeue, sleepqueue, freequeue, tmp], [run, sleep, free, rest];
      ListsAt(Nexts(t), hs, qs, 3);
      NowhereAt(qs, p, 3);
      tmp' := Enqueue(tmp, p, rest);
      ListsInsert(Nexts(t), Nexts(procs[..]), hs, qs, 3, p, tmp', Pr(Infos(t)));
      ghost var rest' := Insert(Pr(Infos(t)), rest, p);
      assert [runnablequeue, sleepqueue, freequeue, tmp'] == hs[3 := tmp'];
      assert [run, sleep, free, rest'] == qs[3 := rest'];
    }

    /** dequeue(&sleepqueue) */
    method NextSleeper(ghost tmp: int, ghost rest: seq<nat>) returns (p: nat)
      requires Draining(tmp, rest) && sleepqueue != -1
      modifies `sleepqueue, `sleep
      ensures old(sleep) != [] && p == old(sleep)[0] && p < NPROCS && sleep == old(sleep)[1..]
      ensures Draining(tmp, rest) && Nowhere([run, sleep, free, rest], p)
    {
      hide Lists;
      hide Nowhere;
      ghost var hs, qs := [runnablequeue, sleepqueue, freequeue, tmp], [run, sleep, free, rest];
      ListsAt(Nexts(procs[..]), hs, qs, 1);
      ListsPop(Nexts(procs[..]), hs, qs, 1);
      p := sleepqueue;
      sleepqueue := procs[p].next;
      sleep := sleep[1..];
      assert [runnablequeue, sleepqueue, freequeue, tmp] == hs[1 := sleepqueue];
      assert [run, sleep, free, rest] == qs[1 := sleep];
    }

    /** wakeup(event) */
    method Wakeup(event: Addr)
      requires Valid() && Shape(Abs())
      modifies `runnablequeue, `run, `sleepqueue, `sleep, procs
      ensures Valid() && Abs() == ProcSpec.Wakeup(old(Abs()), event)
      ensures SortedOk(old(Abs())) ==> Roused(old(Abs()), event, Abs())
    {
      hide SortedOk;
      hide Roused;
      hide Lists;
      hide Insert;
      hide Nowhere;
      hide Half;
      hide On;
      hide Drain;
      hide Pr;
      ghost var k := Abs();
      HalfStart(k, event);
      ghost var pr, on := Pr(k.procs), On(k, event);
      var tmp := -1;
      ghost var rest: seq<nat> := [];
      ListsMore(Nexts(procs[..]), runnablequeue, sleepqueue, freequeue, run, sleep, free);
      while sleepqueue != -1
        invariant Draining(tmp, rest)
        invariant Pids(pr, run) && Pids(pr, sleep) && Pids(pr, rest) && (forall x :: x in sleep ==> x in k.sleep)
        invariant Drain(pr, on, sleep, run, rest) == Drain(pr, on, k.sleep, k.run, [])
        invariant Half(k, Infos(procs[..]), on, sleep)
        decreases |sleep|
      {
        ghost var s0 := sleep;
        var p := NextSleeper(tmp, rest);
        assert s0 == [p] + sleep && p in s0;
        NowhereAt([run, sleep, free, rest], p, 1);
        HalfStep(k, Infos(procs[..]), event, s0);
        if procs[p].info.event == event {
          InsertPids(pr, run, p);
          DrainFirst(pr, on, s0, run, rest);
          Rouse(p, tmp, rest);
        } else {
          InsertPids(pr, rest, p);
          DrainFirst(pr, on, s0, run, rest);
          tmp := SetAside(p, tmp, rest);
          rest := Insert(pr, rest, p);
        }
      }
      ListsAt(Nexts(procs[..]), [runnablequeue, sleepqueue, freequeue, tmp], [run, sleep, free, rest], 1);
      ListsLess(Nexts(procs[..]), runnablequeue, sleepqueue, freequeue, tmp, run, free, rest);
      DrainNone(pr, on, run, rest);
      sleepqueue := tmp;
      sleep := rest;
      HalfDone(k, Infos(procs[..]), event, run, rest);
      Rouses(k, event);
    }

    /** kexit's loop over the children: how many were handed to init. */
    method Reparent() returns (orphans: nat)
      requires Valid() && Shape(Abs())
      modifies procs
      ensures Nexts(procs[..]) == old(Nexts(procs[..]))
      ensures forall i :: 0 <= i < NPROCS ==>
                procs[i].info == if IsOrphan(old(Abs()), i) then old(procs[i].info).(ppid := 1, parent := Addr.Proc(1))
                                 else old(procs[i].info)
      ensures orphans > 0 <==> exists i :: 0 <= i < NPROCS && IsOrphan(old(Abs()), i)
    {
      ghost var k := Abs();
      orphans := 0;
      for i := 2 to NPROCS
        invariant forall j :: 0 <= j < NPROCS ==> procs[j].next == old(procs[j].next)
        invariant forall j :: 0 <= j < NPROCS ==>
                    procs[j].info == if j < i && IsOrphan(k, j) then k.procs[j].(ppid := 1, parent := Addr.Proc(1)) else k.procs[j]
        invariant orphans > 0 <==> exists j :: 0 <= j < i && IsOrphan(k, j)
      {
        if procs[i].info.state != UNUSED && procs[i].info.ppid == currProc {
          procs[i] := procs[i].(info := procs[i].info.(ppid := 1));
          procs[i] := procs[i].(info := procs[i].info.(parent := Addr.Proc(1)));
          orphans := orphans + 1;
          assert IsOrphan(k, i);
        }
      }
    }

    /** kexit up to the first wakeup: the children handed over, the process a zombie. */
    method Die(value: int) returns (orphans: nat)
      requires Valid() && Shape(Abs())
      modifies procs
      ensures Valid() && Zombified(old(Abs()), Abs(), value)
      ensures orphans > 0 <==> exists i :: 0 <= i < NPROCS && IsOrphan(old(Abs()), i)
    {
      hide Lists;
      ghost var k := Abs();
      orphans := Reparent();
      ghost var t := procs[..];
      procs[currProc] := procs[currProc].(info := procs[currProc].info.(exitcode := value));
      procs[currProc] := procs[currProc].(info := procs[currProc].info.(state := ZOMBIE));
      ghost var dead := t[currProc].info.(exitcode := value, state := ZOMBIE);
      assert procs[..] == t[currProc := t[currProc].(info := dead)];
      InfoSet(t, currProc, dead);
      hide IsOrphan;
      DiePids(k, Abs());
    }

    /** kexit(value), without the closing of the descriptors */
    method KExit(value: int)
      requires Valid() && Inv(Abs()) && Enabled(Abs(), Exit(value))
      modifies this, procs
      ensures Valid() && CanSwitch(old(Abs())) && Abs() == Step(old(Abs()), Exit(value)).0
      ensures if old(currProc) == 1 then Abs() == old(Abs()) else Departed(old(Abs()), value, Abs())
    {
      ExitMeans(Abs(), value);
      hide Departed;
      hide Dispatched;
      hide Roused;
      hide Lists;
      hide Leave;
      hide Zombified;
      hide IsOrphan;
      hide Nexts;
      hide Infos;
      hide Distinct;
      hide FamilyOk;
      hide WaitersOk;
      hide SortedOk;
      hide ProcSpec.Wakeup;
      hide ProcSpec.Scheduler;
      ghost var k := Abs();
      ZeroQueued(k);
      if currProc == 1 {
        return;
      }
      LeaveKeeps(k, value);
      ghost var k1, k2 := LeaveParts(k, value);
      var orphans := Die(value);
      ZombifiedOne(k, k1, Abs(), value);
      ZombifiedParent(k, k1, value);
      Wakeup(procs[currProc].info.parent);
      if orphans > 0 {
        Wakeup(Addr.Proc(1));
      }
      assert Abs() == Leave(k, value);
      Scheduler();
    }

    /** One turn of kwait's loop: reap the first zombie child, or sleep and switch (pid -1). */
    method WaitTurn() returns (pid: int, status: int)
      requires Valid() && Inv(Abs()) && currProc != 0 && HasChild(Abs(), currProc)
      modifies this, procs
      ensures Valid() && CanSwitch(old(Abs())) && Abs() == WaitLoop(old(Abs())).0 && pid >= -1
      ensures WaitLoop(old(Abs())).1 == if pid < 0 then Silent else Reaped(pid, old(currProc), status)
    {
      hide Lists;
      hide Nowhere;
      hide SortedOk;
      hide FamilyOk;
      hide WaitersOk;
      hide HasChild;
      hide Distinct;
      hide ProcSpec.Scheduler;
      hide ProcSpec.FallAsleep;
      ghost var k := Abs();
      ZeroQueued(k);
      for i := 2 to NPROCS
        invariant Valid() && Abs() == k
        invariant forall j :: 2 <= j < i ==> !IsDeadChild(k, j)
      {
        if procs[i].info.state == ZOMBIE && procs[i].info.ppid == currProc {
          ScanIs(k, i);
          pid, status := Collect(i);
          return;
        }
      }
      ScanIs(k, NPROCS);
      pid, status := -1, 0;
      ghost var t := procs[..];
      procs[currProc] := procs[currProc].(info := procs[currProc].info.(inWait := true));
      assert procs[..] == t[currProc := t[currProc].(info := t[currProc].info.(inWait := true))];
      InfoSet(t, currProc, t[currProc].info.(inWait := true));
      WaitingOk(k, Abs());
      Sleep(Addr.Proc(currProc));
    }

    /** The part of kwait that collects the zombie in slot c. */
    method Collect(c: nat) returns (pid: int, status: int)
      requires Valid() && QueuesOk(Abs()) && c < NPROCS && c != currProc && IsDeadChild(Abs(), c)
      modifies this, procs
      ensures Valid() && Abs() == Reap(old(Abs()), c) && pid == c && status == old(Abs()).procs[c].exitcode
    {
      hide Lists;
      ghost var t := procs[..];
      ZombieNowhere(Abs(), c);
      status := procs[c].info.exitcode;
      procs[c] := procs[c].(info := procs[c].info.(state := UNUSED));
      assert procs[..] == t[c := t[c].(info := t[c].info.(state := UNUSED))];
      InfoSet(t, c, t[c].info.(state := UNUSED));
      DallocProc(c);
      ghost var u := procs[..];
      procs[currProc] := procs[currProc].(info := procs[currProc].info.(inWait := false));
      assert procs[..] == u[currProc := u[currProc].(info := u[currProc].info.(inWait := false))];
      InfoSet(u, currProc, u[currProc].info.(inWait := false));
      assert Abs().procs == Reap(old(Abs()), c).procs;
      pid := c;
    }

    /** kwait(status) up to its return or its first switch; Resume is the loop going on after a switch. */
    method KWait() returns (pid: int, status: int)
      requires Valid() && Inv(Abs()) && Enabled(Abs(), Wait)
      modifies this, procs
      ensures Valid() && CanSwitch(old(Abs())) && Abs() == Step(old(Abs()), Wait).0
      ensures Step(old(Abs()), Wait).1 == if pid < 0 then Silent else Reaped(pid, old(currProc), status)
      ensures Waited(old(Abs()), Abs(), pid, status)
    {
      hide Step;
      hide Waited;
      hide Inv;
      hide Enabled;
      hide Lists;
      hide QueuesOk;
      hide SortedOk;
      hide FamilyOk;
      hide WaitersOk;
      hide WaitLoop;
      ghost var k := Abs();
      WaitReady(k, Wait);
      StepIs(k, 0);
      var child := 0;
      for i := 1 to NPROCS
        invariant child > 0 <==> exists j :: 1 <= j < i && IsChild(k, j, k.curr)
      {
        if procs[i].info.state != UNUSED && procs[i].info.ppid == currProc {
          child := child + 1;
          assert IsChild(k, i, k.curr);
        }
      }
      pid, status := -1, 0;
      if child > 0 {
        ChildFound(k);
        pid, status := WaitTurn();
      }
      WaitReturns(k, Abs(), pid, status);
    }

    method KWaitResumed() returns (pid: int, status: int)
      requires Valid() && Inv(Abs()) && Enabled(Abs(), Resume)
      modifies this, procs
      ensures Valid() && CanSwitch(old(Abs())) && Abs() == Step(old(Abs()), Resume).0
      ensures Step(old(Abs()), Resume).1 == if pid < 0 then Silent else Reaped(pid, old(currProc), status)
      ensures WaitedOn(old(Abs()), Abs(), pid, status)
    {
      hide WaitedOn;
      hide Step;
      hide Inv;
      hide Lists;
      hide WaitLoop;
      hide QueuesOk;
      hide SortedOk;
      hide FamilyOk;
      hide WaitersOk;
      hide HasChild;
      hide Enabled;
      ghost var k := Abs();
      WaitReady(k, Resume);
      StepIs(k, 0);
      WaiterHasChild(k);
      pid, status := WaitTurn();
      ResumeReturns(k, Abs(), pid, status);
    }

    /** kfork(), with the outcome of copyuvm given */
    method KFork(copied: bool) returns (pid: int)
      requires Valid() && Inv(Abs()) && Enabled(Abs(), Fork(copied))
      modifies this, procs
      ensures Valid() && CanSwitch(old(Abs())) && Abs() == Step(old(Abs()), Fork(copied)).0
      ensures Step(old(Abs()), Fork(copied)).1 == if pid < 0 then Silent else Forked(pid, old(currProc))
      ensures pid >= 0 <==> copied && old(free) != []
      ensures if pid >= 0 then Spawned(old(Abs()), pid, Abs()) else pid == -1 && Abs() == old(Abs())
    {
      ForkMeans(Abs(), copied);
      hide Spawned;
      hide Lists;
      hide Nowhere;
      hide Insert;
      hide Linked;
      hide Elsewhere;
      hide Distinct;
      hide SortedOk;
      hide FamilyOk;
      hide WaitersOk;
      ghost var k := Abs();
      ZeroQueued(k);
      var np := AllocProc();
      if np == -1 {
        return -1;
      }
      if !copied {
        DallocProc(np);
        assert k.free == [k.free[0]] + k.free[1..] == free;
        return -1;
      }
      Populate(np);
      return np;
    }

    /** The new slot filled in from the current process and queued. */
    method Populate(np: nat)
      requires Valid() && Shape(Abs()) && np < NPROCS && np != currProc && Nowhere([run, sleep, free], np)
      modifies this, procs
      ensures Valid()
      ensures var k, ps := old(Abs()), Fathered(old(Abs()), np);
              && Pids(Pr(ps), k.run) && Abs() == k.(procs := ps, run := Insert(Pr(ps), k.run, np))
    {
      hide Lists;
      hide Nowhere;
      hide Insert;
      hide Linked;
      hide Elsewhere;
      ghost var k, t, hs, qs := Abs(), procs[..], [runnablequeue, sleepqueue, freequeue], [run, sleep, free];
      procs[np] := procs[np].(info := procs[np].info.(state := RUNNABLE));
      procs[np] := procs[np].(info := procs[np].info.(parent := Addr.Proc(currProc)));
      procs[np] := procs[np].(info := procs[np].info.(priority := procs[currProc].info.priority));
      procs[np] := procs[np].(info := procs[np].info.(ppid := currProc, inWait := false));
      ghost var child := Fathered(k, np)[np];
      assert procs[..] == t[np := t[np].(info := child)];
      InfoSet(t, np, child);
      ListsAt(Nexts(t), hs, qs, 0);
      NowhereAt(qs, np, 0);
      runnablequeue := Enqueue(runnablequeue, np, run);
      ListsInsert(Nexts(t), Nexts(procs[..]), hs, qs, 0, np, runnablequeue, Pr(Fathered(k, np)));
      run := Insert(Pr(Fathered(k, np)), run, np);
      assert [runnablequeue, sleepqueue, freequeue] == hs[0 := runnablequeue] && [run, sleep, free] == qs[0 := run];
    }

    /** start_init_process, the image and the memory of init left out */
    method StartInit()
      requires Valid() && Shape(Abs()) && free != [] && currProc !in free
      modifies this, procs
      ensures Valid() && Abs() == Runs.StartInit(old(Abs()))
    {
      hide Lists;
      hide Nowhere;
      hide Insert;
      hide Linked;
      hide Elsewhere;
      ghost var k := Abs();
      var np := AllocProc();
      ghost var t, hs, qs := procs[..], [runnablequeue, sleepqueue, freequeue], [run, sleep, free];
      procs[np] := procs[np].(info := procs[np].info.(state := RUNNABLE, priority := 1));
      procs[np] := procs[np].(info := procs[np].info.(parent := Addr.Proc(currProc), ppid := currProc));
      ghost var init := t[np].info.(state := RUNNABLE, priority := 1, parent := Addr.Proc(currProc), ppid := currProc);
      assert procs[..] == t[np := t[np].(info := init)];
      InfoSet(t, np, init);
      ghost var pr := Pr(Infos(procs[..]));
      ListsAt(Nexts(t), hs, qs, 0);
      NowhereAt(qs, np, 0);
      runnablequeue := Enqueue(runnablequeue, np, run);
      ListsInsert(Nexts(t), Nexts(procs[..]), hs, qs, 0, np, runnablequeue, pr);
      run := Insert(pr, run, np);
      assert [runnablequeue, sleepqueue, freequeue] == hs[0 := runnablequeue] && [run, sleep, free] == qs[0 := run];
    }

    /** kmain from the initialised table to its switch_context */
    method KMain()
      requires Valid() && Abs() == Runs.OsInit()
      modifies this, procs
      ensures Valid() && Abs() == Runs.Boot()
    {
      hide Lists;
      hide Runs.StartInit;
      Runs.Started();
      StartInit();
      Scheduler();
    }
  }

  /** The table with slot np filled in as a child of the current process. */
  function Fathered(k: Kern, np: nat): (r: seq<PInfo>)
    requires Shape(k) && np < NPROCS
    ensures |r| == NPROCS
  {
    k.procs[np := k.procs[np].(state := RUNNABLE, parent := Addr.Proc(k.curr),
                               priority := k.procs[k.curr].priority, ppid := k.curr, inWait := false)]
  }

  lemma ScanIs(k: Kern, c: nat)
    requires Shape(k) && 2 <= c <= NPROCS && (c < NPROCS ==> IsDeadChild(k, c))
    requires forall j :: 2 <= j < c ==> !IsDeadChild(k, j)
    ensures ScanFrom(k, 2) == c
  {
    hide IsDeadChild;
  }

  lemma ZombieNowhere(k: Kern, c: nat)
    requires QueuesOk(k) && c < NPROCS && k.procs[c].state == ZOMBIE
    ensures Nowhere([k.run, k.sleep, k.free], c)
  {
  }

  lemma WaitingOk(k: Kern, r: Kern)
    requires QueuesOk(k) && SortedOk(k) && |r.procs| == NPROCS
    requires r == k.(procs := k.procs[k.curr := k.procs[k.curr].(inWait := true)])
    ensures QueuesOk(r) && SortedOk(r)
  {
    SamePr(k.procs, r.procs);
  }

  lemma WaiterHasChild(k: Kern)
    requires Inv(k) && k.procs[k.curr].inWait
    ensures HasChild(k, k.curr)
  {
  }

  lemma DiePids(k: Kern, k1: Kern)
    requires Shape(k) && k1 == k.(procs := k1.procs) && |k1.procs| == NPROCS
    ensures Shape(k1)
  {
  }

  lemma ZombifiedOne(k: Kern, a: Kern, b: Kern, value: int)
    requires Shape(k) && Zombified(k, a, value) && Zombified(k, b, value)
    ensures a == b
  {
    assert a.procs == b.procs;
  }

  lemma ZombifiedParent(k: Kern, k1: Kern, value: int)
    requires Shape(k) && Inv(k) && k.curr != 0 && k.curr != 1 && !k.procs[k.curr].inWait && Zombified(k, k1, value)
    ensures k1.curr == k.curr && Shape(k1) && k1.procs[k.curr].parent == Addr.Proc(k.procs[k.curr].ppid)
  {
    ZombifiedFamilies(k, k1, value);
  }

  /** The table halfway through wakeup, with q still to be drained. */
  ghost predicate Half(k: Kern, ps: seq<PInfo>, on: set<nat>, q: seq<nat>)
    requires Shape(k)
  {
    |ps| == NPROCS && forall i: nat :: i < NPROCS ==>
      ps[i] == if i in on && i !in q then k.procs[i].(state := RUNNABLE) else k.procs[i]
  }

  lemma HalfStart(k: Kern, e: Addr)
    requires Shape(k)
    ensures Half(k, k.procs, On(k, e), k.sleep)
  {
  }

  lemma HalfDone(k: Kern, ps: seq<PInfo>, e: Addr, run: seq<nat>, rest: seq<nat>)
    requires Shape(k) && Half(k, ps, On(k, e), []) && (run, rest) == Drain(Pr(k.procs), On(k, e), k.sleep, k.run, [])
    ensures k.(procs := ps, run := run, sleep := rest) == Wakeup(k, e)
  {
    hide Drain;
    assert ps == Wakeup(k, e).procs;
  }

  lemma DrainNone(pr: seq<int>, on: set<nat>, run: seq<nat>, rest: seq<nat>)
    requires Pids(pr, run) && Pids(pr, rest)
    ensures Drain(pr, on, [], run, rest) == (run, rest)
  {
  }

  lemma DrainFirst(pr: seq<int>, on: set<nat>, s: seq<nat>, run: seq<nat>, rest: seq<nat>)
    requires Pids(pr, s) && Pids(pr, run) && Pids(pr, rest) && s != []
    ensures Pids(pr, Insert(pr, run, s[0])) && Pids(pr, Insert(pr, rest, s[0]))
    ensures Drain(pr, on, s, run, rest) == if s[0] in on then Drain(pr, on, s[1..], Insert(pr, run, s[0]), rest)
                                           else Drain(pr, on, s[1..], run, Insert(pr, rest, s[0]))
  {
    InsertPids(pr, run, s[0]);
    InsertPids(pr, rest, s[0]);
  }

  lemma HalfStep(k: Kern, ps: seq<PInfo>, e: Addr, q: seq<nat>)
    requires Shape(k) && Half(k, ps, On(k, e), q) && q != [] && q[0] in k.sleep && q[0] < NPROCS && q[0] !in q[1..]
    ensures Pr(ps) == Pr(k.procs) && (ps[q[0]].event == e <==> q[0] in On(k, e))
    ensures if q[0] in On(k, e) then Half(k, ps[q[0] := ps[q[0]].(state := RUNNABLE)], On(k, e), q[1..])
            else Half(k, ps, On(k, e), q[1..])
  {
    assert q == [q[0]] + q[1..];
  }
}
