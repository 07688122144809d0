/** What every step of the process table keeps: queues, families and waiting parents. */
module ProcInvariant {
  import opened ProcQueue
  import opened ProcSpec

  /** Every slot is in the one place its state names: the queues are disjoint and cover what they should.
      A process that is neither queued nor free is the current one or a zombie. */
  ghost predicate QueuesOk(k: Kern) {
    && Shape(k)
    && Distinct(k.run) && Distinct(k.sleep) && Distinct(k.free)
    && (forall p: nat :: p < NPROCS ==> (p in k.run <==> k.procs[p].state == RUNNABLE && p != k.curr))
    && (forall p: nat :: p < NPROCS ==> (p in k.sleep <==> k.procs[p].state == SLEEPING))
    && (forall p: nat :: p < NPROCS ==> (p in k.free <==> k.procs[p].state == UNUSED))
  }

  ghost predicate SortedOk(k: Kern)
    requires Shape(k)
  {
    Sorted(Pr(k.procs), k.run) && Sorted(Pr(k.procs), k.sleep)
  }

  predicate Alive(p: PInfo) {
    p.state == RUNNABLE || p.state == SLEEPING
  }

  /** Process 0 stays runnable at the lowest priority; init lives; every other process has a living parent. */
  ghost predicate FamilyOk(k: Kern)
    requires Shape(k)
  {
    && k.procs[0].state == RUNNABLE && k.procs[0].priority == 0
    && Alive(k.procs[1]) && k.procs[1].ppid == 0
    && (forall p: nat :: 1 <= p < NPROCS && k.procs[p].state != UNUSED ==> k.procs[p].priority >= 1)
    && (forall p: nat :: 2 <= p < NPROCS && k.procs[p].state != UNUSED ==>
          && 1 <= k.procs[p].ppid < NPROCS && k.procs[p].ppid != p
          && k.procs[p].parent == Proc(k.procs[p].ppid)
          && Alive(k.procs[k.procs[p].ppid]))
  }

  ghost predicate HasChild(k: Kern, p: nat)
    requires Shape(k)
  {
    exists c: nat :: 2 <= c < NPROCS && IsChild(k, c, p)
  }

  predicate HasDeadChild(k: Kern, p: nat)
    requires Shape(k)
  {
    exists c: nat :: 2 <= c < NPROCS && k.procs[c].state == ZOMBIE && k.procs[c].ppid == p
  }

  /** Who is in kwait's loop has a child, and sleeps there only while no child is a zombie. */
  ghost predicate WaitersOk(k: Kern)
    requires Shape(k)
  {
    && (forall p: nat :: p < NPROCS && k.procs[p].inWait ==> p >= 1 && Alive(k.procs[p]) && HasChild(k, p))
    && (forall p: nat :: p < NPROCS && k.procs[p].state == SLEEPING && k.procs[p].inWait ==>
          k.procs[p].event == Proc(p) && !HasDeadChild(k, p))
    && (forall p: nat :: p < NPROCS && k.procs[p].state == SLEEPING && k.procs[p].event.Proc? ==>
          k.procs[p].inWait && k.procs[p].event == Proc(p))
  }

  ghost predicate Inv(k: Kern) {
    && QueuesOk(k) && SortedOk(k) && FamilyOk(k) && WaitersOk(k)
    && k.procs[k.curr].state == RUNNABLE
    && (k.curr == 0 ==> k.run == [])
  }

  // ---------------------------------------------------------------------------------------------
  // The pieces

  lemma SamePr(a: seq<PInfo>, b: seq<PInfo>)
    requires |a| == |b| && forall i :: 0 <= i < |a| ==> a[i].priority == b[i].priority
    ensures Pr(a) == Pr(b)
  {
  }

  lemma {:induction false} DrainOrder(pr: seq<int>, on: set<nat>, s: seq<nat>, run: seq<nat>, rest: seq<nat>)
    requires Pids(pr, s) && Pids(pr, run) && Pids(pr, rest)
    requires Sorted(pr, run) && Sorted(pr, rest) && Distinct(s) && Distinct(run) && Distinct(rest)
    requires forall x :: x in s ==> x !in run && x !in rest
    ensures var d := Drain(pr, on, s, run, rest);
            Sorted(pr, d.0) && Sorted(pr, d.1) && Distinct(d.0) && Distinct(d.1)
    decreases |s|
  {
    if s != [] {
      var p := s[0];
      InsertPids(pr, run, p);
      InsertPids(pr, rest, p);
      InsertStable(pr, run, p);
      InsertStable(pr, rest, p);
      InsertDistinct(pr, run, p);
      InsertDistinct(pr, rest, p);
      assert forall x :: x in s <==> x == p || x in s[1..];
      hide Insert;
      hide Sorted;
      if p in on {
        DrainOrder(pr, on, s[1..], Insert(pr, run, p), rest);
      } else {
        DrainOrder(pr, on, s[1..], run, Insert(pr, rest, p));
      }
    }
  }

  lemma WakeupProcs(k: Kern, e: Addr)
    requires QueuesOk(k)
    ensures forall i :: 0 <= i < NPROCS ==>
              Wakeup(k, e).procs[i] == if k.procs[i].state == SLEEPING && k.procs[i].event == e
                                       then k.procs[i].(state := RUNNABLE) else k.procs[i]
  {
    hide Drain;
    hide Distinct;
  }

  lemma WakeupOk(k: Kern, e: Addr)
    requires QueuesOk(k) && SortedOk(k) && k.procs[k.curr].state != SLEEPING
    ensures var r := Wakeup(k, e);
            QueuesOk(r) && SortedOk(r) && r.curr == k.curr && r.free == k.free && Woken(k, r, e)
  {
    var r, pr := Wakeup(k, e), Pr(k.procs);
    var on := On(k, e);
    WakeupProcs(k, e);
    SamePr(k.procs, r.procs);
    DrainKeeps(pr, on, k.sleep, k.run, []);
    DrainOrder(pr, on, k.sleep, k.run, []);
    assert (r.run, r.sleep) == Drain(pr, on, k.sleep, k.run, []);
    hide Drain;
    hide Wakeup;
    hide Pr;
    hide Sorted;
    hide Distinct;
    WakeupPlaces(k, e, r, on);
  }

  lemma WakeupPlaces(k: Kern, e: Addr, r: Kern, on: set<nat>)
    requires QueuesOk(k) && k.procs[k.curr].state != SLEEPING
    requires Shape(r) && r.curr == k.curr && r.free == k.free && on == On(k, e)
    requires forall i :: 0 <= i < NPROCS ==>
               r.procs[i] == if k.procs[i].state == SLEEPING && k.procs[i].event == e
                             then k.procs[i].(state := RUNNABLE) else k.procs[i]
    requires forall x :: x in r.run <==> x in k.run || (x in k.sleep && x in on)
    requires forall x :: x in r.sleep <==> x in k.sleep && x !in on
    requires Distinct(r.run) && Distinct(r.sleep)
    ensures QueuesOk(r)
  {
    hide Distinct;
  }

  lemma TailFacts(pr: seq<int>, q: seq<nat>)
    requires Pids(pr, q) && q != [] && Distinct(q) && Sorted(pr, q)
    ensures Pids(pr, q[1..]) && Distinct(q[1..]) && Sorted(pr, q[1..])
    ensures q[0] !in q[1..] && forall x :: x in q <==> x == q[0] || x in q[1..]
  {
    assert q == [q[0]] + q[1..];
  }

  lemma SchedulerOk(k: Kern)
    requires QueuesOk(k) && SortedOk(k) && (k.procs[k.curr].state == RUNNABLE || k.run != [])
    ensures var r := Scheduler(k);
            QueuesOk(r) && SortedOk(r) && r.procs == k.procs && r.free == k.free && r.procs[r.curr].state == RUNNABLE
  {
    hide Insert;
    hide Sorted;
    hide Distinct;
    var pr, r := Pr(k.procs), Scheduler(k);
    var run := if k.procs[k.curr].state == RUNNABLE then Insert(pr, k.run, k.curr) else k.run;
    if k.procs[k.curr].state == RUNNABLE {
      InsertPids(pr, k.run, k.curr);
      InsertStable(pr, k.run, k.curr);
      InsertDistinct(pr, k.run, k.curr);
    }
    TailFacts(pr, run);
    assert run[0] in run;
    hide Scheduler;
    hide Pids;
    hide Pr;
    SchedulerPlaces(k, r, run);
  }

  lemma SchedulerPlaces(k: Kern, r: Kern, run: seq<nat>)
    requires QueuesOk(k) && Shape(r) && run != [] && r == k.(curr := run[0], run := run[1..])
    requires forall x :: x in run <==> x in k.run || (k.procs[k.curr].state == RUNNABLE && x == k.curr)
    requires Distinct(r.run) && r.curr !in r.run && forall x :: x in run <==> x == r.curr || x in r.run
    ensures QueuesOk(r) && r.procs[r.curr].state == RUNNABLE
  {
    hide Distinct;
    assert r.curr in run;
  }

  /** Process 0, of the lowest priority, comes up only when the queue holds nobody else. */
  lemma SchedulerIdle(k: Kern)
    requires QueuesOk(k) && SortedOk(k) && FamilyOk(k) && k.curr != 0
    requires k.procs[k.curr].state == RUNNABLE || k.run != []
    ensures Scheduler(k).curr == 0 ==> Scheduler(k).run == []
  {
    SchedulerOk(k);
    var pr := Pr(k.procs);
    var run := if k.procs[k.curr].state == RUNNABLE then Insert(pr, k.run, k.curr) else k.run;
    if k.procs[k.curr].state == RUNNABLE {
      InsertStable(pr, k.run, k.curr);
    }
    hide Insert;
    var r := Scheduler(k);
    if r.run != [] {
      assert run[1] == r.run[0] && r.run[0] in r.run;
      assert pr[run[0]] >= pr[run[1]];
      assert r.run[0] != 0 ==> k.procs[r.run[0]].priority >= 1;
    }
  }

  lemma FallAsleepOk(k: Kern, event: Addr)
    requires QueuesOk(k) && SortedOk(k) && k.procs[k.curr].state == RUNNABLE
    ensures var r := FallAsleep(k, event);
            && QueuesOk(r) && SortedOk(r) && r.curr == k.curr && r.run == k.run && r.free == k.free
            && r.procs == k.procs[k.curr := k.procs[k.curr].(event := event, state := SLEEPING)]
  {
    var pr, r := Pr(k.procs), FallAsleep(k, event);
    InsertPids(pr, k.sleep, k.curr);
    InsertStable(pr, k.sleep, k.curr);
    InsertDistinct(pr, k.sleep, k.curr);
    SamePr(k.procs, r.procs);
    hide Insert;
    hide Sorted;
  }

  lemma SpawnOk(k: Kern)
    requires QueuesOk(k) && SortedOk(k) && k.free != [] && k.procs[k.curr].state == RUNNABLE
    ensures var r := Spawn(k);
            && QueuesOk(r) && SortedOk(r) && r.curr == k.curr
            && k.free[0] < NPROCS && k.procs[k.free[0]].state == UNUSED
            && forall i :: 0 <= i < NPROCS && i != k.free[0] ==> r.procs[i] == k.procs[i]
  {
    hide Insert;
    var r, np := Spawn(k), k.free[0];
    var pr := Pr(r.procs);
    assert np in k.free && np !in k.run && np !in k.sleep;
    OtherPriority(Pr(k.procs), pr, k.run, np);
    OtherPriority(Pr(k.procs), pr, k.sleep, np);
    FreeTail(k.free);
    hide Sorted;
    hide Distinct;
    InsertPids(pr, k.run, np);
    InsertStable(pr, k.run, np);
    InsertDistinct(pr, k.run, np);
    hide Spawn;
    hide Pids;
    hide Pr;
    SpawnPlaces(k, r, np);
  }

  lemma SpawnPlaces(k: Kern, r: Kern, np: nat)
    requires QueuesOk(k) && Shape(r) && np < NPROCS && k.procs[np].state == UNUSED && k.procs[k.curr].state == RUNNABLE
    requires r.curr == k.curr && r.sleep == k.sleep && r.procs[np].state == RUNNABLE
    requires forall i :: 0 <= i < NPROCS && i != np ==> r.procs[i] == k.procs[i]
    requires forall x :: x in r.run <==> x == np || x in k.run
    requires np !in r.free && forall x :: x in k.free <==> x == np || x in r.free
    requires Distinct(r.run) && Distinct(r.free)
    ensures QueuesOk(r)
  {
    hide Distinct;
  }

  lemma OtherPriority(pr: seq<int>, pr': seq<int>, q: seq<nat>, p: nat)
    requires Pids(pr, q) && |pr'| == |pr| && Sorted(pr, q) && p !in q
    requires forall i :: 0 <= i < |pr| && i != p ==> pr'[i] == pr[i]
    ensures Pids(pr', q) && Sorted(pr', q)
  {
    forall i | 0 <= i < |q| ensures pr'[q[i]] == pr[q[i]] {
      assert q[i] in q;
    }
  }

  lemma FreeTail(q: seq<nat>)
    requires q != [] && Distinct(q)
    ensures Distinct(q[1..]) && q[0] !in q[1..] && forall x :: x in q <==> x == q[0] || x in q[1..]
  {
    assert q == [q[0]] + q[1..];
  }

  lemma ReapOk(k: Kern, c: nat)
    requires QueuesOk(k) && SortedOk(k) && c < NPROCS && k.procs[c].state == ZOMBIE && c != k.curr
    ensures var r := Reap(k, c);
            && QueuesOk(r) && SortedOk(r) && r.curr == k.curr
  {
    var r := Reap(k, c);
    SamePr(k.procs, r.procs);
    hide Sorted;
  }

  // ---------------------------------------------------------------------------------------------
  // The steps

  lemma ZeroQueued(k: Kern)
    requires Inv(k) && k.curr != 0
    ensures CanSwitch(k)
  {
    assert 0 in k.run;
  }

  ghost predicate KeepsChildren(k: Kern, r: Kern, p: nat) {
    forall c: nat :: 2 <= c < NPROCS && IsChild(k, c, p) ==> IsChild(r, c, p)
  }

  ghost predicate NoNewDead(k: Kern, r: Kern, p: nat)
    requires Shape(k) && Shape(r)
  {
    forall c: nat :: 2 <= c < NPROCS && r.procs[c].state == ZOMBIE && r.procs[c].ppid == p ==>
                       k.procs[c].state == ZOMBIE && k.procs[c].ppid == p
  }

  lemma ChildMono(k: Kern, r: Kern, p: nat)
    requires Shape(k) && Shape(r)
    ensures KeepsChildren(k, r, p) && HasChild(k, p) ==> HasChild(r, p)
    ensures NoNewDead(k, r, p) && HasDeadChild(r, p) ==> HasDeadChild(k, p)
  {
    if KeepsChildren(k, r, p) && HasChild(k, p) {
      var c: nat :| 2 <= c < NPROCS && IsChild(k, c, p);
      assert IsChild(r, c, p);
    }
  }

  ghost predicate Families(k: Kern) {
    Shape(k) && FamilyOk(k) && WaitersOk(k) && k.curr != 0 && k.procs[k.curr].state == RUNNABLE
  }

  /** Only the current process changed, from runnable to asleep. */
  lemma SleepFamily(k: Kern, r: Kern, waiting: bool, event: Addr)
    requires Families(k) && Shape(r)
    requires if waiting then event == Proc(k.curr) && HasChild(k, k.curr) && !HasDeadChild(k, k.curr) else event.Pipe?
    requires r.procs == k.procs[k.curr := k.procs[k.curr].(inWait := waiting, event := event, state := SLEEPING)]
    ensures FamilyOk(r) && WaitersOk(r)
  {
    forall p: nat | p < NPROCS
      ensures HasChild(k, p) ==> HasChild(r, p)
      ensures HasDeadChild(r, p) ==> HasDeadChild(k, p)
    {
      ChildMono(k, r, p);
    }
    hide HasChild;
    hide HasDeadChild;
  }

  lemma SleepKeeps(k: Kern, event: Addr, waiting: bool)
    requires Inv(k) && k.curr != 0
    requires if waiting then event == Proc(k.curr) && HasChild(k, k.curr) && !HasDeadChild(k, k.curr) else event.Pipe?
    ensures var k1 := k.(procs := k.procs[k.curr := k.procs[k.curr].(inWait := waiting)]);
            Shape(k1) && FallAsleep(k1, event).run != [] && Inv(Scheduler(FallAsleep(k1, event)))
  {
    hide FallAsleep;
    hide Scheduler;
    hide Sorted;
    hide Distinct;
    hide FamilyOk;
    hide WaitersOk;
    hide HasChild;
    hide HasDeadChild;
    var k1 := k.(procs := k.procs[k.curr := k.procs[k.curr].(inWait := waiting)]);
    ZeroQueued(k);
    SamePr(k.procs, k1.procs);
    FallAsleepOk(k1, event);
    SleepFamily(k, FallAsleep(k1, event), waiting, event);
    SchedulerOk(FallAsleep(k1, event));
    SleepFamily(k, Scheduler(FallAsleep(k1, event)), waiting, event);
    SchedulerIdle(FallAsleep(k1, event));
  }

  /** Only the sleepers on e changed, to runnable. */
  ghost predicate Woken(k: Kern, r: Kern, e: Addr) {
    && Shape(k) && Shape(r)
    && forall i :: 0 <= i < NPROCS ==>
         r.procs[i] == if k.procs[i].state == SLEEPING && k.procs[i].event == e
                       then k.procs[i].(state := RUNNABLE) else k.procs[i]
  }

  lemma WokenFamily(k: Kern, r: Kern, e: Addr)
    requires Woken(k, r, e) && FamilyOk(k)
    ensures FamilyOk(r)
  {
  }

  lemma WokenChildren(k: Kern, r: Kern, e: Addr, p: nat)
    requires Woken(k, r, e) && p < NPROCS
    ensures HasChild(k, p) ==> HasChild(r, p)
    ensures HasDeadChild(r, p) ==> HasDeadChild(k, p)
  {
    ChildMono(k, r, p);
  }

  lemma WakeupKeepsWaiters(k: Kern, r: Kern, e: Addr)
    requires Woken(k, r, e) && WaitersOk(k)
    ensures WaitersOk(r)
  {
    hide HasChild;
    hide HasDeadChild;
    forall p: nat | p < NPROCS
      ensures HasChild(k, p) ==> HasChild(r, p)
      ensures HasDeadChild(r, p) ==> HasDeadChild(k, p)
    {
      WokenChildren(k, r, e, p);
    }
  }

  lemma WakeupKeeps(k: Kern, e: Addr)
    requires Inv(k) && k.curr != 0
    ensures Inv(Wakeup(k, e))
  {
    hide Wakeup;
    hide Sorted;
    hide Distinct;
    hide FamilyOk;
    hide WaitersOk;
    WakeupOk(k, e);
    WokenFamily(k, Wakeup(k, e), e);
    WakeupKeepsWaiters(k, Wakeup(k, e), e);
  }

  lemma SpawnFamily(k: Kern, r: Kern, np: nat)
    requires Families(k) && !k.procs[k.curr].inWait && Shape(r) && 2 <= np < NPROCS && k.procs[np].state == UNUSED
    requires r.procs == k.procs[np := k.procs[np].(state := RUNNABLE, parent := Proc(k.curr),
                                 priority := k.procs[k.curr].priority, ppid := k.curr, inWait := false)]
    ensures FamilyOk(r) && WaitersOk(r)
  {
    forall p: nat | p < NPROCS
      ensures HasChild(k, p) ==> HasChild(r, p)
      ensures HasDeadChild(r, p) ==> HasDeadChild(k, p)
    {
      ChildMono(k, r, p);
    }
    hide HasChild;
    hide HasDeadChild;
  }

  lemma SpawnKeeps(k: Kern)
    requires Inv(k) && k.curr != 0 && !k.procs[k.curr].inWait && k.free != []
    ensures Inv(Spawn(k))
  {
    SpawnOk(k);
    SpawnProcs(k);
    hide Spawn;
    hide Sorted;
    hide Distinct;
    hide WaitersOk;
    SpawnFamily(k, Spawn(k), k.free[0]);
  }

  lemma SpawnProcs(k: Kern)
    requires Shape(k) && k.free != []
    ensures k.free[0] < NPROCS
    ensures Spawn(k).procs == k.procs[k.free[0] := k.procs[k.free[0]].(state := RUNNABLE, parent := Proc(k.curr),
                                      priority := k.procs[k.curr].priority, ppid := k.curr, inWait := false)]
  {
  }

  lemma ReapFamily(k: Kern, r: Kern, c: nat)
    requires Families(k) && Shape(r) && c < NPROCS && IsDeadChild(k, c)
    requires r.procs == k.procs[c := k.procs[c].(state := UNUSED)][k.curr := k.procs[k.curr].(inWait := false)]
    ensures FamilyOk(r) && WaitersOk(r)
  {
    hide HasChild;
    hide HasDeadChild;
    assert c != k.curr;
    forall p: nat | p < NPROCS && p != k.curr
      ensures HasChild(k, p) ==> HasChild(r, p)
      ensures HasDeadChild(r, p) ==> HasDeadChild(k, p)
    {
      ReapChildren(k, r, c, p);
    }
  }

  lemma ReapChildren(k: Kern, r: Kern, c: nat, p: nat)
    requires Shape(k) && Shape(r) && c < NPROCS && IsDeadChild(k, c) && p < NPROCS && p != k.curr && c != k.curr
    requires r.procs == k.procs[c := k.procs[c].(state := UNUSED)][k.curr := k.procs[k.curr].(inWait := false)]
    ensures HasChild(k, p) ==> HasChild(r, p)
    ensures HasDeadChild(r, p) ==> HasDeadChild(k, p)
  {
    ChildMono(k, r, p);
  }

  lemma ReapKeeps(k: Kern, c: nat)
    requires Inv(k) && k.curr != 0 && c < NPROCS && IsDeadChild(k, c)
    ensures Inv(Reap(k, c))
  {
    ReapOk(k, c);
    var r := Reap(k, c);
    assert r.procs == k.procs[c := k.procs[c].(state := UNUSED)][k.curr := k.procs[k.curr].(inWait := false)];
    hide Sorted;
    hide Distinct;
    hide FamilyOk;
    hide WaitersOk;
    ReapFamily(k, r, c);
  }

  // ---------------------------------------------------------------------------------------------
  // kexit: between becoming a zombie and the two wakeups the waiting parents are behind

  /** WaitersOk, except that the processes of late may sleep in kwait although a child is a zombie. */
  ghost predicate WaitersBut(k: Kern, late: set<nat>)
    requires Shape(k)
  {
    && (forall p: nat :: p < NPROCS && k.procs[p].inWait ==> p >= 1 && Alive(k.procs[p]) && HasChild(k, p))
    && (forall p: nat :: p < NPROCS && k.procs[p].state == SLEEPING && k.procs[p].inWait ==>
          k.procs[p].event == Proc(p) && (p in late || !HasDeadChild(k, p)))
    && (forall p: nat :: p < NPROCS && k.procs[p].state == SLEEPING && k.procs[p].event.Proc? ==>
          k.procs[p].inWait && k.procs[p].event == Proc(p))
  }

  lemma WakeLate(k: Kern, r: Kern, x: nat, late: set<nat>)
    requires Woken(k, r, Proc(x)) && WaitersBut(k, late)
    ensures WaitersBut(r, late - {x})
  {
    hide HasChild;
    hide HasDeadChild;
    forall p: nat | p < NPROCS
      ensures HasChild(k, p) ==> HasChild(r, p)
      ensures HasDeadChild(r, p) ==> HasDeadChild(k, p)
    {
      WokenChildren(k, r, Proc(x), p);
    }
  }

  /** The table kexit leaves before it wakes anybody. */
  ghost predicate Zombified(k: Kern, k1: Kern, value: int)
    requires Shape(k)
  {
    && Shape(k1) && k1.run == k.run && k1.sleep == k.sleep && k1.free == k.free && k1.curr == k.curr
    && forall i :: 0 <= i < NPROCS ==>
         var p := if IsOrphan(k, i) then k.procs[i].(ppid := 1, parent := Proc(1)) else k.procs[i];
         k1.procs[i] == if i == k.curr then p.(exitcode := value, state := ZOMBIE) else p
  }

  ghost function Late(k: Kern): set<nat>
    requires Shape(k)
  {
    {k.procs[k.curr].ppid} + if exists i :: 0 <= i < NPROCS && IsOrphan(k, i) then {1} else {}
  }

  lemma ZombifiedQueues(k: Kern, k1: Kern, value: int)
    requires Inv(k) && Zombified(k, k1, value)
    ensures QueuesOk(k1) && SortedOk(k1)
  {
    hide FamilyOk;
    hide WaitersOk;
    hide Sorted;
    hide Distinct;
    SamePr(k.procs, k1.procs);
  }

  lemma ZombifiedFamilies(k: Kern, k1: Kern, value: int)
    requires Families(k) && k.curr != 1 && !k.procs[k.curr].inWait && Zombified(k, k1, value)
    ensures FamilyOk(k1)
    ensures k1.procs[k.curr].parent == Proc(k.procs[k.curr].ppid)
  {
    hide HasChild;
    hide HasDeadChild;
  }

  lemma ZombifiedWaiters(k: Kern, k1: Kern, value: int)
    requires Families(k) && k.curr != 1 && !k.procs[k.curr].inWait && Zombified(k, k1, value)
    ensures WaitersBut(k1, Late(k))
  {
    forall p: nat | p < NPROCS && p != k.curr
      ensures HasChild(k, p) ==> HasChild(k1, p)
      ensures p !in Late(k) && HasDeadChild(k1, p) ==> HasDeadChild(k, p)
    {
      ChildMono(k, k1, p);
      if p !in Late(k) { NoNewDeadBut(k, k1, value, p); }
    }
    hide HasChild;
    hide HasDeadChild;
    hide Late;
    hide IsOrphan;
  }

  lemma NoNewDeadBut(k: Kern, k1: Kern, value: int, p: nat)
    requires Families(k) && Zombified(k, k1, value) && p < NPROCS && p !in Late(k)
    ensures NoNewDead(k, k1, p)
  {
    assert (exists i :: 0 <= i < NPROCS && IsOrphan(k, i)) ==> p != 1;
  }

  /** Between the transition to zombie and the switch: the invariant, but for the waiting parents of late. */
  ghost predicate Leaving(k: Kern, late: set<nat>) {
    QueuesOk(k) && SortedOk(k) && FamilyOk(k) && WaitersBut(k, late) && k.curr != 0 && k.procs[k.curr].state == ZOMBIE
  }

  lemma LeavingStep(k: Kern, x: nat, late: set<nat>)
    requires Leaving(k, late)
    ensures Leaving(Wakeup(k, Proc(x)), late - {x})
  {
    hide Wakeup;
    hide QueuesOk;
    hide SortedOk;
    hide FamilyOk;
    hide WaitersBut;
    LeavingShape(k, late);
    WakeupOk(k, Proc(x));
    WokenFamily(k, Wakeup(k, Proc(x)), Proc(x));
    WakeLate(k, Wakeup(k, Proc(x)), x, late);
  }

  lemma LeavingShape(k: Kern, late: set<nat>)
    requires Leaving(k, late)
    ensures Shape(k) && 0 in k.run
  {
  }

  lemma LeavingDone(k: Kern)
    requires Leaving(k, {})
    ensures Shape(k) && k.run != [] && Inv(Scheduler(k))
  {
    hide Scheduler;
    hide QueuesOk;
    hide SortedOk;
    hide FamilyOk;
    hide WaitersBut;
    hide WaitersOk;
    LeavingShape(k, {});
    SchedulerOk(k);
    SchedulerIdle(k);
    NobodyLate(k);
    SameFamilies(k, Scheduler(k));
  }

  lemma LeavingStart(k: Kern, k1: Kern, value: int)
    requires Shape(k) && Inv(k) && k.curr != 0 && k.curr != 1 && !k.procs[k.curr].inWait && Zombified(k, k1, value)
    ensures Leaving(k1, Late(k))
  {
    hide Late;
    hide Distinct;
    hide SortedOk;
    hide FamilyOk;
    hide WaitersOk;
    hide WaitersBut;
    ZombifiedQueues(k, k1, value);
    ZombifiedFamilies(k, k1, value);
    ZombifiedWaiters(k, k1, value);
  }

  lemma LeaveKeeps(k: Kern, value: int)
    requires Inv(k) && k.curr != 0 && k.curr != 1 && !k.procs[k.curr].inWait
    ensures Leaving(Leave(k, value), {}) && Leave(k, value).run != [] && Inv(Scheduler(Leave(k, value)))
  {
    var orphans := exists i :: 0 <= i < NPROCS && IsOrphan(k, i);
    var k1, k2 := LeaveParts(k, value);
    LeavingStart(k, k1, value);
    var late, pp := Late(k), k.procs[k.curr].ppid;
    assert late == {pp} + if orphans then {1} else {};
    hide Leave;
    hide Leaving;
    hide Late;
    hide Zombified;
    hide Inv;
    hide Shape;
    hide Wakeup;
    hide Scheduler;
    LeavingStep(k1, pp, late);
    if orphans {
      LeavingStep(k2, 1, late - {pp});
      assert late - {pp} - {1} == {};
    } else {
      assert late - {pp} == {};
    }
    LeavingDone(Leave(k, value));
  }

  lemma LeaveParts(k: Kern, value: int) returns (k1: Kern, k2: Kern)
    requires Inv(k) && k.curr != 1 && k.curr != 0 && !k.procs[k.curr].inWait
    ensures Zombified(k, k1, value) && k2 == Wakeup(k1, Proc(k.procs[k.curr].ppid))
    ensures Leave(k, value) == if exists i :: 0 <= i < NPROCS && IsOrphan(k, i) then Wakeup(k2, Proc(1)) else k2
  {
    hide Wakeup;
    var ps := seq(NPROCS, i requires 0 <= i < NPROCS =>
                    var p := if IsOrphan(k, i) then k.procs[i].(ppid := 1, parent := Proc(1)) else k.procs[i];
                    if i == k.curr then p.(exitcode := value, state := ZOMBIE) else p);
    k1 := k.(procs := ps);
    ZombifiedFamilies(k, k1, value);
    k2 := Wakeup(k1, ps[k.curr].parent);
  }

  lemma NobodyLate(k: Kern)
    requires Shape(k) && WaitersBut(k, {})
    ensures WaitersOk(k)
  {
    hide HasChild;
    hide HasDeadChild;
  }

  lemma SameFamilies(k: Kern, r: Kern)
    requires Shape(k) && Shape(r) && FamilyOk(k) && WaitersOk(k) && r.procs == k.procs
    ensures FamilyOk(r) && WaitersOk(r)
  {
    forall p: nat | p < NPROCS
      ensures HasChild(k, p) ==> HasChild(r, p)
      ensures HasDeadChild(r, p) ==> HasDeadChild(k, p)
    {
      ChildMono(k, r, p);
    }
    hide HasChild;
    hide HasDeadChild;
  }

  // ---------------------------------------------------------------------------------------------

  lemma WaitLoopKeeps(k: Kern)
    requires Inv(k) && k.curr != 0 && HasChild(k, k.curr)
    ensures CanSwitch(k) && Inv(WaitLoop(k).0)
  {
    hide Reap;
    hide FallAsleep;
    hide Scheduler;
    hide QueuesOk;
    hide SortedOk;
    hide FamilyOk;
    hide WaitersOk;
    hide HasChild;
    hide HasDeadChild;
    ZeroQueued(k);
    ScanFinds(k);
    var c := ScanFrom(k, 2);
    if c < NPROCS {
      ReapKeeps(k, c);
    } else {
      SleepKeeps(k, Proc(k.curr), true);
    }
  }

  lemma ScanFinds(k: Kern)
    requires Inv(k)
    ensures Shape(k) && (ScanFrom(k, 2) == NPROCS <==> !HasDeadChild(k, k.curr))
    ensures ScanFrom(k, 2) < NPROCS ==> IsDeadChild(k, ScanFrom(k, 2))
  {
    if HasDeadChild(k, k.curr) && ScanFrom(k, 2) == NPROCS {
      var c: nat :| 2 <= c < NPROCS && k.procs[c].state == ZOMBIE && k.procs[c].ppid == k.curr;
      assert IsDeadChild(k, c);
    }
  }

  /** Every step a process can make keeps the invariant, and finds somebody to switch to. */
  lemma StepKeeps(k: Kern, op: Op)
    requires Inv(k) && Enabled(k, op)
    ensures CanSwitch(k) && Inv(Step(k, op).0)
  {
    hide Reap;
    hide FallAsleep;
    hide Scheduler;
    hide Wakeup;
    hide Leave;
    hide Spawn;
    hide WaitLoop;
    hide HasDeadChild;
    hide Sorted;
    hide Distinct;
    ZeroQueued(k);
    match op
    case Fork(copied) => if k.free != [] && copied { SpawnKeeps(k); }
    case Exit(value) => if k.curr != 1 { LeaveKeeps(k, value); }
    case Wait =>
      if exists i :: 1 <= i < NPROCS && IsChild(k, i, k.curr) {
        ChildFound(k);
        WaitLoopKeeps(k);
      }
    case Resume => WaitLoopKeeps(k);
    case SleepOn(pipe) =>
      assert k.procs[k.curr := k.procs[k.curr].(inWait := false)] == k.procs;
      SleepKeeps(k, Pipe(pipe), false);
    case WakeOn(pipe) => WakeupKeeps(k, Pipe(pipe));
  }

  lemma ChildFound(k: Kern)
    requires Inv(k) && k.curr != 0 && exists i :: 1 <= i < NPROCS && IsChild(k, i, k.curr)
    ensures HasChild(k, k.curr)
  {
    var i :| 1 <= i < NPROCS && IsChild(k, i, k.curr);
    assert i != 1;
  }
}
