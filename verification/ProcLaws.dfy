/** What the scheduler, sleep, wakeup, fork, exit and wait do to the process table, said without the step functions. */
module ProcLaws {
  import opened ProcQueue
  import opened ProcSpec
  import opened ProcInvariant

  // ---------------------------------------------------------------------------------------------
  // Queues

  /** q' is q with the processes of more joined in: sorted, and at each priority behind those already there. */
  ghost predicate Joined(pr: seq<int>, q: seq<nat>, more: seq<nat>, q': seq<nat>) {
    && Pids(pr, q) && Pids(pr, more) && Pids(pr, q') && Sorted(pr, q')
    && forall x :: Level(pr, q', x) == Level(pr, q, x) + Level(pr, more, x)
  }

  lemma InsertJoins(pr: seq<int>, q: seq<nat>, p: nat)
    requires Pids(pr, q) && p < |pr| && Sorted(pr, q)
    ensures Joined(pr, q, [p], Insert(pr, q, p))
  {
    hide Insert;
    hide Level;
    InsertStable(pr, q, p);
    forall x ensures Level(pr, Insert(pr, q, p), x) == Level(pr, q, x) + Level(pr, [p], x) {
      InsertLevel(pr, q, p, x);
      LevelStep(pr, [p], x);
      LevelStep(pr, [p][1..], x);
    }
  }

  lemma NobodyJoins(pr: seq<int>, q: seq<nat>)
    requires Pids(pr, q) && Sorted(pr, q)
    ensures Joined(pr, q, [], q)
  {
    hide Sorted;
  }

  /** The scheduler turned to r.curr: of those queued, the old current process with them if it still runs, one
      that nobody outranks and that has queued longest among its equals. */
  ghost predicate Dispatched(k: Kern, r: Kern)
    requires Shape(k)
  {
    && Shape(r) && r == k.(curr := r.curr, run := r.run)
    && Joined(Pr(k.procs), k.run, if k.procs[k.curr].state == RUNNABLE then [k.curr] else [], [r.curr] + r.run)
    && (forall p :: p in k.run ==> p < NPROCS && k.procs[p].priority <= k.procs[r.curr].priority)
    && (k.procs[k.curr].state == RUNNABLE ==> k.procs[k.curr].priority <= k.procs[r.curr].priority)
  }

  lemma SchedulerMeans(k: Kern)
    requires Shape(k) && Sorted(Pr(k.procs), k.run) && (k.procs[k.curr].state == RUNNABLE || k.run != [])
    ensures Dispatched(k, Scheduler(k))
  {
    var pr, r := Pr(k.procs), Scheduler(k);
    var q := if k.procs[k.curr].state == RUNNABLE then Insert(pr, k.run, k.curr) else k.run;
    if k.procs[k.curr].state == RUNNABLE {
      InsertPids(pr, k.run, k.curr);
      InsertJoins(pr, k.run, k.curr);
    } else {
      NobodyJoins(pr, k.run);
    }
    assert [r.curr] + r.run == q;
    hide Insert;
    hide Joined;
    hide Scheduler;
    FirstHighest(pr, q);
  }

  lemma Dispatches(k: Kern)
    requires Shape(k) && (k.procs[k.curr].state == RUNNABLE || k.run != [])
    ensures SortedOk(k) ==> Dispatched(k, Scheduler(k))
  {
    hide Scheduler;
    hide Dispatched;
    hide Sorted;
    if SortedOk(k) { SchedulerMeans(k); }
  }

  lemma FallsAsleep(k: Kern, event: Addr)
    requires Shape(k)
    ensures SortedOk(k) ==> FellAsleep(k, event, FallAsleep(k, event))
  {
    hide FallAsleep;
    hide FellAsleep;
    hide Sorted;
    if SortedOk(k) { FallAsleepMeans(k, event); }
  }

  lemma Rouses(k: Kern, event: Addr)
    requires Shape(k)
    ensures SortedOk(k) ==> Roused(k, event, Wakeup(k, event))
  {
    hide Wakeup;
    hide Roused;
    if SortedOk(k) { WakeupMeans(k, event); }
  }

  lemma FirstHighest(pr: seq<int>, q: seq<nat>)
    requires Pids(pr, q) && Sorted(pr, q) && q != []
    ensures forall p :: p in q ==> p < |pr| && pr[p] <= pr[q[0]]
  {
    forall p | p in q ensures p < |pr| && pr[p] <= pr[q[0]] {
      var i :| 0 <= i < |q| && q[i] == p;
      assert i > 0 ==> pr[q[0]] >= pr[q[i]];
    }
  }

  /** With nobody to queue up the head of the queue runs next. */
  lemma HeadRuns(k: Kern, r: Kern)
    requires Shape(k) && Sorted(Pr(k.procs), k.run) && k.procs[k.curr].state != RUNNABLE && Dispatched(k, r)
    ensures [r.curr] + r.run == k.run
  {
    var pr, q := Pr(k.procs), [r.curr] + r.run;
    hide Level;
    forall x ensures Level(pr, q, x) == Level(pr, k.run, x) {
      LevelStep(pr, [], x);
    }
    LevelsDetermine(pr, q, k.run);
  }

  // ---------------------------------------------------------------------------------------------
  // sleep and wakeup

  /** The current process sleeps on event. */
  ghost predicate FellAsleep(k: Kern, event: Addr, r: Kern)
    requires Shape(k)
  {
    && Shape(r) && r == k.(procs := r.procs, sleep := r.sleep)
    && r.procs == k.procs[k.curr := k.procs[k.curr].(event := event, state := SLEEPING)]
    && Joined(Pr(k.procs), k.sleep, [k.curr], r.sleep)
  }

  lemma FallAsleepMeans(k: Kern, event: Addr)
    requires Shape(k) && Sorted(Pr(k.procs), k.sleep)
    ensures FellAsleep(k, event, FallAsleep(k, event))
  {
    InsertJoins(Pr(k.procs), k.sleep, k.curr);
    hide Insert;
    hide Joined;
  }

  /** Every sleeper on e, and nobody else, was made runnable and queued, in the order of the sleep queue. */
  ghost predicate Roused(k: Kern, e: Addr, r: Kern)
    requires Shape(k)
  {
    && Shape(r) && r.curr == k.curr && r.free == k.free
    && (forall i :: 0 <= i < NPROCS ==>
          r.procs[i] == if i in k.sleep && k.procs[i].event == e then k.procs[i].(state := RUNNABLE) else k.procs[i])
    && exists on :: RousedQueues(k, e, on, r)
  }

  ghost predicate RousedQueues(k: Kern, e: Addr, on: set<nat>, r: Kern)
    requires Shape(k)
  {
    && (forall p: nat :: p in on <==> p in k.sleep && k.procs[p].event == e)
    && Joined(Pr(k.procs), k.run, Keep(on, true, k.sleep), r.run) && r.sleep == Keep(on, false, k.sleep)
  }

  lemma DrainJoins(pr: seq<int>, on: set<nat>, s: seq<nat>, run: seq<nat>)
    requires Pids(pr, s) && Pids(pr, run) && Sorted(pr, s) && Sorted(pr, run)
    ensures var r := Drain(pr, on, s, run, []);
            Joined(pr, run, Keep(on, true, s), r.0) && r.1 == Keep(on, false, s)
  {
    var r := Drain(pr, on, s, run, []);
    WakeLevels(pr, on, s, run, 0);
    hide Drain;
    hide Level;
    hide Keep;
    hide Sorted;
    forall x ensures Level(pr, r.0, x) == Level(pr, run, x) + Level(pr, Keep(on, true, s), x) {
      WakeLevels(pr, on, s, run, x);
    }
  }

  lemma WakeupQueues(k: Kern, e: Addr)
    requires Shape(k) && SortedOk(k)
    ensures RousedQueues(k, e, On(k, e), Wakeup(k, e))
  {
    var r, on := Wakeup(k, e), On(k, e);
    assert forall p :: p in k.sleep ==> p < NPROCS;
    assert (r.run, r.sleep) == Drain(Pr(k.procs), on, k.sleep, k.run, []);
    DrainJoins(Pr(k.procs), on, k.sleep, k.run);
    hide Drain;
    hide Keep;
    hide Joined;
    hide Sorted;
    hide Pr;
  }

  lemma WakeupRest(k: Kern, e: Addr)
    requires Shape(k)
    ensures var r := Wakeup(k, e); Shape(r) && r.curr == k.curr && r.free == k.free
    ensures forall i :: 0 <= i < NPROCS ==>
              Wakeup(k, e).procs[i] == if i in k.sleep && k.procs[i].event == e then k.procs[i].(state := RUNNABLE) else k.procs[i]
  {
    hide Drain;
    hide Pr;
  }

  lemma WakeupMeans(k: Kern, e: Addr)
    requires Shape(k) && SortedOk(k)
    ensures Roused(k, e, Wakeup(k, e))
  {
    WakeupQueues(k, e);
    WakeupRest(k, e);
    hide Wakeup;
    hide RousedQueues;
    hide SortedOk;
  }

  /** sleep(event), switch included, for process p. */
  ghost predicate SleptOn(k: Kern, event: Addr, waiting: bool, r: Kern)
    requires Shape(k)
  {
    && Shape(r) && r.free == k.free && r.curr != k.curr && [r.curr] + r.run == k.run
    && r.procs == k.procs[k.curr := k.procs[k.curr].(inWait := waiting, event := event, state := SLEEPING)]
    && Joined(Pr(k.procs), k.sleep, [k.curr], r.sleep)
  }

  lemma SleepMeans(k: Kern, event: Addr, waiting: bool, k1: Kern)
    requires QueuesOk(k) && SortedOk(k) && k.procs[k.curr].state == RUNNABLE && k.run != []
    requires k1 == k.(procs := k.procs[k.curr := k.procs[k.curr].(inWait := waiting)])
    ensures Shape(k1) && FallAsleep(k1, event).run != [] && SleptOn(k, event, waiting, Scheduler(FallAsleep(k1, event)))
  {
    SamePr(k.procs, k1.procs);
    FallAsleepMeans(k1, event);
    var k2 := FallAsleep(k1, event);
    SamePr(k.procs, k2.procs);
    hide FallAsleep;
    hide Joined;
    hide Sorted;
    hide Distinct;
    SchedulerMeans(k2);
    HeadRuns(k2, Scheduler(k2));
    hide Scheduler;
    assert k.run[0] in k.run;
  }

  // ---------------------------------------------------------------------------------------------
  // fork

  /** Slot c, the head of the free list, is a runnable child of the current process with its priority, queued. */
  ghost predicate Spawned(k: Kern, c: nat, r: Kern)
    requires Shape(k)
  {
    && Shape(r) && c < NPROCS && k.free == [c] + r.free && r.sleep == k.sleep && r.curr == k.curr
    && (forall i :: 0 <= i < NPROCS && i != c ==> r.procs[i] == k.procs[i])
    && r.procs[c].state == RUNNABLE && r.procs[c].ppid == k.curr && r.procs[c].parent == Proc(k.curr)
    && r.procs[c].priority == k.procs[k.curr].priority && !r.procs[c].inWait
    && Joined(Pr(r.procs), k.run, [c], r.run)
  }

  lemma ForkMeans(k: Kern, copied: bool)
    requires Inv(k) && Enabled(k, Fork(copied))
    ensures CanSwitch(k)
    ensures var (r, o) := Step(k, Fork(copied));
            if copied && k.free != [] then o == Forked(k.free[0], k.curr) && Spawned(k, k.free[0], r) else o == Silent && r == k
  {
    ZeroQueued(k);
    if copied && k.free != [] {
      var r, c := Spawn(k), k.free[0];
      assert c in k.free && c !in k.run;
      OtherPriority(Pr(k.procs), Pr(r.procs), k.run, c);
      InsertJoins(Pr(r.procs), k.run, c);
      hide Joined;
      hide Insert;
      hide Inv;
      assert k.free == [c] + r.free;
    }
  }

  // ---------------------------------------------------------------------------------------------
  // exit

  /** Somebody has the current process for a parent. */
  ghost predicate HasOrphans(k: Kern)
    requires Shape(k)
  {
    exists i :: 2 <= i < NPROCS && k.procs[i].state != UNUSED && k.procs[i].ppid == k.curr
  }

  /** kexit(value) of process k.curr: it is a zombie with that value and no longer current or queued; its children
      are init's; its parent, and init if it left children, are runnable if they were asleep on themselves. */
  ghost predicate Departed(k: Kern, value: int, r: Kern)
    requires Shape(k)
  {
    && Shape(r) && r.free == k.free && r.curr != k.curr
    && k.curr !in r.run && k.curr !in r.sleep
    && r.procs[k.curr].state == ZOMBIE && r.procs[k.curr].exitcode == value
    && r.procs[k.curr].ppid == k.procs[k.curr].ppid && r.procs[k.curr].priority == k.procs[k.curr].priority
    && forall i :: 0 <= i < NPROCS && i != k.curr ==>
         var child := i >= 2 && k.procs[i].state != UNUSED && k.procs[i].ppid == k.curr;
         var woken := k.procs[i].state == SLEEPING
                      && (k.procs[i].event == Proc(k.procs[k.curr].ppid) || (HasOrphans(k) && k.procs[i].event == Proc(1)));
         && r.procs[i].ppid == (if child then 1 else k.procs[i].ppid)
         && r.procs[i].parent == (if child then Proc(1) else k.procs[i].parent)
         && r.procs[i].state == (if woken then RUNNABLE else k.procs[i].state)
         && r.procs[i] == k.procs[i].(ppid := r.procs[i].ppid, parent := r.procs[i].parent, state := r.procs[i].state)
         && (i in k.sleep <==> k.procs[i].state == SLEEPING) && (i in r.sleep <==> r.procs[i].state == SLEEPING)
         && (i in r.run || i == r.curr <==> r.procs[i].state == RUNNABLE)
  }

  /** The procs part: what is done before the switch. */
  ghost predicate Parted(k: Kern, value: int, ps: seq<PInfo>)
    requires Shape(k)
  {
    |ps| == NPROCS
    && ps[k.curr] == k.procs[k.curr].(exitcode := value, state := ZOMBIE)
    && forall i :: 0 <= i < NPROCS && i != k.curr ==>
         var child := i >= 2 && k.procs[i].state != UNUSED && k.procs[i].ppid == k.curr;
         var woken := k.procs[i].state == SLEEPING
                      && (k.procs[i].event == Proc(k.procs[k.curr].ppid) || (HasOrphans(k) && k.procs[i].event == Proc(1)));
         ps[i] == k.procs[i].(ppid := if child then 1 else k.procs[i].ppid,
                              parent := if child then Proc(1) else k.procs[i].parent,
                              state := if woken then RUNNABLE else k.procs[i].state)
  }

  lemma OrphansMean(k: Kern)
    requires Shape(k)
    ensures HasOrphans(k) <==> exists i :: 0 <= i < NPROCS && IsOrphan(k, i)
  {
    if HasOrphans(k) {
      var i :| 2 <= i < NPROCS && k.procs[i].state != UNUSED && k.procs[i].ppid == k.curr;
      assert IsOrphan(k, i);
    }
  }

  /** Leave wakes the parent, and init after it if there are orphans, and changes nothing else any more. */
  lemma LeaveProcs(k: Kern, value: int)
    requires Inv(k) && k.curr != 0 && k.curr != 1 && !k.procs[k.curr].inWait
    ensures var r := Leave(k, value);
            QueuesOk(r) && SortedOk(r) && r.curr == k.curr && r.free == k.free && Parted(k, value, r.procs)
  {
    var k1, k2 := LeaveParts(k, value);
    ZombifiedQueues(k, k1, value);
    OrphansMean(k);
    hide Leave;
    hide Wakeup;
    hide SortedOk;
    hide FamilyOk;
    hide WaitersOk;
    hide HasOrphans;
    assert k.procs[k.curr].ppid != k.curr by { NotOwnParent(k); }
    var pp := Proc(k.procs[k.curr].ppid);
    WakeupOk(k1, pp);
    WakeupProcs(k1, pp);
    if exists i :: 0 <= i < NPROCS && IsOrphan(k, i) {
      WakeupOk(k2, Proc(1));
      WakeupProcs(k2, Proc(1));
    }
    hide QueuesOk;
    hide Zombified;
    LeaveAt(k, value, k1, k2);
  }

  lemma NotOwnParent(k: Kern)
    requires Inv(k) && k.curr != 0 && k.curr != 1
    ensures k.procs[k.curr].ppid != k.curr
  {
    hide WaitersOk;
    hide SortedOk;
  }

  lemma LeaveAt(k: Kern, value: int, k1: Kern, k2: Kern)
    requires Shape(k) && Zombified(k, k1, value) && Shape(k2) && k.procs[k.curr].ppid != k.curr
    requires var pp := Proc(k.procs[k.curr].ppid);
             forall i :: 0 <= i < NPROCS ==>
               k2.procs[i] == if k1.procs[i].state == SLEEPING && k1.procs[i].event == pp then k1.procs[i].(state := RUNNABLE) else k1.procs[i]
    requires Shape(Leave(k, value))
    requires forall i :: 0 <= i < NPROCS ==>
               Leave(k, value).procs[i] ==
               if HasOrphans(k) && k2.procs[i].state == SLEEPING && k2.procs[i].event == Proc(1) then k2.procs[i].(state := RUNNABLE)
               else k2.procs[i]
    ensures Parted(k, value, Leave(k, value).procs)
  {
    hide Leave;
    hide HasOrphans;
  }

  lemma ExitMeans(k: Kern, value: int)
    requires Inv(k) && Enabled(k, Exit(value))
    ensures CanSwitch(k)
    ensures var (r, o) := Step(k, Exit(value));
            if k.curr == 1 then o == Silent && r == k else o == Exited(k.curr, value) && Departed(k, value, r)
  {
    ZeroQueued(k);
    if k.curr != 1 {
      LeaveKeeps(k, value);
      LeaveProcs(k, value);
      var k3 := Leave(k, value);
      hide Leave;
      SchedulerOk(k3);
      SchedulerMeans(k3);
      var r := Scheduler(k3);
      hide Scheduler;
      hide Dispatched;
      assert r.procs == k3.procs && r.free == k.free && QueuesOk(r) && QueuesOk(k);
      hide SortedOk;
      hide FamilyOk;
      hide WaitersOk;
      hide HasOrphans;
      hide Distinct;
      DepartedFrom(k, value, r);
    }
  }

  /** The order kexit leaves the queues in: those asleep on the parent join the queue, then those asleep on init
      if there are orphans, and then the head runs. k1 is the table with the zombie and nobody woken. */
  ghost predicate LeftInOrder(k: Kern, k1: Kern, k2: Kern, k3: Kern, r: Kern)
    requires Shape(k)
  {
    && Shape(k1) && k1.run == k.run && k1.sleep == k.sleep && Pr(k1.procs) == Pr(k.procs)
    && (forall i :: 0 <= i < NPROCS ==> k1.procs[i].event == k.procs[i].event)
    && Roused(k1, Proc(k.procs[k.curr].ppid), k2)
    && (if HasOrphans(k) then Roused(k2, Proc(1), k3) else k3 == k2)
    && [r.curr] + r.run == k3.run && r.sleep == k3.sleep && r.procs == k3.procs
  }

  lemma WokenInTurn(k: Kern, value: int) returns (k1: Kern, k2: Kern)
    requires Inv(k) && k.curr != 0 && k.curr != 1 && !k.procs[k.curr].inWait
    ensures Zombified(k, k1, value) && Roused(k1, Proc(k.procs[k.curr].ppid), k2)
    ensures if HasOrphans(k) then Roused(k2, Proc(1), Leave(k, value)) else Leave(k, value) == k2
  {
    hide Leave;
    hide Wakeup;
    hide Roused;
    hide QueuesOk;
    hide SortedOk;
    hide FamilyOk;
    hide WaitersOk;
    hide HasOrphans;
    InvFacts(k);
    k1, k2 := LeaveParts(k, value);
    ZombifiedQueues(k, k1, value);
    OrphansMean(k);
    RunningZombie(k, k1, value);
    WakeupOk(k1, Proc(k.procs[k.curr].ppid));
    WakeupMeans(k1, Proc(k.procs[k.curr].ppid));
    if HasOrphans(k) {
      WakeupMeans(k2, Proc(1));
    }
  }

  lemma RunningZombie(k: Kern, k1: Kern, value: int)
    requires Shape(k) && Zombified(k, k1, value)
    ensures k1.procs[k.curr].state == ZOMBIE && Pr(k1.procs) == Pr(k.procs)
    ensures forall i :: 0 <= i < NPROCS ==> k1.procs[i].event == k.procs[i].event
  {
  }

  lemma LeaveRuns(k: Kern, value: int)
    requires Inv(k) && Enabled(k, Exit(value)) && k.curr != 1
    ensures CanSwitch(k)
    ensures var (l, r) := (Leave(k, value), Step(k, Exit(value)).0);
            [r.curr] + r.run == l.run && r.sleep == l.sleep && r.procs == l.procs
  {
    hide Leave;
    hide Wakeup;
    hide Sorted;
    hide FamilyOk;
    hide WaitersOk;
    ZeroQueued(k);
    LeaveKeeps(k, value);
    SchedulerMeans(Leave(k, value));
    HeadRuns(Leave(k, value), Scheduler(Leave(k, value)));
  }

  lemma ExitOrder(k: Kern, value: int)
    requires Inv(k) && Enabled(k, Exit(value)) && k.curr != 1
    ensures CanSwitch(k) && exists k1, k2, k3 :: LeftInOrder(k, k1, k2, k3, Step(k, Exit(value)).0)
  {
    hide Leave;
    hide Step;
    hide Roused;
    hide HasOrphans;
    LeaveRuns(k, value);
    WaitReady(k, Exit(value));
    var k1, k2 := WokenInTurn(k, value);
    hide Inv;
    RunningZombie(k, k1, value);
    assert LeftInOrder(k, k1, k2, Leave(k, value), Step(k, Exit(value)).0);
  }

  lemma DepartedFrom(k: Kern, value: int, r: Kern)
    requires QueuesOk(k) && QueuesOk(r) && Parted(k, value, r.procs) && r.free == k.free && r.procs[r.curr].state == RUNNABLE
    ensures Departed(k, value, r)
  {
    hide HasOrphans;
    hide Distinct;
  }

  // ---------------------------------------------------------------------------------------------
  // wait

  /** c is a used slot with the current process for a parent. */
  predicate ChildAt(k: Kern, c: nat)
    requires Shape(k)
  {
    1 <= c < NPROCS && k.procs[c].state != UNUSED && k.procs[c].ppid == k.curr
  }

  predicate DeadAt(k: Kern, c: nat)
    requires Shape(k)
  {
    2 <= c < NPROCS && k.procs[c].state == ZOMBIE && k.procs[c].ppid == k.curr
  }

  /** The zombie child with the lowest pid is collected: its slot is free, its value handed over. */
  ghost predicate Collected(k: Kern, c: nat, status: int, r: Kern)
    requires Shape(k)
  {
    && DeadAt(k, c) && (forall d :: 2 <= d < c ==> !DeadAt(k, d)) && status == k.procs[c].exitcode
    && Shape(r) && r.free == [c] + k.free && r.run == k.run && r.sleep == k.sleep && r.curr == k.curr
    && r.procs == k.procs[c := k.procs[c].(state := UNUSED)][k.curr := k.procs[k.curr].(inWait := false)]
  }

  /** kwait, from its loop on: pid and status of a dead child, or asleep on itself (pid -1). */
  ghost predicate WaitedOn(k: Kern, r: Kern, pid: int, status: int)
    requires Shape(k)
  {
    && (pid >= 0 <==> exists c: nat :: c < NPROCS && DeadAt(k, c))
    && if pid >= 0 then Collected(k, pid, status, r) else pid == -1 && SleptOn(k, Proc(k.curr), true, r)
  }

  ghost predicate WaitOutcome(k: Kern, o: Obs, r: Kern)
    requires Shape(k)
  {
    match o
    case Reaped(c, p, status) => p == k.curr && WaitedOn(k, r, c, status)
    case Silent => WaitedOn(k, r, -1, 0)
    case _ => false
  }

  lemma NoDead(k: Kern)
    requires Shape(k)
    ensures (exists c: nat :: c < NPROCS && DeadAt(k, c)) <==> HasDeadChild(k, k.curr)
  {
    if exists c: nat :: c < NPROCS && DeadAt(k, c) {
      var c: nat :| c < NPROCS && DeadAt(k, c);
      assert k.procs[c].ppid == k.curr;
    }
    if HasDeadChild(k, k.curr) {
      var c: nat :| 2 <= c < NPROCS && k.procs[c].state == ZOMBIE && k.procs[c].ppid == k.curr;
      assert DeadAt(k, c);
    }
  }

  lemma WaitLoopMeans(k: Kern)
    requires Inv(k) && k.curr != 0
    ensures CanSwitch(k)
    ensures WaitOutcome(k, WaitLoop(k).1, WaitLoop(k).0)
  {
    ZeroQueued(k);
    ScanFinds(k);
    var c := ScanFrom(k, 2);
    hide Scheduler;
    hide FallAsleep;
    hide Reap;
    hide FamilyOk;
    hide WaitersOk;
    if c < NPROCS {
      assert DeadAt(k, c);
      CollectMeans(k, c);
    } else {
      NoDead(k);
      SleepMeans(k, Proc(k.curr), true, k.(procs := k.procs[k.curr := k.procs[k.curr].(inWait := true)]));
    }
    hide SortedOk;
  }

  lemma CollectMeans(k: Kern, c: nat)
    requires QueuesOk(k) && c == ScanFrom(k, 2) < NPROCS && k.procs[k.curr].state == RUNNABLE
    ensures Collected(k, c, k.procs[c].exitcode, Reap(k, c))
  {
    forall d | 2 <= d < c ensures !DeadAt(k, d) {
      assert !IsDeadChild(k, d);
    }
  }

  lemma InvFacts(k: Kern)
    requires Inv(k)
    ensures Shape(k) && QueuesOk(k) && SortedOk(k) && k.procs[k.curr].state == RUNNABLE
    ensures k.curr != 0 ==> CanSwitch(k) && k.run != []
  {
    if k.curr != 0 { ZeroQueued(k); }
    hide FamilyOk;
    hide WaitersOk;
    hide Distinct;
    hide Sorted;
  }

  /** Step, call by call. */
  lemma StepIs(k: Kern, pipe: nat)
    requires Shape(k) && CanSwitch(k)
    ensures Step(k, Wait) == if exists i :: 1 <= i < NPROCS && IsChild(k, i, k.curr) then WaitLoop(k) else (k, Silent)
    ensures Step(k, Resume) == WaitLoop(k)
    ensures FallAsleep(k, Pipe(pipe)).run != [] && Step(k, SleepOn(pipe)) == (Scheduler(FallAsleep(k, Pipe(pipe))), Silent)
    ensures Step(k, WakeOn(pipe)) == (Wakeup(k, Pipe(pipe)), Silent)
  {
    hide WaitLoop;
    hide Scheduler;
    hide Wakeup;
    hide Leave;
    hide Spawn;
  }

  /** With no child at all kwait returns -1 at once. */
  lemma WaitMeans(k: Kern)
    requires Inv(k) && Enabled(k, Wait)
    ensures CanSwitch(k)
    ensures var (r, o) := Step(k, Wait);
            if forall c: nat :: c < NPROCS ==> !ChildAt(k, c) then o == Silent && r == k else WaitOutcome(k, o, r)
  {
    InvFacts(k);
    WaitLoopMeans(k);
    StepIs(k, 0);
    hide Inv;
    hide QueuesOk;
    hide SortedOk;
    hide Step;
    hide WaitLoop;
    hide WaitOutcome;
    if exists i :: 1 <= i < NPROCS && IsChild(k, i, k.curr) {
      var i :| 1 <= i < NPROCS && IsChild(k, i, k.curr);
      assert ChildAt(k, i);
    } else {
      forall c: nat | c < NPROCS ensures !ChildAt(k, c) {
        assert 1 <= c ==> !IsChild(k, c, k.curr);
      }
    }
  }

  lemma ResumeMeans(k: Kern)
    requires Inv(k) && Enabled(k, Resume)
    ensures CanSwitch(k) && WaitOutcome(k, Step(k, Resume).1, Step(k, Resume).0)
  {
    InvFacts(k);
    WaitLoopMeans(k);
    StepIs(k, 0);
    hide Inv;
    hide QueuesOk;
    hide SortedOk;
    hide Step;
    hide WaitLoop;
    hide WaitOutcome;
  }

  lemma WaitReady(k: Kern, op: Op)
    requires Inv(k) && Enabled(k, op)
    ensures Shape(k) && CanSwitch(k) && k.curr != 0 && (op.Resume? <==> k.procs[k.curr].inWait)
  {
    InvFacts(k);
  }

  /** kwait up to its return or its first switch: -1 at once if and only if there is no child. */
  ghost predicate Waited(k: Kern, r: Kern, pid: int, status: int)
    requires Shape(k)
  {
    if forall c: nat :: c < NPROCS ==> !ChildAt(k, c) then pid == -1 && r == k else WaitedOn(k, r, pid, status)
  }

  lemma WaitReturns(k: Kern, r: Kern, pid: int, status: int)
    requires Inv(k) && Enabled(k, Wait) && CanSwitch(k) && pid >= -1
    requires Step(k, Wait) == (r, if pid < 0 then Silent else Reaped(pid, k.curr, status))
    ensures Waited(k, r, pid, status)
  {
    WaitMeans(k);
    hide Step;
    hide Inv;
    hide ChildAt;
    hide DeadAt;
    hide Collected;
    hide SleptOn;
  }

  lemma ResumeReturns(k: Kern, r: Kern, pid: int, status: int)
    requires Inv(k) && Enabled(k, Resume) && CanSwitch(k) && pid >= -1
    requires Step(k, Resume) == (r, if pid < 0 then Silent else Reaped(pid, k.curr, status))
    ensures WaitedOn(k, r, pid, status)
  {
    ResumeMeans(k);
    hide Step;
    hide Inv;
    hide DeadAt;
    hide Collected;
    hide SleptOn;
  }

  lemma SameInfo(k: Kern)
    requires Shape(k)
    ensures k == k.(procs := k.procs[k.curr := k.procs[k.curr].(inWait := k.procs[k.curr].inWait)])
  {
    assert k.procs[k.curr := k.procs[k.curr].(inWait := k.procs[k.curr].inWait)] == k.procs;
  }

  /** Waiting at an empty or full pipe. */
  lemma SleepOnMeans(k: Kern, pipe: nat)
    requires Inv(k) && k.curr != 0 && !k.procs[k.curr].inWait
    ensures CanSwitch(k)
    ensures Step(k, SleepOn(pipe)).1 == Silent && SleptOn(k, Pipe(pipe), false, Step(k, SleepOn(pipe)).0)
  {
    InvFacts(k);
    SameInfo(k);
    SleepMeans(k, Pipe(pipe), false, k);
    StepIs(k, pipe);
    hide Inv;
    hide QueuesOk;
    hide SortedOk;
    hide Step;
    hide Scheduler;
    hide FallAsleep;
    hide Wakeup;
    hide SleptOn;
  }

  /** Telling whoever waits there. */
  lemma WakeOnMeans(k: Kern, pipe: nat)
    requires Inv(k) && Enabled(k, WakeOn(pipe))
    ensures CanSwitch(k)
    ensures Step(k, WakeOn(pipe)).1 == Silent && Roused(k, Pipe(pipe), Step(k, WakeOn(pipe)).0)
  {
    InvFacts(k);
    WakeupMeans(k, Pipe(pipe));
    StepIs(k, pipe);
    hide Inv;
    hide QueuesOk;
    hide SortedOk;
    hide Step;
    hide Scheduler;
    hide FallAsleep;
    hide Wakeup;
    hide Roused;
  }
}
