/** The process table as a state machine: what fork, exit, wait, sleep, wakeup and the scheduler do between
    two context switches, on values. */
module ProcSpec {
  import opened ProcQueue

  const NPROCS := 64

  datatype PState = UNUSED | ZOMBIE | SLEEPING | RUNNABLE

  /** An address a process can sleep on or point to: a process slot, or a pipe's data counter. */
  datatype Addr = Null | Proc(pid: nat) | Pipe(id: nat)

  /** One slot. inWait says that the process, when it next runs, continues in the loop of kwait. */
  datatype PInfo = PInfo(state: PState, priority: int, ppid: nat, parent: Addr, event: Addr, exitcode: int, inWait: bool)

  datatype Kern = Kern(procs: seq<PInfo>, run: seq<nat>, sleep: seq<nat>, free: seq<nat>, curr: nat)

  function Pr(ps: seq<PInfo>): (r: seq<int>)
    ensures |r| == |ps| && forall i :: 0 <= i < |ps| ==> r[i] == ps[i].priority
  {
    seq(|ps|, i requires 0 <= i < |ps| => ps[i].priority)
  }

  predicate Shape(k: Kern) {
    && |k.procs| == NPROCS && k.curr < NPROCS
    && Pids(Pr(k.procs), k.run) && Pids(Pr(k.procs), k.sleep) && Pids(Pr(k.procs), k.free)
  }

  // ---------------------------------------------------------------------------------------------
  // The operations

  /** scheduler(): a runnable current process queues up again; the head of the queue runs next. */
  function Scheduler(k: Kern): (r: Kern)
    requires Shape(k) && (k.procs[k.curr].state == RUNNABLE || k.run != [])
    ensures Shape(r)
  {
    InsertPids(Pr(k.procs), k.run, k.curr);
    var run := if k.procs[k.curr].state == RUNNABLE then Insert(Pr(k.procs), k.run, k.curr) else k.run;
    assert run[0] in run && forall i :: 0 <= i < |run[1..]| ==> run[1..][i] in run;
    k.(curr := run[0], run := run[1..])
  }

  /** sleep(event) up to the context switch. */
  function FallAsleep(k: Kern, event: Addr): (r: Kern)
    requires Shape(k)
    ensures Shape(r)
  {
    var ps := k.procs[k.curr := k.procs[k.curr].(event := event, state := SLEEPING)];
    InsertPids(Pr(k.procs), k.sleep, k.curr);
    k.(procs := ps, sleep := Insert(Pr(k.procs), k.sleep, k.curr))
  }

  /** The slots of the sleepers on e. */
  function On(k: Kern, e: Addr): set<nat> {
    set p | p in k.sleep && p < |k.procs| && k.procs[p].event == e
  }

  /** wakeup(event) */
  function Wakeup(k: Kern, e: Addr): (r: Kern)
    requires Shape(k)
    ensures Shape(r)
  {
    var woken := On(k, e);
    var (run, rest) := Drain(Pr(k.procs), woken, k.sleep, k.run, []);
    k.(procs := seq(NPROCS, i requires 0 <= i < NPROCS =>
                      if i in woken then k.procs[i].(state := RUNNABLE) else k.procs[i]),
       run := run, sleep := rest)
  }

  /** The slots kexit reparents: used, and children of the current process. */
  predicate IsOrphan(k: Kern, i: nat)
    requires Shape(k)
  {
    2 <= i < NPROCS && k.procs[i].state != UNUSED && k.procs[i].ppid == k.curr
  }

  /** kexit(value) up to the context switch, for a process other than init. */
  function Leave(k: Kern, value: int): (r: Kern)
    requires Shape(k)
    ensures Shape(r)
  {
    var ps := seq(NPROCS, i requires 0 <= i < NPROCS =>
                    var p := if IsOrphan(k, i) then k.procs[i].(ppid := 1, parent := Proc(1)) else k.procs[i];
                    if i == k.curr then p.(exitcode := value, state := ZOMBIE) else p);
    var k1 := k.(procs := ps);
    var k2 := Wakeup(k1, ps[k.curr].parent);
    if exists i :: 0 <= i < NPROCS && IsOrphan(k, i) then Wakeup(k2, Proc(1)) else k2
  }

  /** kfork when a slot is free and the copy of the address space succeeded. */
  function Spawn(k: Kern): (r: Kern)
    requires Shape(k) && k.free != []
    ensures Shape(r)
  {
    var np := k.free[0];
    var parent := k.procs[k.curr];
    var ps := k.procs[np := k.procs[np].(state := RUNNABLE, parent := Proc(k.curr), priority := parent.priority,
                                         ppid := k.curr, inWait := false)];
    InsertPids(Pr(ps), k.run, np);
    k.(procs := ps, free := k.free[1..], run := Insert(Pr(ps), k.run, np))
  }

  /** The first zombie child kwait's scan finds. */
  predicate IsDeadChild(k: Kern, i: nat)
    requires Shape(k)
  {
    2 <= i < NPROCS && k.procs[i].state == ZOMBIE && k.procs[i].ppid == k.curr
  }

  function ScanFrom(k: Kern, i: nat): (r: nat)
    requires Shape(k) && i <= NPROCS
    ensures i <= r <= NPROCS && (r < NPROCS ==> IsDeadChild(k, r))
    ensures forall j :: i <= j < r ==> !IsDeadChild(k, j)
    decreases NPROCS - i
  {
    if i == NPROCS || IsDeadChild(k, i) then i else ScanFrom(k, i + 1)
  }

  /** Reaping slot c. */
  function Reap(k: Kern, c: nat): (r: Kern)
    requires Shape(k) && c < NPROCS
    ensures Shape(r)
  {
    k.(procs := k.procs[c := k.procs[c].(state := UNUSED)][k.curr := k.procs[k.curr].(inWait := false)], free := [c] + k.free)
  }

  predicate IsChild(k: Kern, i: nat, p: nat) {
    1 <= i < |k.procs| && k.procs[i].state != UNUSED && k.procs[i].ppid == p
  }

  datatype Op =
    | Fork(copied: bool)
    | Exit(value: int)
    | Wait
    | Resume
    | SleepOn(pipe: nat)
    | WakeOn(pipe: nat)

  /** What a step shows of the family of processes. */
  datatype Obs =
    | Silent
    | Forked(child: nat, parent: nat)
    | Exited(p: nat, value: int)
    | Reaped(child: nat, parent: nat, status: int)

  /** A process in user mode makes any call; one that was asleep in kwait only goes on with it. Process 0
      has left kernel and user code for good once it is scheduled. */
  predicate Enabled(k: Kern, op: Op)
    requires Shape(k)
  {
    k.curr != 0 && (op.Resume? <==> k.procs[k.curr].inWait)
  }

  /** The next context switch cannot find an empty queue. */
  predicate CanSwitch(k: Kern) {
    exists i :: 0 <= i < |k.run| && k.run[i] == 0
  }

  /** The loop of kwait: reap, or sleep and switch. */
  function WaitLoop(k: Kern): (r: (Kern, Obs))
    requires Shape(k) && CanSwitch(k)
    ensures Shape(r.0)
  {
    var c := ScanFrom(k, 2);
    if c < NPROCS then (Reap(k, c), Reaped(c, k.curr, k.procs[c].exitcode))
    else
      var k1 := k.(procs := k.procs[k.curr := k.procs[k.curr].(inWait := true)]);
      (Scheduler(FallAsleep(k1, Proc(k.curr))), Silent)
  }

  function Step(k: Kern, op: Op): (r: (Kern, Obs))
    requires Shape(k) && CanSwitch(k)
    ensures Shape(r.0)
  {
    match op
    case Fork(copied) =>
      if k.free == [] || !copied then (k, Silent) else (Spawn(k), Forked(k.free[0], k.curr))
    case Exit(value) =>
      if k.curr == 1 then (k, Silent)
      else
        LeaveKeepsZero(k, value);
        (Scheduler(Leave(k, value)), Exited(k.curr, value))
    case Wait =>
      if exists i :: 1 <= i < NPROCS && IsChild(k, i, k.curr) then WaitLoop(k) else (k, Silent)
    case Resume => WaitLoop(k)
    case SleepOn(pipe) => (Scheduler(FallAsleep(k, Pipe(pipe))), Silent)
    case WakeOn(pipe) => (Wakeup(k, Pipe(pipe)), Silent)
  }

  lemma {:induction false} DrainKeeps(pr: seq<int>, on: set<nat>, s: seq<nat>, run: seq<nat>, rest: seq<nat>)
    requires Pids(pr, s) && Pids(pr, run) && Pids(pr, rest)
    ensures var d := Drain(pr, on, s, run, rest);
            && (forall x :: x in d.0 <==> x in run || (x in s && x in on))
            && (forall x :: x in d.1 <==> x in rest || (x in s && x !in on))
    decreases |s|
  {
    if s != [] {
      var p := s[0];
      InsertPids(pr, run, p);
      InsertPids(pr, rest, p);
      assert forall x :: x in s <==> x == p || x in s[1..];
      hide Insert;
      if p in on {
        DrainKeeps(pr, on, s[1..], Insert(pr, run, p), rest);
      } else {
        DrainKeeps(pr, on, s[1..], run, Insert(pr, rest, p));
      }
    }
  }

  lemma LeaveKeepsZero(k: Kern, value: int)
    requires Shape(k) && CanSwitch(k)
    ensures 0 in Leave(k, value).run
  {
    assert 0 in k.run;
    forall k1: Kern, e | Shape(k1) && 0 in k1.run ensures 0 in Wakeup(k1, e).run {
      DrainKeeps(Pr(k1.procs), On(k1, e), k1.sleep, k1.run, []);
    }
  }
}
