/** Whole runs of the process table from boot: safety of every reachable state, and the family tree that the
    forks, exits and reaps of a run trace out. */
module ProcRuns {
  import opened ProcQueue
  import opened ProcSpec
  import opened ProcInvariant
  import opened ProcLaws

  // ---------------------------------------------------------------------------------------------
  // Boot

  function Unused(): PInfo {
    PInfo(UNUSED, 0, 0, Null, Null, 0, false)
  }

  function Upto(lo: nat, hi: nat): (r: seq<nat>)
    requires lo <= hi
    ensures |r| == hi - lo && forall i :: 0 <= i < |r| ==> r[i] == lo + i
  {
    seq(hi - lo, i requires 0 <= i => lo + i)
  }

  /** OS_init: slot 0 is the current process, the rest is free. */
  function OsInit(): (k: Kern)
    ensures Shape(k)
  {
    Kern(seq(NPROCS, i => if i == 0 then Unused().(state := RUNNABLE) else Unused()), [], [], Upto(1, NPROCS), 0)
  }

  /** start_init_process: the first free slot becomes init, of priority 1, and is queued. */
  function StartInit(k: Kern): (r: Kern)
    requires Shape(k) && k.free != []
    ensures Shape(r)
  {
    var np := k.free[0];
    var ps := k.procs[np := k.procs[np].(state := RUNNABLE, priority := 1, parent := Proc(k.curr), ppid := k.curr)];
    InsertPids(Pr(ps), k.run, np);
    k.(procs := ps, free := k.free[1..], run := Insert(Pr(ps), k.run, np))
  }

  /** kmain up to and including its switch_context: init runs, process 0 is queued behind it. */
  function Boot(): (k: Kern)
    ensures Inv(k) && k.curr == 1 && k.run == [0]
  {
    BootOk();
    Scheduler(StartInit(OsInit()))
  }

  /** The table at the end of start_init_process. */
  lemma Started()
    ensures var k := StartInit(OsInit());
            && OsInit().free != [] && k == Kern(k.procs, [1], [], Upto(2, NPROCS), 0)
            && k.procs[0] == Unused().(state := RUNNABLE)
            && k.procs[1] == PInfo(RUNNABLE, 1, 0, Proc(0), Null, 0, false)
            && (forall i :: 2 <= i < NPROCS ==> k.procs[i] == Unused())
            && QueuesOk(k)
  {
    var k0 := OsInit();
    var k := StartInit(k0);
    assert k0.free[0] == 1 && k0.free[1..] == Upto(2, NPROCS);
    assert k0.procs[0] == Unused().(state := RUNNABLE) && k0.procs[1] == Unused();
    var one: seq<nat> := [1];
    assert k.run == Insert(Pr(k.procs), [], 1) == one + [] == one;
    forall p: nat | p < NPROCS ensures p in k.free <==> p >= 2 {
      if p >= 2 { assert k.free[p - 2] == p; }
    }
    assert forall p :: p in one <==> p == 1;
  }

  ghost predicate Booted(k: Kern) {
    && k == Kern(k.procs, [0], [], Upto(2, NPROCS), 1) && |k.procs| == NPROCS
    && k.procs[0] == Unused().(state := RUNNABLE)
    && k.procs[1] == PInfo(RUNNABLE, 1, 0, Proc(0), Null, 0, false)
    && forall i :: 2 <= i < NPROCS ==> k.procs[i] == Unused()
  }

  lemma BootOk()
    ensures var k := Scheduler(StartInit(OsInit())); Inv(k) && k.curr == 1 && k.run == [0] && Booted(k)
  {
    Started();
    var k1 := StartInit(OsInit());
    hide StartInit;
    hide OsInit;
    hide QueuesOk;
    var pr := Pr(k1.procs);
    assert pr[0] == 0 && pr[1] == 1;
    var one: seq<nat> := [1];
    assert one[1..] == [] && Insert(pr, one, 0) == [1] + Insert(pr, [], 0) == [1, 0];
    assert Scheduler(k1) == Kern(k1.procs, [0], [], Upto(2, NPROCS), 1);
    BootTable(Scheduler(k1));
  }

  lemma BootTable(k: Kern)
    requires Booted(k)
    ensures Inv(k)
  {
    assert Shape(k);
    forall p: nat | p < NPROCS ensures p in k.free <==> p >= 2 {
      if p >= 2 { assert k.free[p - 2] == p; }
    }
    assert QueuesOk(k);
  }

  // ---------------------------------------------------------------------------------------------
  // Runs

  /** ops can be made one after the other from k. */
  ghost predicate Legal(k: Kern, ops: seq<Op>)
    requires Inv(k)
    decreases |ops|
  {
    ops == [] || (Enabled(k, ops[0]) && (StepKeeps(k, ops[0]); Legal(Step(k, ops[0]).0, ops[1..])))
  }

  ghost function Exec(k: Kern, ops: seq<Op>): (r: Kern)
    requires Inv(k) && Legal(k, ops)
    ensures Inv(r)
    decreases |ops|
  {
    if ops == [] then k
    else
      StepKeeps(k, ops[0]);
      Exec(Step(k, ops[0]).0, ops[1..])
  }

  ghost function Trace(k: Kern, ops: seq<Op>): seq<Obs>
    requires Inv(k) && Legal(k, ops)
    decreases |ops|
  {
    if ops == [] then []
    else
      StepKeeps(k, ops[0]);
      [Step(k, ops[0]).1] + Trace(Step(k, ops[0]).0, ops[1..])
  }

  ghost predicate Reachable(k: Kern) {
    exists ops :: Legal(Boot(), ops) && Exec(Boot(), ops) == k
  }

  /** In every reachable state a process asleep in kwait has a child, and none of its children is a zombie. */
  lemma NoLostChild(k: Kern, p: nat)
    requires Reachable(k) && p < NPROCS
    ensures Shape(k)
    ensures k.procs[p].state == SLEEPING && k.procs[p].inWait ==> HasChild(k, p) && !HasDeadChild(k, p)
  {
    assert Inv(k);
  }

  /** Every slot is in exactly one place: current, runnable queue, sleep queue, free queue, or a zombie in none. */
  lemma OnePlace(k: Kern, p: nat)
    requires Reachable(k) && p < NPROCS
    ensures Shape(k) && Distinct(k.run) && Distinct(k.sleep) && Distinct(k.free)
    ensures p == k.curr <==> k.procs[p].state == RUNNABLE && p !in k.run
    ensures p in k.run <==> k.procs[p].state == RUNNABLE && p != k.curr
    ensures p in k.sleep <==> k.procs[p].state == SLEEPING
    ensures p in k.free <==> k.procs[p].state == UNUSED
    ensures k.procs[p].state == ZOMBIE <==> p != k.curr && p !in k.run && p !in k.sleep && p !in k.free
  {
    assert Inv(k);
    hide FamilyOk;
    hide WaitersOk;
  }

  /** The scheduler always finds somebody, and it picks process 0 only when nobody else is runnable. */
  lemma IdleLast(k: Kern, p: nat)
    requires Reachable(k) && p < NPROCS
    ensures Shape(k) && k.procs[0].state == RUNNABLE && (k.curr != 0 ==> CanSwitch(k))
    ensures k.curr == 0 && p != 0 ==> k.procs[p].state != RUNNABLE
  {
    assert Inv(k);
    if k.curr != 0 { ZeroQueued(k); }
    hide WaitersOk;
  }

  // ---------------------------------------------------------------------------------------------
  // The family tree

  /** A living process, or a dead one with the value it left for its parent. */
  datatype Node = Living(parent: nat) | Dead(parent: nat, value: int)

  type Tree = map<nat, Node>

  function NodeOf(p: PInfo): Node {
    if p.state == ZOMBIE then Dead(p.ppid, p.exitcode) else Living(p.ppid)
  }

  ghost function TreeOf(k: Kern): Tree
    requires Shape(k)
  {
    map p: nat | p < NPROCS && 1 <= p && k.procs[p].state != UNUSED :: NodeOf(k.procs[p])
  }

  function Adopted(n: Node, p: nat): Node {
    if n.parent != p then n else n.(parent := 1)
  }

  /** What fork, exit and wait may do to a family of processes, with no queue or event in sight. */
  ghost predicate TreeStep(t: Tree, o: Obs, t': Tree) {
    match o
    case Silent => t' == t
    case Forked(c, p) => c !in t && p in t && t[p].Living? && t' == t[c := Living(p)]
    case Exited(p, v) =>
      && p in t && t[p].Living? && p != 1
      && t' == (map q | q in t :: if q == p then Dead(t[p].parent, v) else Adopted(t[q], p))
    case Reaped(c, p, v) => c in t && t[c] == Dead(p, v) && p in t && t[p].Living? && t' == t - {c}
  }

  /** Every step of the process table is a step of the family tree. */
  lemma StepTree(k: Kern, op: Op)
    requires Inv(k) && Enabled(k, op)
    ensures CanSwitch(k) && TreeStep(TreeOf(k), Step(k, op).1, TreeOf(Step(k, op).0))
  {
    ZeroQueued(k);
    hide Scheduler;
    hide FallAsleep;
    hide Wakeup;
    hide Leave;
    hide Spawn;
    hide Reap;
    hide WaitLoop;
    hide SortedOk;
    hide WaitersOk;
    match op
    case Fork(copied) => if k.free != [] && copied { SpawnTree(k); }
    case Exit(value) => if k.curr != 1 { LeaveTree(k, value); }
    case Wait => WaitTree(k);
    case Resume => WaitTree(k);
    case SleepOn(pipe) => 
      assert k.procs[k.curr := k.procs[k.curr].(inWait := false)] == k.procs;
      SleepTree(k, k, false, Pipe(pipe));
    case WakeOn(pipe) => WakeTree(k, Pipe(pipe));
  }

  lemma SameTree(k: Kern, r: Kern)
    requires Shape(k) && Shape(r)
    requires forall p: nat :: p < NPROCS ==>
               && (r.procs[p].state == UNUSED <==> k.procs[p].state == UNUSED)
               && (k.procs[p].state != UNUSED ==> NodeOf(r.procs[p]) == NodeOf(k.procs[p]))
    ensures TreeOf(r) == TreeOf(k)
  {
  }

  lemma SortedAlike(k: Kern, r: Kern)
    requires Shape(k) && Shape(r) && SortedOk(k) && r.run == k.run && r.sleep == k.sleep
    requires forall i :: 0 <= i < NPROCS ==> r.procs[i].priority == k.procs[i].priority
    ensures SortedOk(r)
  {
    SamePr(k.procs, r.procs);
  }

  lemma SleepTree(k: Kern, k1: Kern, waiting: bool, event: Addr)
    requires Inv(k) && k.curr != 0
    requires k1 == k.(procs := k.procs[k.curr := k.procs[k.curr].(inWait := waiting)]) && Shape(k1)
    ensures FallAsleep(k1, event).run != []
    ensures TreeOf(Scheduler(FallAsleep(k1, event))) == TreeOf(k)
  {
    hide FallAsleep;
    hide Scheduler;
    hide SortedOk;
    hide FamilyOk;
    hide WaitersOk;
    hide Distinct;
    hide TreeOf;
    ZeroQueued(k);
    SortedAlike(k, k1);
    FallAsleepOk(k1, event);
    SchedulerOk(FallAsleep(k1, event));
    SameTree(k, Scheduler(FallAsleep(k1, event)));
  }

  lemma WakeTree(k: Kern, e: Addr)
    requires QueuesOk(k) && SortedOk(k) && k.procs[k.curr].state != SLEEPING
    ensures TreeOf(Wakeup(k, e)) == TreeOf(k)
  {
    WakeupOk(k, e);
    hide Wakeup;
    hide TreeOf;
    SameTree(k, Wakeup(k, e));
  }

  lemma SpawnTree(k: Kern)
    requires Inv(k) && k.curr != 0 && k.free != []
    ensures TreeStep(TreeOf(k), Forked(k.free[0], k.curr), TreeOf(Spawn(k)))
  {
    hide Spawn;
    hide SortedOk;
    hide WaitersOk;
    hide TreeOf;
    hide TreeStep;
    SpawnOk(k);
    SpawnProcs(k);
    assert k.free[0] != 0 && k.free[0] != k.curr;
    SpawnNode(k, Spawn(k), k.free[0]);
  }

  lemma SpawnNode(k: Kern, r: Kern, np: nat)
    requires Shape(k) && Shape(r) && 1 <= np < NPROCS && k.procs[np].state == UNUSED
    requires k.curr != 0 && k.procs[k.curr].state == RUNNABLE
    requires r.procs == k.procs[np := k.procs[np].(state := RUNNABLE, parent := Proc(k.curr),
                                 priority := k.procs[k.curr].priority, ppid := k.curr, inWait := false)]
    ensures TreeStep(TreeOf(k), Forked(np, k.curr), TreeOf(r))
  {
    var t, t' := TreeOf(k), TreeOf(r);
    assert t'.Keys == t[np := Living(k.curr)].Keys;
  }

  lemma WaitTree(k: Kern)
    requires Inv(k) && k.curr != 0
    ensures CanSwitch(k) && TreeStep(TreeOf(k), WaitLoop(k).1, TreeOf(WaitLoop(k).0))
  {
    ZeroQueued(k);
    ScanFinds(k);
    var c := ScanFrom(k, 2);
    hide FallAsleep;
    hide Scheduler;
    hide SortedOk;
    hide WaitersOk;
    if c < NPROCS {
      ReapTree(k, c);
    } else {
      SleepTree(k, k.(procs := k.procs[k.curr := k.procs[k.curr].(inWait := true)]), true, Proc(k.curr));
    }
  }

  lemma ReapTree(k: Kern, c: nat)
    requires Inv(k) && k.curr != 0 && c < NPROCS && IsDeadChild(k, c)
    ensures TreeStep(TreeOf(k), Reaped(c, k.curr, k.procs[c].exitcode), TreeOf(Reap(k, c)))
  {
    hide SortedOk;
    hide WaitersOk;
    hide Distinct;
    hide Pids;
    LivesAsLiving(k);
    var r := Reap(k, c);
    assert r.procs == k.procs[c := k.procs[c].(state := UNUSED)][k.curr := k.procs[k.curr].(inWait := false)];
    assert c != k.curr;
  }

  lemma LeaveTree(k: Kern, value: int)
    requires Inv(k) && k.curr != 0 && k.curr != 1 && !k.procs[k.curr].inWait
    ensures Leave(k, value).run != []
    ensures TreeStep(TreeOf(k), Exited(k.curr, value), TreeOf(Scheduler(Leave(k, value))))
  {
    ZeroQueued(k);
    LeaveKeepsZero(k, value);
    var k1, k2 := LeaveParts(k, value);
    ZombifiedQueues(k, k1, value);
    hide Leave;
    hide Wakeup;
    hide Scheduler;
    hide TreeOf;
    hide SortedOk;
    hide FamilyOk;
    hide WaitersOk;
    WakeupOk(k1, Proc(k.procs[k.curr].ppid));
    WakeTree(k1, Proc(k.procs[k.curr].ppid));
    var k3 := Leave(k, value);
    if k3 != k2 {
      WakeupOk(k2, Proc(1));
      WakeTree(k2, Proc(1));
    }
    SchedulerOk(k3);
    SameTree(k3, Scheduler(k3));
    ZombieTree(k, k1, value);
  }

  lemma ZombieTree(k: Kern, k1: Kern, value: int)
    requires Shape(k) && Inv(k) && k.curr != 0 && k.curr != 1 && Zombified(k, k1, value)
    ensures TreeStep(TreeOf(k), Exited(k.curr, value), TreeOf(k1))
  {
    hide QueuesOk;
    hide SortedOk;
    hide WaitersOk;
    hide FamilyOk;
    hide NodeOf;
    hide Adopted;
    hide IsOrphan;
    forall q: nat | 1 <= q < NPROCS && k.procs[q].state != UNUSED
      ensures k1.procs[q].state != UNUSED
      ensures NodeOf(k1.procs[q]) ==
              if q == k.curr then Dead(NodeOf(k.procs[q]).parent, value) else Adopted(NodeOf(k.procs[q]), k.curr)
    {
      ZombieNode(k, k1, value, q);
    }
    forall q: nat | 1 <= q < NPROCS && k.procs[q].state == UNUSED ensures k1.procs[q].state == UNUSED {
    }
    var t := TreeOf(k);
    assert TreeOf(k1) == map q | q in t :: if q == k.curr then Dead(t[k.curr].parent, value) else Adopted(t[q], k.curr);
    assert t[k.curr].Living? by { LivesAsLiving(k); }
  }

  lemma LivesAsLiving(k: Kern)
    requires Inv(k) && k.curr != 0
    ensures k.curr in TreeOf(k) && TreeOf(k)[k.curr].Living?
  {
    hide WaitersOk;
    hide SortedOk;
  }

  lemma ZombieNode(k: Kern, k1: Kern, value: int, q: nat)
    requires Inv(k) && k.curr != 0 && k.curr != 1 && Zombified(k, k1, value)
    requires 1 <= q < NPROCS && k.procs[q].state != UNUSED
    ensures k1.procs[q].state != UNUSED
    ensures NodeOf(k1.procs[q]) ==
            if q == k.curr then Dead(NodeOf(k.procs[q]).parent, value) else Adopted(NodeOf(k.procs[q]), k.curr)
  {
    hide SortedOk;
    hide WaitersOk;
  }

  // ---------------------------------------------------------------------------------------------
  // What a trace says

  /** A trace the family tree accepts from t, ending in t'. */
  ghost predicate Accepted(t: Tree, trace: seq<Obs>, t': Tree)
    decreases |trace|
  {
    if trace == [] then t' == t
    else exists mid :: TreeStep(t, trace[0], mid) && Accepted(mid, trace[1..], t')
  }

  lemma {:induction false} TraceAccepted(k: Kern, ops: seq<Op>)
    requires Inv(k) && Legal(k, ops)
    ensures Accepted(TreeOf(k), Trace(k, ops), TreeOf(Exec(k, ops)))
    decreases |ops|
  {
    if ops != [] {
      hide Step;
      hide TreeOf;
      hide TreeStep;
      hide Inv;
      StepTree(k, ops[0]);
      StepKeeps(k, ops[0]);
      var (k1, o) := Step(k, ops[0]);
      TraceAccepted(k1, ops[1..]);
      var trace := Trace(k, ops);
      assert trace[0] == o && trace[1..] == Trace(k1, ops[1..]);
      assert TreeStep(TreeOf(k), trace[0], TreeOf(k1));
    }
  }

  // ---------------------------------------------------------------------------------------------
  // What a run has to say about a zombie

  predicate About(o: Obs, c: nat) {
    match o
    case Silent => false
    case Forked(child, _) => child == c
    case Exited(p, _) => p == c
    case Reaped(child, _, _) => child == c
  }

  /** The latest thing that happened to c is its exit with value v, at step i. */
  predicate LeftWith(past: seq<Obs>, i: nat, c: nat, v: int) {
    i < |past| && past[i] == Exited(c, v) && forall m :: i < m < |past| ==> !About(past[m], c)
  }

  ghost predicate Left(past: seq<Obs>, c: nat, v: int) {
    exists i: nat :: LeftWith(past, i, c, v)
  }

  predicate DeadIn(t: Tree, c: nat, v: int) {
    c in t && t[c].Dead? && t[c].value == v
  }

  /** The parent of c by the book: whoever forked it, or init from the moment that parent exited. */
  function ParentIn(past: seq<Obs>, c: nat): nat {
    if past == [] then 0
    else
      var n := |past| - 1;
      var before := ParentIn(past[..n], c);
      match past[n]
      case Forked(child, p) => if child == c then p else before
      case Exited(p, _) => if p != c && p == before then 1 else before
      case _ => before
  }

  /** The tree agrees with the past on who is a zombie, with what value, and on everybody's parent. */
  ghost predicate Faithful(t: Tree, past: seq<Obs>) {
    && (forall c, v :: DeadIn(t, c, v) <==> Left(past, c, v))
    && (forall c :: c in t ==> t[c].parent == ParentIn(past, c))
  }

  lemma LeftLater(past: seq<Obs>, o: Obs, c: nat, v: int)
    ensures Left(past + [o], c, v) <==> o == Exited(c, v) || (!About(o, c) && Left(past, c, v))
  {
    var all := past + [o];
    assert all[|past|] == o;
    if o == Exited(c, v) {
      assert LeftWith(all, |past|, c, v);
    } else if !About(o, c) {
      if Left(past, c, v) {
        var i: nat :| LeftWith(past, i, c, v);
        assert LeftWith(all, i, c, v);
      }
      if Left(all, c, v) {
        var i: nat :| LeftWith(all, i, c, v);
        assert i < |past|;
        forall m | i < m < |past| ensures !About(past[m], c) { assert all[m] == past[m]; }
        assert LeftWith(past, i, c, v);
      }
    }
  }

  lemma FaithfulStep(t: Tree, past: seq<Obs>, o: Obs, t': Tree)
    requires Faithful(t, past) && TreeStep(t, o, t')
    ensures Faithful(t', past + [o])
  {
    hide Left;
    forall c, v
      ensures DeadIn(t', c, v) <==> Left(past + [o], c, v)
    {
      assert DeadIn(t, c, v) <==> Left(past, c, v);
      LeftLater(past, o, c, v);
      DeadLater(t, o, t', c, v);
    }
    assert (past + [o])[..|past|] == past;
    forall c | c in t' ensures t'[c].parent == ParentIn(past + [o], c) {
    }
  }

  lemma DeadLater(t: Tree, o: Obs, t': Tree, c: nat, v: int)
    requires TreeStep(t, o, t')
    ensures DeadIn(t', c, v) <==> o == Exited(c, v) || (!About(o, c) && DeadIn(t, c, v))
  {
  }

  /** In an accepted trace every reaped zombie had left with the status its parent gets, and nothing has
      happened to it since: so every exit is collected at most once, and by the parent of the moment. */
  lemma {:induction false} ReapIsFaithful(t: Tree, past: seq<Obs>, trace: seq<Obs>, t': Tree, j: nat)
    requires Faithful(t, past) && Accepted(t, trace, t') && j < |trace| && trace[j].Reaped?
    ensures var all := past + trace[..j];
            && Left(all, trace[j].child, trace[j].status)
            && trace[j].parent == ParentIn(all, trace[j].child)
    decreases |trace|
  {
    var mid :| TreeStep(t, trace[0], mid) && Accepted(mid, trace[1..], t');
    if j == 0 {
      assert past + trace[..0] == past;
    } else {
      FaithfulStep(t, past, trace[0], mid);
      ReapIsFaithful(mid, past + [trace[0]], trace[1..], t', j - 1);
      assert past + [trace[0]] + trace[1..][..j - 1] == past + trace[..j];
    }
  }

  lemma {:induction false} EndIsFaithful(t: Tree, past: seq<Obs>, trace: seq<Obs>, t': Tree)
    requires Faithful(t, past) && Accepted(t, trace, t')
    ensures Faithful(t', past + trace)
    decreases |trace|
  {
    if trace == [] {
      assert past + trace == past;
    } else {
      var mid :| TreeStep(t, trace[0], mid) && Accepted(mid, trace[1..], t');
      FaithfulStep(t, past, trace[0], mid);
      EndIsFaithful(mid, past + [trace[0]], trace[1..], t');
      assert past + [trace[0]] + trace[1..] == past + trace;
    }
  }

  lemma BootFaithful()
    ensures Faithful(TreeOf(Boot()), [])
  {
    var k := Boot();
    forall p: nat | 1 <= p < NPROCS ensures p != 1 ==> k.procs[p].state == UNUSED {
      if p != 1 {
        assert k.procs[p].state != RUNNABLE;
      }
    }
  }

  /** From boot: a reap at step j takes a process whose latest event is its own kexit, hands over the value
      given there, and is done by the parent of the moment, which is init once the forking parent has left. */
  lemma ReapedOnce(ops: seq<Op>, j: nat)
    requires Legal(Boot(), ops) && j < |Trace(Boot(), ops)| && Trace(Boot(), ops)[j].Reaped?
    ensures var trace := Trace(Boot(), ops);
            && Left(trace[..j], trace[j].child, trace[j].status)
            && trace[j].parent == ParentIn(trace[..j], trace[j].child)
  {
    BootFaithful();
    TraceAccepted(Boot(), ops);
    var trace := Trace(Boot(), ops);
    ReapIsFaithful(TreeOf(Boot()), [], trace, TreeOf(Exec(Boot(), ops)), j);
    assert [] + trace[..j] == trace[..j];
  }

  /** From boot: a slot is a zombie with exit code v exactly when its latest event is a kexit(v) nobody has
      collected yet: no zombie is lost. */
  lemma ZombieMeans(ops: seq<Op>, c: nat, v: int)
    requires Legal(Boot(), ops) && 1 <= c < NPROCS
    ensures var k := Exec(Boot(), ops);
            k.procs[c].state == ZOMBIE && k.procs[c].exitcode == v <==> Left(Trace(Boot(), ops), c, v)
  {
    hide Trace;
    hide Legal;
    hide Exec;
    hide Accepted;
    hide Inv;
    hide Left;
    hide Boot;
    InvShape(Boot());
    BootFaithful();
    TraceAccepted(Boot(), ops);
    var trace, k := Trace(Boot(), ops), Exec(Boot(), ops);
    InvShape(k);
    EndIsFaithful(TreeOf(Boot()), [], trace, TreeOf(k));
    assert [] + trace == trace;
    assert DeadIn(TreeOf(k), c, v) <==> k.procs[c].state == ZOMBIE && k.procs[c].exitcode == v;
  }

  lemma InvShape(k: Kern)
    requires Inv(k)
    ensures Shape(k)
  {
  }

  // ---------------------------------------------------------------------------------------------
  // A run in which all of it happens

  /** Once process 1 has forked 2: the two of them and 0 are all there is, and 1 runs. */
  ghost predicate Pair(k: Kern) {
    && Inv(k) && k.curr == 1
    && k.procs[1].ppid == 0 && !k.procs[1].inWait
    && k.procs[2].state == RUNNABLE && k.procs[2].ppid == 1 && !k.procs[2].inWait
    && forall i :: 3 <= i < NPROCS ==> k.procs[i].state == UNUSED
  }

  lemma FirstFork()
    ensures Enabled(Boot(), Fork(true)) && CanSwitch(Boot())
    ensures var (k, o) := Step(Boot(), Fork(true)); o == Forked(2, 1) && Pair(k)
  {
    BootOk();
    var k0 := Boot();
    assert Booted(k0);
    hide Boot;
    ForkMeans(k0, true);
    StepKeeps(k0, Fork(true));
    hide Step;
    hide Inv;
    hide Joined;
    assert k0.free[0] == 2;
  }

  /** Who runs next, if 0 and p are the only runnable processes. */
  lemma OnlyRunnable(k: Kern, p: nat)
    requires Inv(k) && 0 < p < NPROCS && k.procs[p].state == RUNNABLE
    requires forall i :: 1 <= i < NPROCS && i != p ==> k.procs[i].state != RUNNABLE
    ensures k.curr == p
  {
    hide FamilyOk;
    hide WaitersOk;
    hide SortedOk;
    assert p == k.curr || p in k.run;
  }

  /** 1 waits for 2, which runs. */
  ghost predicate Waiting(k: Kern) {
    && Inv(k) && k.curr == 2 && k.procs[2].ppid == 1 && !k.procs[2].inWait && k.procs[2].state == RUNNABLE
    && k.procs[1].state == SLEEPING && k.procs[1].event == Proc(1) && k.procs[1].inWait
    && forall i :: 3 <= i < NPROCS ==> k.procs[i].state == UNUSED
  }

  lemma FirstWait(k: Kern)
    requires Pair(k)
    ensures Enabled(k, Wait) && CanSwitch(k) && Step(k, Wait).1 == Silent && Waiting(Step(k, Wait).0)
  {
    WaitMeans(k);
    StepKeeps(k, Wait);
    assert ChildAt(k, 2);
    var (r, o) := Step(k, Wait);
    hide Step;
    forall c: nat | c < NPROCS ensures !DeadAt(k, c) {
      assert c == 2 || c < 2 || k.procs[c].state == UNUSED;
    }
    assert SleptOn(k, Proc(1), true, r);
    hide Joined;
    OnlyRunnable(r, 2);
    hide Inv;
  }

  /** 2 is dead and 1 is back in kwait's loop. */
  ghost predicate Orphaned(k: Kern, value: int) {
    && Inv(k) && k.curr == 1 && k.procs[1].inWait && k.procs[2].state == ZOMBIE && k.procs[2].ppid == 1
    && k.procs[2].exitcode == value
  }

  lemma FirstExit(k: Kern, value: int)
    requires Waiting(k)
    ensures Enabled(k, Exit(value)) && CanSwitch(k)
    ensures Step(k, Exit(value)).1 == Exited(2, value) && Orphaned(Step(k, Exit(value)).0, value)
  {
    ExitMeans(k, value);
    StepKeeps(k, Exit(value));
    var (r, o) := Step(k, Exit(value));
    hide Step;
    hide HasOrphans;
    assert r.procs[1].state == RUNNABLE && r.procs[2].state == ZOMBIE;
    assert forall i :: 3 <= i < NPROCS ==> r.procs[i].state == UNUSED;
    OnlyRunnable(r, 1);
    hide Inv;
  }

  lemma FirstReap(k: Kern, value: int)
    requires Orphaned(k, value)
    ensures Enabled(k, Resume) && CanSwitch(k) && Step(k, Resume).1 == Reaped(2, 1, value)
    ensures var r := Step(k, Resume).0; Inv(r) && r.procs[2].state == UNUSED
  {
    ResumeMeans(k);
    StepKeeps(k, Resume);
    hide Step;
    hide Inv;
    hide SleptOn;
    assert DeadAt(k, 2);
  }

  /** From boot: init forks, waits, the child exits with a value, and init collects it. */
  lemma WholeLife(value: int, ops: seq<Op>)
    requires ops == [Fork(true), Wait, Exit(value), Resume]
    ensures Legal(Boot(), ops)
    ensures Trace(Boot(), ops) == [Forked(2, 1), Silent, Exited(2, value), Reaped(2, 1, value)]
  {
    var k0 := Boot();
    hide Boot;
    hide Step;
    hide Inv;
    hide Enabled;
    FirstFork();
    InvShape(k0);
    var k1 := Step(k0, Fork(true)).0;
    InvShape(k1);
    FirstWait(k1);
    var k2 := Step(k1, Wait).0;
    InvShape(k2);
    FirstExit(k2, value);
    var k3 := Step(k2, Exit(value)).0;
    InvShape(k3);
    FirstReap(k3, value);
    var k4 := Step(k3, Resume).0;
    RunOne(k3, Resume, []);
    RunOne(k2, Exit(value), [Resume]);
    RunOne(k1, Wait, [Exit(value), Resume]);
    RunOne(k0, Fork(true), [Wait, Exit(value), Resume]);
    assert [Resume] + [] == [Resume] && [Exit(value)] + [Resume] == [Exit(value), Resume];
    assert [Wait] + [Exit(value), Resume] == [Wait, Exit(value), Resume];
    assert [Fork(true)] + [Wait, Exit(value), Resume] == ops;
  }

  lemma RunOne(k: Kern, op: Op, rest: seq<Op>)
    requires Inv(k) && Enabled(k, op) && CanSwitch(k) && Inv(Step(k, op).0) && Legal(Step(k, op).0, rest)
    ensures Legal(k, [op] + rest) && Trace(k, [op] + rest) == [Step(k, op).1] + Trace(Step(k, op).0, rest)
  {
    hide Step;
    assert ([op] + rest)[1..] == rest;
  }
}
