/** The system's open-file table and the descriptor tables of the processes: open, pipe, dup2, close, fork and
    exit as steps on values, and what every run of them keeps. */
module OpenFiles {

  const NPROCS := 64
  const NOFTS := 100
  const PROC_FD_MAX := 10

  const O_RDONLY := 0
  const O_WRONLY := 1
  const O_RDWR := 2
  const O_DIRECTORY := 4
  const O_TRUNC := 512
  const O_APPEND := 1024
  const READ_PIPE := 4
  const WRITE_PIPE := 5

  /** The in-memory inode an entry stands for; device says that it is a character or block special file. */
  datatype FileRef = NoFile | Inode(n: nat, device: bool)

  datatype Oft = Oft(refcount: int, mode: nat, file: FileRef, pipe: int, offset: nat)

  /** fd[p][i] is the open-file entry descriptor i of process p refers to, or -1. */
  datatype Files = Files(oft: seq<Oft>, fd: seq<seq<int>>, live: seq<bool>, curr: nat)

  predicate RowOk(row: seq<int>) {
    |row| == PROC_FD_MAX && forall i :: 0 <= i < PROC_FD_MAX ==> -1 <= row[i] < NOFTS
  }

  predicate Shape(s: Files) {
    && |s.oft| == NOFTS && |s.fd| == NPROCS && |s.live| == NPROCS && s.curr < NPROCS && s.live[s.curr]
    && forall p :: 0 <= p < NPROCS ==> RowOk(s.fd[p])
  }

  function Row(s: Files): (r: seq<int>)
    requires Shape(s)
    ensures RowOk(r)
  {
    s.fd[s.curr]
  }

  function Has(flags: nat, bit: nat): bool
    requires bit > 0
  {
    flags / bit % 2 == 1
  }

  // ---------------------------------------------------------------------------------------------
  // The operations

  /** oft_alloc's choice: the first entry of refcount 0, or NOFTS. */
  function FirstFree(oft: seq<Oft>, i: nat): (r: nat)
    requires i <= |oft|
    ensures i <= r <= |oft| && (r < |oft| ==> oft[r].refcount == 0)
    ensures forall j :: i <= j < r ==> oft[j].refcount != 0
    decreases |oft| - i
  {
    if i == |oft| || oft[i].refcount == 0 then i else FirstFree(oft, i + 1)
  }

  /** The first empty descriptor from i on, or the length of the row. */
  function FirstEmpty(row: seq<int>, i: nat): (r: nat)
    requires i <= |row|
    ensures i <= r <= |row| && (r < |row| ==> row[r] == -1)
    ensures forall j :: i <= j < r ==> row[j] != -1
    decreases |row| - i
  {
    if i == |row| || row[i] == -1 then i else FirstEmpty(row, i + 1)
  }

  /** oft_dalloc: the pointers are cleared, the reference count is not. */
  function Cleared(o: Oft): Oft {
    o.(file := NoFile, pipe := 0)
  }

  /** The process already holds the file open for change and asks to change it again. */
  predicate Conflict(s: Files, flags: nat, file: FileRef)
    requires Shape(s)
  {
    && file.Inode? && !file.device && flags != O_RDONLY && !Has(flags, O_DIRECTORY)
    && exists i :: 0 <= i < PROC_FD_MAX && Holds(s, i, file)
  }

  predicate Holds(s: Files, i: nat, file: FileRef)
    requires Shape(s) && i < PROC_FD_MAX
  {
    Row(s)[i] != -1 && s.oft[Row(s)[i]].file == file && s.oft[Row(s)[i]].mode != O_RDONLY
  }

  /** Where reading or writing starts. */
  function Start(flags: nat, regular: bool, size: nat): nat {
    if (Has(flags, O_WRONLY) || Has(flags, O_RDWR)) && regular && !Has(flags, O_TRUNC) && Has(flags, O_APPEND) then size else 0
  }

  /** kopen, once the path has resolved to file and access is granted. */
  function Open(s: Files, flags: nat, file: FileRef, regular: bool, size: nat): (r: (Files, int))
    requires Shape(s) && file.Inode?
    ensures Shape(r.0)
  {
    var e := FirstFree(s.oft, 0);
    var slot := FirstEmpty(Row(s), 0);
    if Conflict(s, flags, file) || e == NOFTS then (s, -1)
    else
      var o := Oft(1, flags, file, s.oft[e].pipe, Start(flags, regular, size));
      if slot == PROC_FD_MAX then (s.(oft := s.oft[e := Cleared(o)]), -1)
      else (s.(oft := s.oft[e := o], fd := s.fd[s.curr := Row(s)[slot := e]]), slot as int)
  }

  /** kpipe, with the free pipe it found. */
  function MakePipe(s: Files, pipe: int): (r: (Files, int, int))
    requires Shape(s)
    ensures Shape(r.0)
  {
    var e0 := FirstFree(s.oft, 0);
    if e0 == NOFTS then (s, -1, -1)
    else
      var oft1 := s.oft[e0 := s.oft[e0].(refcount := 1)];
      var e1 := FirstFree(oft1, 0);
      if e1 == NOFTS then (s.(oft := oft1[e0 := Cleared(oft1[e0])]), -1, -1)
      else
        var oft2 := oft1[e1 := oft1[e1].(refcount := 1)];
        var i0 := FirstEmpty(Row(s), 0);
        var i1 := if i0 < PROC_FD_MAX then FirstEmpty(Row(s), i0 + 1) else PROC_FD_MAX;
        if i1 == PROC_FD_MAX then
          (s.(oft := oft2[e0 := Cleared(oft2[e0])][e1 := Cleared(oft2[e1])]), -1, -1)
        else
          (s.(oft := oft2[e0 := oft2[e0].(mode := READ_PIPE, file := NoFile, pipe := pipe)]
                         [e1 := oft2[e1].(mode := WRITE_PIPE, file := NoFile, pipe := pipe)],
              fd := s.fd[s.curr := Row(s)[i0 := e0][i1 := e1]]), i0 as int, i1 as int)
  }

  /** kclose(i), which for a pipe end is close_pipe(i) */
  function Close(s: Files, i: int): (r: Files)
    requires Shape(s)
    ensures Shape(r) && r.live == s.live && r.curr == s.curr
    ensures forall p :: 0 <= p < NPROCS && p != s.curr ==> r.fd[p] == s.fd[p]
    ensures Row(r) == if 0 <= i < PROC_FD_MAX then Row(s)[i := -1] else Row(s)
  {
    if !(0 <= i < PROC_FD_MAX) || Row(s)[i] == -1 then s
    else
      var e := Row(s)[i];
      var o := s.oft[e].(refcount := s.oft[e].refcount - 1);
      var gone := o.mode != READ_PIPE && o.mode != WRITE_PIPE && o.refcount <= 0;
      s.(oft := s.oft[e := if gone then Cleared(o) else o], fd := s.fd[s.curr := Row(s)[i := -1]])
  }

  /** dup2 of an open descriptor onto itself closes it and then counts a reference through null. */
  predicate DupSafe(s: Files, oldfd: int, newfd: int)
    requires Shape(s)
  {
    oldfd != newfd || !(0 <= oldfd < PROC_FD_MAX) || Row(s)[oldfd] == -1
  }

  /** kdup2(old, new) */
  function Dup2(s: Files, oldfd: int, newfd: int): (r: Files)
    requires Shape(s) && DupSafe(s, oldfd, newfd)
    ensures Shape(r)
  {
    if !(0 <= oldfd < PROC_FD_MAX && 0 <= newfd < PROC_FD_MAX) || Row(s)[oldfd] == -1 then s
    else
      var s1 := Close(s, newfd);
      var e := Row(s1)[oldfd];
      s1.(oft := s1.oft[e := s1.oft[e].(refcount := s1.oft[e].refcount + 1)],
          fd := s1.fd[s1.curr := Row(s1)[newfd := e]])
  }

  /** The descriptors kfork hands to slot np. */
  function Fork(s: Files, np: nat): (r: Files)
    requires Shape(s) && np < NPROCS
    ensures Shape(r)
  {
    s.(oft := seq(NOFTS, e requires 0 <= e < NOFTS => s.oft[e].(refcount := s.oft[e].refcount + multiset(Row(s))[e])),
       fd := s.fd[np := Row(s)], live := s.live[np := true])
  }

  /** kexit's loop: descriptors below n closed. */
  function CloseUpto(s: Files, n: nat): (r: Files)
    requires Shape(s) && n <= PROC_FD_MAX
    ensures Shape(r) && r.live == s.live && r.curr == s.curr
    ensures forall p :: 0 <= p < NPROCS && p != s.curr ==> r.fd[p] == s.fd[p]
    ensures forall i :: 0 <= i < PROC_FD_MAX ==> Row(r)[i] == if i < n then -1 else Row(s)[i]
  {
    if n == 0 then s else Close(CloseUpto(s, n - 1), n - 1)
  }

  /** Closing everything, and the switch to next. */
  function Exit(s: Files, next: nat): (r: Files)
    requires Shape(s) && next < NPROCS && next != s.curr && s.live[next]
    ensures Shape(r)
  {
    var s1 := CloseUpto(s, PROC_FD_MAX);
    s1.(live := s1.live[s1.curr := false], curr := next)
  }

  datatype Op =
    | OpOpen(flags: nat, file: FileRef, regular: bool, size: nat)
    | OpPipe(pipe: int)
    | OpDup2(oldfd: int, newfd: int)
    | OpClose(i: int)
    | OpFork(np: nat)
    | OpExit(next: nat)
    | OpSwitch(next: nat)

  /** What the system admits: no descriptor opened with the modes that stand for pipe ends, no open one
      duplicated onto itself, and processes that exist. */
  predicate Enabled(s: Files, op: Op)
    requires Shape(s)
  {
    match op
    case OpOpen(flags, file, _, _) => flags != READ_PIPE && flags != WRITE_PIPE && file.Inode?
    case OpPipe(_) => true
    case OpDup2(oldfd, newfd) => DupSafe(s, oldfd, newfd)
    case OpClose(_) => true
    case OpFork(np) => np < NPROCS && !s.live[np]
    case OpExit(next) => next < NPROCS && next != s.curr && s.live[next]
    case OpSwitch(next) => next < NPROCS && s.live[next]
  }

  function Step(s: Files, op: Op): (r: Files)
    requires Shape(s) && Enabled(s, op)
    ensures Shape(r)
  {
    match op
    case OpOpen(flags, file, regular, size) => Open(s, flags, file, regular, size).0
    case OpPipe(pipe) => MakePipe(s, pipe).0
    case OpDup2(oldfd, newfd) => Dup2(s, oldfd, newfd)
    case OpClose(i) => Close(s, i)
    case OpFork(np) => Fork(s, np)
    case OpExit(next) => Exit(s, next)
    case OpSwitch(next) => s.(curr := next)
  }

  // ---------------------------------------------------------------------------------------------
  // Counting references

  /** How many descriptors, of all processes, refer to entry e. */
  function Refs(fd: seq<seq<int>>, e: int): nat {
    if fd == [] then 0 else multiset(fd[0])[e] + Refs(fd[1..], e)
  }

  lemma {:induction false} RefsSet(fd: seq<seq<int>>, p: nat, row: seq<int>, e: int)
    requires p < |fd|
    ensures Refs(fd[p := row], e) == Refs(fd, e) - multiset(fd[p])[e] + multiset(row)[e]
  {
    if p == 0 {
      assert fd[0 := row][1..] == fd[1..];
    } else {
      RefsSet(fd[1..], p - 1, row, e);
      assert fd[p := row][1..] == fd[1..][p - 1 := row];
    }
  }

  lemma {:induction false} RefsAtLeast(fd: seq<seq<int>>, p: nat, i: nat)
    requires p < |fd| && i < |fd[p]|
    ensures Refs(fd, fd[p][i]) >= 1
  {
    if p == 0 {
      assert fd[0][i] in multiset(fd[0]);
    } else {
      RefsAtLeast(fd[1..], p - 1, i);
    }
  }

  lemma {:induction false} RefsNone(fd: seq<seq<int>>, e: int)
    requires forall p, i :: 0 <= p < |fd| && 0 <= i < |fd[p]| ==> fd[p][i] != e
    ensures Refs(fd, e) == 0
  {
    if fd != [] {
      assert forall i :: 0 <= i < |fd[0]| ==> fd[0][i] != e;
      assert e !in multiset(fd[0]);
      RefsNone(fd[1..], e);
    }
  }

  // ---------------------------------------------------------------------------------------------
  // What a failed open or pipe loses

  /** kopen takes an entry and then finds no descriptor for it. */
  predicate OpenFails(s: Files, flags: nat, file: FileRef)
    requires Shape(s)
  {
    !Conflict(s, flags, file) && FirstFree(s.oft, 0) < NOFTS && FirstEmpty(Row(s), 0) == PROC_FD_MAX
  }

  /** kpipe takes its first entry and then finds no second one, or no two descriptors. */
  predicate PipeFails(s: Files)
    requires Shape(s)
  {
    var e0 := FirstFree(s.oft, 0);
    e0 < NOFTS && (FirstFree(s.oft, e0 + 1) == NOFTS || multiset(Row(s))[-1] < 2)
  }

  predicate Loses(s: Files, op: Op)
    requires Shape(s)
  {
    match op
    case OpOpen(flags, file, _, _) => OpenFails(s, flags, file)
    case OpPipe(_) => PipeFails(s)
    case _ => false
  }

  /** The entries this step takes out of circulation: their count stays 1 though nobody refers to them. */
  function LostBy(s: Files, op: Op): set<int>
    requires Shape(s)
  {
    var e0 := FirstFree(s.oft, 0);
    if !Loses(s, op) then {}
    else if op.OpOpen? || FirstFree(s.oft, e0 + 1) == NOFTS then {e0}
    else {e0, FirstFree(s.oft, e0 + 1)}
  }

  lemma LosesSome(s: Files, op: Op)
    requires Shape(s)
    ensures Loses(s, op) <==> LostBy(s, op) != {}
  {
    hide Conflict;
    assert Loses(s, op) ==> FirstFree(s.oft, 0) in LostBy(s, op);
  }

  /** The second call of oft_alloc looks behind the entry the first one took. */
  lemma {:induction false} SecondFree(oft: seq<Oft>, e0: nat, i: nat, oft1: seq<Oft>)
    requires e0 < |oft| && i <= e0 == FirstFree(oft, i) && oft1 == oft[e0 := oft[e0].(refcount := 1)]
    ensures FirstFree(oft1, i) == FirstFree(oft, e0 + 1)
    decreases |oft| - i
  {
    if i < e0 {
      SecondFree(oft, e0, i + 1, oft1);
    } else {
      SameFree(oft, oft1, e0 + 1);
    }
  }

  lemma {:induction false} SameFree(oft: seq<Oft>, oft1: seq<Oft>, i: nat)
    requires i <= |oft| == |oft1| && oft1[i..] == oft[i..]
    ensures FirstFree(oft1, i) == FirstFree(oft, i)
    decreases |oft| - i
  {
    if i < |oft| {
      assert oft1[i] == oft1[i..][0] == oft[i..][0] == oft[i];
      assert oft1[i + 1..] == oft1[i..][1..] == oft[i..][1..] == oft[i + 1..];
      SameFree(oft, oft1, i + 1);
    }
  }

  /** How many descriptors are empty from k on: those behind the first empty one, and that one. */
  lemma EmptyRest(row: seq<int>, k: nat)
    requires k <= |row|
    ensures var i := FirstEmpty(row, k);
            multiset(row[k..])[-1] == if i < |row| then 1 + multiset(row[i + 1..])[-1] else 0
  {
    var i := FirstEmpty(row, k);
    hide FirstEmpty;
    assert -1 !in row[k..i];
    if i < |row| {
      assert row[k..] == row[k..i] + ([-1] + row[i + 1..]);
      OneMore(row[i + 1..]);
    } else {
      assert row[k..] == row[k..i];
    }
  }

  lemma OneMore(t: seq<int>)
    ensures multiset([-1] + t)[-1] == 1 + multiset(t)[-1]
  {
  }

  /** Two descriptors are found if and only if two are empty. */
  lemma TwoEmpty(row: seq<int>)
    ensures multiset(row)[-1] >= 2
            <==> FirstEmpty(row, 0) < |row| && FirstEmpty(row, FirstEmpty(row, 0) + 1) < |row|
  {
    var i := FirstEmpty(row, 0);
    hide FirstEmpty;
    assert row[0..] == row;
    EmptyRest(row, 0);
    if i < |row| {
      EmptyRest(row, i + 1);
    }
  }

  /** kpipe fails without an entry to take, or as PipeFails says. */
  lemma PipeFailsMeans(s: Files, pipe: int)
    requires Shape(s)
    ensures MakePipe(s, pipe).1 == -1 <==> FirstFree(s.oft, 0) == NOFTS || PipeFails(s)
  {
    var e0 := FirstFree(s.oft, 0);
    TwoEmpty(Row(s));
    if e0 < NOFTS {
      SecondFree(s.oft, e0, 0, s.oft[e0 := s.oft[e0].(refcount := 1)]);
    }
  }

  function One(b: bool): nat {
    if b then 1 else 0
  }

  /** The count of every entry is the number of descriptors that refer to it, plus one if it was lost; nobody
      refers to a lost entry; a process that does not live holds nothing. */
  ghost predicate Counted(s: Files, lost: set<int>) {
    && Shape(s)
    && (forall e :: 0 <= e < NOFTS ==> s.oft[e].refcount == Refs(s.fd, e) + One(e in lost))
    && (forall e :: 0 <= e < NOFTS && e in lost ==> Refs(s.fd, e) == 0)
    && (forall p :: 0 <= p < NPROCS && !s.live[p] ==> Empty(s.fd[p]))
  }

  predicate Empty(row: seq<int>) {
    forall i :: 0 <= i < |row| ==> row[i] == -1
  }

  /** Refs after one descriptor of process p changed. */
  lemma RefsPut(fd: seq<seq<int>>, p: nat, i: nat, x: int, e: int)
    requires p < |fd| && i < |fd[p]|
    ensures Refs(fd[p := fd[p][i := x]], e) == Refs(fd, e) - One(fd[p][i] == e) + One(x == e)
  {
    RefsSet(fd, p, fd[p][i := x], e);
    assert fd[p][i] in multiset(fd[p]);
    assert multiset(fd[p][i := x]) == multiset(fd[p]) - multiset{fd[p][i]} + multiset{x};
  }

  lemma FreeUnreferenced(s: Files, lost: set<int>, e: int)
    requires Counted(s, lost) && 0 <= e < NOFTS && s.oft[e].refcount == 0
    ensures Refs(s.fd, e) == 0 && e !in lost
  {
  }

  lemma OpenCounted(s: Files, lost: set<int>, flags: nat, file: FileRef, regular: bool, size: nat)
    requires Counted(s, lost) && file.Inode?
    ensures Counted(Open(s, flags, file, regular, size).0, lost + LostBy(s, OpOpen(flags, file, regular, size)))
  {
    var e, slot := FirstFree(s.oft, 0), FirstEmpty(Row(s), 0);
    if !Conflict(s, flags, file) && e < NOFTS {
      FreeUnreferenced(s, lost, e);
      if slot < PROC_FD_MAX {
        forall x | 0 <= x < NOFTS
          ensures Refs(s.fd[s.curr := Row(s)[slot := e as int]], x) == Refs(s.fd, x) + One(x == e)
        {
          RefsPut(s.fd, s.curr, slot, e, x);
        }
      }
    }
    hide Conflict;
  }

  lemma CloseCounted(s: Files, lost: set<int>, i: int)
    requires Counted(s, lost)
    ensures Counted(Close(s, i), lost)
  {
    if 0 <= i < PROC_FD_MAX && Row(s)[i] != -1 {
      var e := Row(s)[i];
      RefsAtLeast(s.fd, s.curr, i);
      forall x | 0 <= x < NOFTS ensures Refs(Close(s, i).fd, x) == Refs(s.fd, x) - One(x == e) {
        RefsPut(s.fd, s.curr, i, -1, x);
      }
    }
  }

  lemma Dup2Counted(s: Files, lost: set<int>, oldfd: int, newfd: int)
    requires Counted(s, lost) && DupSafe(s, oldfd, newfd)
    ensures Counted(Dup2(s, oldfd, newfd), lost)
  {
    CloseCounted(s, lost, newfd);
    if 0 <= oldfd < PROC_FD_MAX && 0 <= newfd < PROC_FD_MAX && Row(s)[oldfd] != -1 {
      var s1 := Close(s, newfd);
      hide Close;
      var e := Row(s1)[oldfd];
      RefsAtLeast(s1.fd, s1.curr, oldfd);
      forall x | 0 <= x < NOFTS ensures Refs(s1.fd[s1.curr := Row(s1)[newfd := e]], x) == Refs(s1.fd, x) + One(x == e) {
        RefsPut(s1.fd, s1.curr, newfd, e, x);
      }
    }
  }

  lemma ForkCounted(s: Files, lost: set<int>, np: nat)
    requires Counted(s, lost) && np < NPROCS && !s.live[np]
    ensures Counted(Fork(s, np), lost)
  {
    forall x | 0 <= x < NOFTS
      ensures Refs(Fork(s, np).fd, x) == Refs(s.fd, x) + multiset(Row(s))[x]
      ensures x in lost ==> multiset(Row(s))[x] == 0
    {
      RefsSet(s.fd, np, Row(s), x);
      EmptyNone(s.fd[np], x);
      RefsMember(s.fd, s.curr, x);
    }
  }

  lemma EmptyNone(row: seq<int>, x: int)
    requires Empty(row) && x != -1
    ensures multiset(row)[x] == 0
  {
    assert x !in row;
  }

  lemma {:induction false} RefsMember(fd: seq<seq<int>>, p: nat, e: int)
    requires p < |fd|
    ensures multiset(fd[p])[e] <= Refs(fd, e)
  {
    if p > 0 { RefsMember(fd[1..], p - 1, e); }
  }

  lemma {:induction false} CloseUptoCounted(s: Files, lost: set<int>, n: nat)
    requires Counted(s, lost) && n <= PROC_FD_MAX
    ensures Counted(CloseUpto(s, n), lost)
  {
    hide Close;
    hide Counted;
    CountedShape(s, lost);
    if n > 0 {
      CloseUptoCounted(s, lost, n - 1);
      CloseCounted(CloseUpto(s, n - 1), lost, n - 1);
    }
  }

  /** Entries e0 and e1, counted once each and referred to by nobody, are lost or get their descriptors. */
  lemma PairCounted(s: Files, lost: set<int>, r: Files, e0: int, e1: int, more: set<int>)
    requires Counted(s, lost) && Shape(r) && r.live == s.live && r.curr == s.curr
    requires 0 <= e0 < NOFTS && s.oft[e0].refcount == 0 && (e1 == NOFTS || (0 <= e1 < NOFTS && s.oft[e1].refcount == 0))
    requires forall x :: 0 <= x < NOFTS ==> r.oft[x].refcount == if x == e0 || x == e1 then 1 else s.oft[x].refcount
    requires if more == {} then forall x :: 0 <= x < NOFTS ==> Refs(r.fd, x) == Refs(s.fd, x) + One(x == e0 || x == e1)
             else r.fd == s.fd && more == if e1 == NOFTS then {e0} else {e0, e1}
    requires forall p :: 0 <= p < NPROCS && p != s.curr ==> r.fd[p] == s.fd[p]
    ensures Counted(r, lost + more)
  {
    hide RowOk;
    hide Empty;
  }

  lemma PipeCounted(s: Files, lost: set<int>, pipe: int)
    requires Counted(s, lost)
    ensures Counted(MakePipe(s, pipe).0, lost + LostBy(s, OpPipe(pipe)))
  {
    hide Empty;
    hide Counted;
    hide Refs;
    CountedShape(s, lost);
    var e0 := FirstFree(s.oft, 0);
    TwoEmpty(Row(s));
    if e0 < NOFTS {
      SecondFree(s.oft, e0, 0, s.oft[e0 := s.oft[e0].(refcount := 1)]);
      var oft1 := s.oft[e0 := s.oft[e0].(refcount := 1)];
      var e1 := FirstFree(oft1, 0);
      assert e1 != e0;
      var i0 := FirstEmpty(Row(s), 0);
      var r := MakePipe(s, pipe).0;
      if e1 < NOFTS && i0 < PROC_FD_MAX && FirstEmpty(Row(s), i0 + 1) < PROC_FD_MAX {
        TwoPut(s, i0, FirstEmpty(Row(s), i0 + 1), e0, e1);
        PairCounted(s, lost, r, e0, e1, {});
      } else {
        PairCounted(s, lost, r, e0, e1, if e1 == NOFTS then {e0 as int} else {e0 as int, e1 as int});
      }
    } else {
      assert lost + {} == lost;
    }
  }

  lemma CountedShape(s: Files, lost: set<int>)
    requires Counted(s, lost)
    ensures Shape(s)
  {
  }

  lemma TwoPut(s: Files, i0: nat, i1: nat, e0: int, e1: int)
    requires Shape(s) && i0 < i1 < PROC_FD_MAX && Row(s)[i0] == -1 == Row(s)[i1] && 0 <= e0 < NOFTS && 0 <= e1 < NOFTS && e0 != e1
    ensures forall x :: 0 <= x < NOFTS ==>
              Refs(s.fd[s.curr := Row(s)[i0 := e0][i1 := e1]], x) == Refs(s.fd, x) + One(x == e0 || x == e1)
  {
    var fd1 := s.fd[s.curr := Row(s)[i0 := e0]];
    assert s.fd[s.curr := Row(s)[i0 := e0][i1 := e1]] == fd1[s.curr := fd1[s.curr][i1 := e1]];
    forall x | 0 <= x < NOFTS
      ensures Refs(s.fd[s.curr := Row(s)[i0 := e0][i1 := e1]], x) == Refs(s.fd, x) + One(x == e0 || x == e1)
    {
      RefsPut(s.fd, s.curr, i0, e0, x);
      RefsPut(fd1, s.curr, i1, e1, x);
    }
  }

  lemma ExitCounted(s: Files, lost: set<int>, next: nat)
    requires Counted(s, lost) && next < NPROCS && next != s.curr && s.live[next]
    ensures Counted(Exit(s, next), lost)
  {
    CloseUptoCounted(s, lost, PROC_FD_MAX);
    hide CloseUpto;
  }

  /** Every step keeps the counts exact, up to the entries it loses. */
  lemma StepCounted(s: Files, lost: set<int>, op: Op)
    requires Counted(s, lost) && Enabled(s, op)
    ensures Counted(Step(s, op), lost + LostBy(s, op))
  {
    hide Open;
    hide MakePipe;
    hide Close;
    hide Dup2;
    hide Fork;
    hide Exit;
    assert lost + {} == lost;
    match op
    case OpOpen(flags, file, regular, size) => OpenCounted(s, lost, flags, file, regular, size);
    case OpPipe(pipe) => PipeCounted(s, lost, pipe);
    case OpDup2(oldfd, newfd) => Dup2Counted(s, lost, oldfd, newfd);
    case OpClose(i) => CloseCounted(s, lost, i);
    case OpFork(np) => ForkCounted(s, lost, np);
    case OpExit(next) => ExitCounted(s, lost, next);
    case OpSwitch(next) =>
  }

  // ---------------------------------------------------------------------------------------------
  // What a reference is worth: as long as some descriptor refers to an entry, the entry stays what it is

  predicate SameEntry(a: Oft, b: Oft) {
    a.mode == b.mode && a.file == b.file && a.pipe == b.pipe
  }

  /** No step reuses or clears an entry that is referred to before and after it. */
  lemma StepKeepsEntry(s: Files, lost: set<int>, op: Op, e: int)
    requires Shape(s) && Counted(s, lost) && Enabled(s, op) && 0 <= e < NOFTS
    requires Refs(s.fd, e) > 0 && Refs(Step(s, op).fd, e) > 0
    ensures SameEntry(s.oft[e], Step(s, op).oft[e])
  {
    hide Open;
    hide MakePipe;
    hide Close;
    hide Dup2;
    hide CloseUpto;
    hide Counted;
    hide Refs;
    hide Conflict;
    CountedShape(s, lost);
    match op
    case OpOpen(flags, file, regular, size) => OpenKeepsEntry(s, lost, flags, file, regular, size, e);
    case OpPipe(pipe) => PipeKeepsEntry(s, lost, pipe, e);
    case OpDup2(oldfd, newfd) => Dup2KeepsEntry(s, lost, oldfd, newfd, e);
    case OpClose(i) => CloseKeepsEntry(s, lost, i, e);
    case OpFork(_) =>
    case OpExit(next) => CloseUptoKeepsEntry(s, lost, PROC_FD_MAX, e);
    case OpSwitch(_) =>
  }

  lemma OpenKeepsEntry(s: Files, lost: set<int>, flags: nat, file: FileRef, regular: bool, size: nat, e: int)
    requires Counted(s, lost) && file.Inode? && 0 <= e < NOFTS && Refs(s.fd, e) > 0
    ensures SameEntry(s.oft[e], Open(s, flags, file, regular, size).0.oft[e])
  {
    hide Conflict;
    FreeUnreferencedAll(s, lost);
  }

  lemma PipeKeepsEntry(s: Files, lost: set<int>, pipe: int, e: int)
    requires Counted(s, lost) && 0 <= e < NOFTS && Refs(s.fd, e) > 0
    ensures SameEntry(s.oft[e], MakePipe(s, pipe).0.oft[e])
  {
    FreeUnreferencedAll(s, lost);
  }

  lemma FreeUnreferencedAll(s: Files, lost: set<int>)
    requires Counted(s, lost)
    ensures forall e :: 0 <= e < NOFTS && s.oft[e].refcount == 0 ==> Refs(s.fd, e) == 0
  {
  }

  lemma CloseKeepsEntry(s: Files, lost: set<int>, i: int, e: int)
    requires Counted(s, lost) && 0 <= e < NOFTS && Refs(Close(s, i).fd, e) > 0
    ensures SameEntry(s.oft[e], Close(s, i).oft[e])
  {
    CloseCounted(s, lost, i);
  }

  lemma Dup2KeepsEntry(s: Files, lost: set<int>, oldfd: int, newfd: int, e: int)
    requires Counted(s, lost) && DupSafe(s, oldfd, newfd) && 0 <= e < NOFTS && Refs(Dup2(s, oldfd, newfd).fd, e) > 0
    ensures SameEntry(s.oft[e], Dup2(s, oldfd, newfd).oft[e])
  {
    if 0 <= oldfd < PROC_FD_MAX && 0 <= newfd < PROC_FD_MAX && Row(s)[oldfd] != -1 {
      var s1 := Close(s, newfd);
      RefsPut(s1.fd, s1.curr, newfd, Row(s1)[oldfd], e);
      RefsAtLeast(s1.fd, s1.curr, oldfd);
      CloseKeepsEntry(s, lost, newfd, e);
    }
  }

  lemma {:induction false} CloseUptoKeepsEntry(s: Files, lost: set<int>, n: nat, e: int)
    requires Shape(s) && Counted(s, lost) && n <= PROC_FD_MAX && 0 <= e < NOFTS && Refs(CloseUpto(s, n).fd, e) > 0
    ensures SameEntry(s.oft[e], CloseUpto(s, n).oft[e])
  {
    hide Close;
    hide Counted;
    hide Refs;
    CountedShape(s, lost);
    if n > 0 {
      CloseUptoCounted(s, lost, n - 1);
      var s1 := CloseUpto(s, n - 1);
      CloseKeepsEntry(s1, lost, n - 1, e);
      CloseDrops(s1, n - 1, e);
      CloseUptoKeepsEntry(s, lost, n - 1, e);
    }
  }

  lemma CloseDrops(s: Files, i: int, e: int)
    requires Shape(s) && e != -1
    ensures Refs(Close(s, i).fd, e) <= Refs(s.fd, e)
  {
    if 0 <= i < PROC_FD_MAX && Row(s)[i] != -1 { RefsPut(s.fd, s.curr, i, -1, e); }
  }

  // ---------------------------------------------------------------------------------------------
  // No process holds one file open for change through two entries

  predicate Rivals(a: Oft, b: Oft) {
    && a.file.Inode? && !a.file.device && a.file == b.file
    && a.mode != O_RDONLY && b.mode != O_RDONLY && !Has(a.mode, O_DIRECTORY) && !Has(b.mode, O_DIRECTORY)
  }

  predicate SoleRow(oft: seq<Oft>, row: seq<int>)
    requires |oft| == NOFTS && RowOk(row)
  {
    forall i, j :: 0 <= i < PROC_FD_MAX && 0 <= j < PROC_FD_MAX && row[i] != -1 && row[j] != -1 && row[i] != row[j] ==>
      !Rivals(oft[row[i]], oft[row[j]])
  }

  ghost predicate Sole(s: Files)
    requires Shape(s)
  {
    forall p :: 0 <= p < NPROCS ==> SoleRow(s.oft, s.fd[p])
  }

  /** Every entry of the new row was in the old row and is what it was, or is no file at all. */
  ghost predicate FromRow(oft: seq<Oft>, row: seq<int>, oft': seq<Oft>, row': seq<int>)
    requires |oft| == NOFTS && RowOk(row) && |oft'| == NOFTS && RowOk(row')
  {
    forall i :: 0 <= i < PROC_FD_MAX && row'[i] != -1 ==>
      oft'[row'[i]].file == NoFile || (row'[i] in row && SameEntry(oft[row'[i]], oft'[row'[i]]))
  }

  lemma FromSole(oft: seq<Oft>, row: seq<int>, oft': seq<Oft>, row': seq<int>)
    requires |oft| == NOFTS && RowOk(row) && |oft'| == NOFTS && RowOk(row')
    requires SoleRow(oft, row) && FromRow(oft, row, oft', row')
    ensures SoleRow(oft', row')
  {
    hide Has;
    forall i, j | 0 <= i < PROC_FD_MAX && 0 <= j < PROC_FD_MAX && row'[i] != -1 && row'[j] != -1 && row'[i] != row'[j]
      ensures !Rivals(oft'[row'[i]], oft'[row'[j]])
    {
      if row'[i] in row && row'[j] in row {
        var x :| 0 <= x < |row| && row[x] == row'[i];
        var y :| 0 <= y < |row| && row[y] == row'[j];
        assert !Rivals(oft[row[x]], oft[row[y]]);
      }
    }
  }

  /** The process whose old row the new row of p comes from. */
  function Origin(s: Files, op: Op, p: nat): nat {
    if op.OpFork? && op.np == p then s.curr else p
  }

  lemma RowOrigin(s: Files, op: Op, p: nat, i: nat)
    requires Shape(s) && Enabled(s, op) && p < NPROCS && i < PROC_FD_MAX
    ensures var x := Step(s, op).fd[p][i];
            || x == -1 || x in s.fd[Origin(s, op, p)]
            || (op.OpOpen? && p == s.curr && x == FirstFree(s.oft, 0) && Open(s, op.flags, op.file, op.regular, op.size).1 == i)
            || (op.OpPipe? && Step(s, op).oft[x].file == NoFile)
  {
    hide Conflict;
    if op.OpDup2? {
      assert s.curr < NPROCS;
      assert Row(Close(s, op.newfd)) == if 0 <= op.newfd < PROC_FD_MAX then Row(s)[op.newfd := -1] else Row(s);
      hide Close;
    }
  }

  lemma OldEntry(s: Files, lost: set<int>, op: Op, p: nat, i: nat)
    requires Shape(s) && Counted(s, lost) && Enabled(s, op) && p < NPROCS && i < PROC_FD_MAX
    requires Step(s, op).fd[p][i] != -1 && Step(s, op).fd[p][i] in s.fd[Origin(s, op, p)]
    ensures var x := Step(s, op).fd[p][i]; SameEntry(s.oft[x], Step(s, op).oft[x])
  {
    hide Step;
    hide Counted;
    var r, q := Step(s, op), Origin(s, op, p);
    var x := r.fd[p][i];
    var j :| 0 <= j < |s.fd[q]| && s.fd[q][j] == x;
    RefsAtLeast(s.fd, q, j);
    RefsAtLeast(r.fd, p, i);
    StepKeepsEntry(s, lost, op, x);
  }

  lemma StepSole(s: Files, lost: set<int>, op: Op)
    requires Shape(s) && Counted(s, lost) && Enabled(s, op) && Sole(s)
    ensures Sole(Step(s, op))
  {
    hide Step;
    hide Counted;
    hide FromRow;
    hide SoleRow;
    forall p | 0 <= p < NPROCS ensures SoleRow(Step(s, op).oft, Step(s, op).fd[p]) {
      if op.OpOpen? && p == s.curr {
        OpenSole(s, lost, op);
      } else {
        RowFrom(s, lost, op, p);
        assert SoleRow(s.oft, s.fd[Origin(s, op, p)]);
        FromSole(s.oft, s.fd[Origin(s, op, p)], Step(s, op).oft, Step(s, op).fd[p]);
      }
    }
  }

  lemma RowFrom(s: Files, lost: set<int>, op: Op, p: nat)
    requires Shape(s) && Counted(s, lost) && Enabled(s, op) && p < NPROCS && !(op.OpOpen? && p == s.curr)
    ensures FromRow(s.oft, s.fd[Origin(s, op, p)], Step(s, op).oft, Step(s, op).fd[p])
  {
    hide Step;
    hide Counted;
    var r := Step(s, op);
    forall i | 0 <= i < PROC_FD_MAX && r.fd[p][i] != -1
      ensures r.oft[r.fd[p][i]].file == NoFile ||
              (r.fd[p][i] in s.fd[Origin(s, op, p)] && SameEntry(s.oft[r.fd[p][i]], r.oft[r.fd[p][i]]))
    {
      RowOrigin(s, op, p, i);
      if r.fd[p][i] in s.fd[Origin(s, op, p)] { OldEntry(s, lost, op, p, i); }
    }
  }

  lemma OpenSole(s: Files, lost: set<int>, op: Op)
    requires Shape(s) && Counted(s, lost) && Enabled(s, op) && op.OpOpen? && SoleRow(s.oft, Row(s))
    ensures SoleRow(Step(s, op).oft, Step(s, op).fd[s.curr])
  {
    var r, slot := Step(s, op), Open(s, op.flags, op.file, op.regular, op.size).1;
    var row := r.fd[s.curr];
    forall i | 0 <= i < PROC_FD_MAX && row[i] != -1 && i != slot
      ensures row[i] in Row(s) && SameEntry(s.oft[row[i]], r.oft[row[i]])
    {
      RowOrigin(s, op, s.curr, i);
      OldEntry(s, lost, op, s.curr, i);
    }
    if slot == -1 {
      FromSole(s.oft, Row(s), r.oft, row);
    } else {
      OpenRow(s, op);
      FromSole(s.oft, Row(s), r.oft, row[slot := -1]);
      forall i | 0 <= i < PROC_FD_MAX && row[i] != -1 && row[i] != row[slot]
        ensures !Rivals(r.oft[row[slot]], r.oft[row[i]]) && !Rivals(r.oft[row[i]], r.oft[row[slot]])
      {
        NoRival(s, op, i);
      }
      hide Rivals;
      assert forall i :: 0 <= i < PROC_FD_MAX && i != slot ==> row[slot := -1][i] == row[i];
    }
  }

  lemma OpenRow(s: Files, op: Op)
    requires Shape(s) && Enabled(s, op) && op.OpOpen? && Open(s, op.flags, op.file, op.regular, op.size).1 != -1
    ensures var r, e, slot := Step(s, op), FirstFree(s.oft, 0), FirstEmpty(Row(s), 0);
            && slot < PROC_FD_MAX && e < NOFTS && Open(s, op.flags, op.file, op.regular, op.size).1 == slot
            && Row(r) == Row(s)[slot := e as int] && r.oft[e].file == op.file && r.oft[e].mode == op.flags
            && (forall x :: 0 <= x < NOFTS && x != e ==> r.oft[x] == s.oft[x])
            && !Conflict(s, op.flags, op.file) && r.curr == s.curr
  {
    hide Conflict;
  }

  lemma NoRival(s: Files, op: Op, i: nat)
    requires Shape(s) && Enabled(s, op) && op.OpOpen? && Open(s, op.flags, op.file, op.regular, op.size).1 != -1
    requires i < PROC_FD_MAX && Row(Step(s, op))[i] != -1 && Row(Step(s, op))[i] != FirstFree(s.oft, 0)
    ensures var r, e, x := Step(s, op), FirstFree(s.oft, 0), Row(Step(s, op))[i];
            !Rivals(r.oft[e], r.oft[x]) && !Rivals(r.oft[x], r.oft[e])
  {
    OpenRow(s, op);
    hide Step;
    hide Open;
    hide Has;
    assert Row(Step(s, op))[i] == Row(s)[i];
    assert !Holds(s, i, op.file) || op.file.device || op.flags == O_RDONLY || Has(op.flags, O_DIRECTORY);
  }

  // ---------------------------------------------------------------------------------------------
  // Runs

  ghost predicate Legal(s: Files, ops: seq<Op>)
    requires Shape(s)
    decreases |ops|
  {
    ops == [] || (Enabled(s, ops[0]) && Legal(Step(s, ops[0]), ops[1..]))
  }

  function Exec(s: Files, ops: seq<Op>): (r: Files)
    requires Shape(s) && Legal(s, ops)
    ensures Shape(r)
    decreases |ops|
  {
    if ops == [] then s else Exec(Step(s, ops[0]), ops[1..])
  }

  /** The entries lost in a run. */
  function LostIn(s: Files, ops: seq<Op>): set<int>
    requires Shape(s) && Legal(s, ops)
    decreases |ops|
  {
    if ops == [] then {} else LostBy(s, ops[0]) + LostIn(Step(s, ops[0]), ops[1..])
  }

  /** Over any run the counts stay exact up to the entries lost, and no lost entry is ever handed out again. */
  lemma {:induction false} RunCounted(s: Files, lost: set<int>, ops: seq<Op>)
    requires Counted(s, lost) && Legal(s, ops)
    ensures Counted(Exec(s, ops), lost + LostIn(s, ops))
    decreases |ops|
  {
    hide Step;
    hide LostBy;
    hide Counted;
    CountedShape(s, lost);
    if ops == [] {
      assert lost + {} == lost;
    } else {
      StepCounted(s, lost, ops[0]);
      RunCounted(Step(s, ops[0]), lost + LostBy(s, ops[0]), ops[1..]);
      assert lost + LostBy(s, ops[0]) + LostIn(Step(s, ops[0]), ops[1..]) == lost + LostIn(s, ops);
    }
  }

  ghost predicate Exact(s: Files)
    requires Shape(s)
  {
    forall e :: 0 <= e < NOFTS ==> s.oft[e].refcount == Refs(s.fd, e)
  }

  lemma LostByRange(s: Files, op: Op)
    requires Shape(s)
    ensures forall e :: e in LostBy(s, op) ==> 0 <= e < NOFTS
  {
  }

  lemma {:induction false} LostRange(s: Files, ops: seq<Op>)
    requires Shape(s) && Legal(s, ops)
    ensures forall e :: e in LostIn(s, ops) ==> 0 <= e < NOFTS
    decreases |ops|
  {
    if ops != [] {
      LostByRange(s, ops[0]);
      LostRange(Step(s, ops[0]), ops[1..]);
    }
  }

  /** No open and no pipe of the run fails after it has taken an entry. */
  ghost predicate NeverLoses(s: Files, ops: seq<Op>)
    requires Shape(s) && Legal(s, ops)
    decreases |ops|
  {
    ops == [] || (!Loses(s, ops[0]) && NeverLoses(Step(s, ops[0]), ops[1..]))
  }

  lemma {:induction false} LosesNothing(s: Files, ops: seq<Op>)
    requires Shape(s) && Legal(s, ops)
    ensures NeverLoses(s, ops) <==> LostIn(s, ops) == {}
    decreases |ops|
  {
    hide Step;
    hide LostBy;
    hide Loses;
    if ops != [] {
      LosesSome(s, ops[0]);
      LosesNothing(Step(s, ops[0]), ops[1..]);
    }
  }

  /** After a run from exact counts, every count equals the number of references if and only if no open or
      pipe on the way failed after it had taken an entry. */
  lemma ExactIff(s: Files, ops: seq<Op>)
    requires Counted(s, {}) && Legal(s, ops)
    ensures Exact(Exec(s, ops)) <==> NeverLoses(s, ops)
    ensures forall e :: 0 <= e < NOFTS ==> Exec(s, ops).oft[e].refcount >= Refs(Exec(s, ops).fd, e)
  {
    RunCounted(s, {}, ops);
    LostRange(s, ops);
    LosesNothing(s, ops);
    var lost := LostIn(s, ops);
    assert {} + lost == lost;
    hide LostIn;
    if Exact(Exec(s, ops)) {
      forall e ensures e !in lost {
        if 0 <= e < NOFTS { assert Exec(s, ops).oft[e].refcount == Refs(Exec(s, ops).fd, e) + One(e in lost); }
      }
      assert lost == {};
    }
  }

  /** At every point of the run some descriptor refers to e. */
  ghost predicate Referred(s: Files, ops: seq<Op>, e: int)
    requires Shape(s) && Legal(s, ops)
    decreases |ops|
  {
    Refs(s.fd, e) > 0 && (ops != [] ==> Referred(Step(s, ops[0]), ops[1..], e))
  }

  /** An entry that is referred to all along keeps its file, mode and pipe all along. */
  lemma {:induction false} HeldEntry(s: Files, lost: set<int>, ops: seq<Op>, e: int)
    requires Counted(s, lost) && Legal(s, ops) && 0 <= e < NOFTS && Referred(s, ops, e)
    ensures SameEntry(s.oft[e], Exec(s, ops).oft[e])
    decreases |ops|
  {
    if ops != [] {
      StepCounted(s, lost, ops[0]);
      StepKeepsEntry(s, lost, ops[0], e);
      HeldEntry(Step(s, ops[0]), lost + LostBy(s, ops[0]), ops[1..], e);
    }
  }

  /** Over any run, no process ever holds one file open for change through two entries. */
  lemma {:induction false} RunSole(s: Files, lost: set<int>, ops: seq<Op>)
    requires Shape(s) && Counted(s, lost) && Legal(s, ops) && Sole(s)
    ensures Sole(Exec(s, ops))
    decreases |ops|
  {
    hide Step;
    hide Counted;
    hide Sole;
    if ops != [] {
      StepCounted(s, lost, ops[0]);
      StepSole(s, lost, ops[0]);
      RunSole(Step(s, ops[0]), lost + LostBy(s, ops[0]), ops[1..]);
    }
  }

  /** Before anything is open. */
  lemma NothingOpen(s: Files)
    requires Shape(s) && (forall e :: 0 <= e < NOFTS ==> s.oft[e].refcount == 0)
    requires forall p :: 0 <= p < NPROCS ==> Empty(s.fd[p])
    ensures Counted(s, {})
  {
    forall e | 0 <= e < NOFTS ensures Refs(s.fd, e) == 0 {
      RefsNone(s.fd, e);
    }
  }

  // ---------------------------------------------------------------------------------------------
  // A run that loses an entry: one process opens a file for reading eleven times

  const FILE := Inode(1, false)

  /** The tables of a booted system after k such opens by process 0. */
  function Opened(k: nat): (s: Files)
    requires k <= PROC_FD_MAX
    ensures Shape(s)
  {
    Files(seq(NOFTS, e => if e < k then Oft(1, O_RDONLY, FILE, 0, 0) else Oft(0, 0, NoFile, 0, 0)),
          seq(NPROCS, p => seq(PROC_FD_MAX, i => if p == 0 && i < k then i else -1)),
          seq(NPROCS, p => p == 0), 0)
  }

  const OPENFILE := OpOpen(O_RDONLY, FILE, true, 0)

  lemma OpenNext(k: nat)
    requires k <= PROC_FD_MAX
    ensures Enabled(Opened(k), OPENFILE) && Loses(Opened(k), OPENFILE) == (k == PROC_FD_MAX)
    ensures k < PROC_FD_MAX ==> Step(Opened(k), OPENFILE) == Opened(k + 1)
    ensures k == PROC_FD_MAX ==> LostBy(Opened(k), OPENFILE) == {k as int}
  {
    var s := Opened(k);
    hide Has;
    assert s.oft[k].refcount == 0;
    assert k < PROC_FD_MAX ==> Row(s)[k] == -1;
    assert FirstFree(s.oft, 0) == k && FirstEmpty(Row(s), 0) == k;
    if k < PROC_FD_MAX {
      var t := Opened(k + 1);
      assert s.oft[k := Oft(1, O_RDONLY, FILE, 0, 0)] == t.oft;
      assert Row(s)[k := k as int] == Row(t);
      forall p | 0 <= p < NPROCS ensures s.fd[0 := Row(t)][p] == t.fd[p] {
      }
      assert s.fd[0 := Row(t)] == t.fd;
    }
  }

  lemma {:induction false} OpensLose(k: nat, ops: seq<Op>)
    requires k <= PROC_FD_MAX && ops == seq(PROC_FD_MAX + 1 - k, _ => OPENFILE)
    ensures Legal(Opened(k), ops) && LostIn(Opened(k), ops) == {PROC_FD_MAX}
    decreases |ops|
  {
    hide Opened;
    hide Enabled;
    hide Step;
    hide LostBy;
    hide Loses;
    OpenNext(k);
    assert ops[0] == OPENFILE;
    if k < PROC_FD_MAX {
      OpensLose(k + 1, ops[1..]);
      LosesSome(Opened(k), OPENFILE);
    } else {
      assert ops[1..] == [];
    }
  }

  /** From boot, eleven opens lose entry 10: its count is 1 and nobody refers to it. */
  lemma ElevenOpens(ops: seq<Op>)
    requires ops == seq(11, _ => OPENFILE)
    ensures Counted(Opened(0), {}) && Legal(Opened(0), ops)
    ensures !NeverLoses(Opened(0), ops) && !Exact(Exec(Opened(0), ops))
  {
    NothingOpen(Opened(0));
    OpensLose(0, ops);
    LosesNothing(Opened(0), ops);
    ExactIff(Opened(0), ops);
  }
}
