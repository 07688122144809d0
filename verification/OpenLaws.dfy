/** What each operation on the open files does to descriptors, entries and counts, said without the step functions. */
module OpenLaws {
  import opened OpenFiles

  /** Only process s.curr's descriptors, and entries, may differ. */
  ghost predicate SameProcess(s: Files, r: Files)
    requires Shape(s)
  {
    Shape(r) && r.live == s.live && r.curr == s.curr && forall p :: 0 <= p < NPROCS && p != s.curr ==> r.fd[p] == s.fd[p]
  }

  ghost predicate OtherEntries(s: Files, r: Files, changed: set<int>)
    requires Shape(s) && Shape(r)
  {
    forall x :: 0 <= x < NOFTS && x !in changed ==> r.oft[x] == s.oft[x]
  }

  ghost predicate InUseKept(s: Files, r: Files)
    requires Shape(s) && Shape(r)
  {
    forall x :: 0 <= x < NOFTS && s.oft[x].refcount != 0 ==> r.oft[x] == s.oft[x]
  }

  /** d is the lowest empty descriptor. */
  ghost predicate LowestEmpty(row: seq<int>, from: nat, d: int) {
    from <= d < |row| && row[d] == -1 && forall i :: from <= i < d ==> row[i] != -1
  }

  ghost predicate LowestFree(oft: seq<Oft>, from: nat, e: int) {
    from <= e < |oft| && oft[e].refcount == 0 && forall i :: from <= i < e ==> oft[i].refcount != 0
  }

  /** The process holds the file open for change and the new open would change it too. */
  ghost predicate Clashes(s: Files, flags: nat, file: FileRef)
    requires Shape(s)
  {
    && file.Inode? && !file.device && flags != O_RDONLY && flags / 4 % 2 == 0
    && exists i :: 0 <= i < PROC_FD_MAX && Changing(s, s.fd[s.curr][i], file)
  }

  predicate Changing(s: Files, e: int, file: FileRef)
    requires |s.oft| == NOFTS && -1 <= e < NOFTS
  {
    e != -1 && s.oft[e].file == file && s.oft[e].mode != O_RDONLY
  }

  /** kopen returned d. */
  ghost predicate OpenDone(s: Files, flags: nat, file: FileRef, regular: bool, size: nat, r: Files, d: int)
    requires Shape(s)
  {
    && SameProcess(s, r)
    && (d >= 0 <==> !Clashes(s, flags, file) && -1 in Row(s) && exists e :: 0 <= e < NOFTS && s.oft[e].refcount == 0)
    && (if d >= 0 then
          && LowestEmpty(Row(s), 0, d)
          && var e := Row(r)[d];
             && LowestFree(s.oft, 0, e) && Row(r) == Row(s)[d := e] && OtherEntries(s, r, {e})
             && r.oft[e].refcount == 1 && r.oft[e].mode == flags && r.oft[e].file == file
             && r.oft[e].offset == (if regular && (flags % 2 == 1 || flags / 2 % 2 == 1) && flags / 1024 % 2 == 1 && flags / 512 % 2 == 0
                                    then size else 0)
        else d == -1 && r.fd == s.fd && InUseKept(s, r))
  }

  lemma FreeFound(oft: seq<Oft>, from: nat)
    requires from <= |oft|
    ensures var e := FirstFree(oft, from);
            if e < |oft| then LowestFree(oft, from, e) else forall i :: from <= i < |oft| ==> oft[i].refcount != 0
  {
  }

  lemma EmptyFound(row: seq<int>, from: nat)
    requires from <= |row|
    ensures var d := FirstEmpty(row, from);
            if d < |row| then LowestEmpty(row, from, d) else forall i :: from <= i < |row| ==> row[i] != -1
  {
  }

  lemma ClashMeans(s: Files, flags: nat, file: FileRef)
    requires Shape(s)
    ensures Conflict(s, flags, file) <==> Clashes(s, flags, file)
  {
    if Conflict(s, flags, file) {
      var i :| 0 <= i < PROC_FD_MAX && Holds(s, i, file);
      assert Changing(s, s.fd[s.curr][i], file);
    }
    if Clashes(s, flags, file) {
      var i :| 0 <= i < PROC_FD_MAX && Changing(s, s.fd[s.curr][i], file);
      assert Holds(s, i, file);
    }
  }

  lemma OpenMeans(s: Files, flags: nat, file: FileRef, regular: bool, size: nat)
    requires Shape(s) && file.Inode?
    ensures var (r, d) := Open(s, flags, file, regular, size); OpenDone(s, flags, file, regular, size, r, d)
  {
    ClashMeans(s, flags, file);
    FreeFound(s.oft, 0);
    EmptyFound(Row(s), 0);
    hide Conflict;
    hide Clashes;
    hide FirstFree;
    hide FirstEmpty;
    var e, d := FirstFree(s.oft, 0), FirstEmpty(Row(s), 0);
    assert d < PROC_FD_MAX ==> Row(s)[d] in Row(s);
    assert e < NOFTS ==> s.oft[e].refcount == 0;
  }

  /** kpipe returned a and b: the reading and the writing end. */
  ghost predicate Piped(s: Files, pipe: int, r: Files, a: int, b: int)
    requires Shape(s)
  {
    && SameProcess(s, r)
    && (a >= 0 <==> TwoFree(s.oft) && multiset(Row(s))[-1] >= 2)
    && (if a >= 0 then
          && LowestEmpty(Row(s), 0, a) && LowestEmpty(Row(s), a + 1, b)
          && var e0, e1 := Row(r)[a], Row(r)[b];
             && LowestFree(s.oft, 0, e0) && LowestFree(s.oft, e0 + 1, e1)
             && Row(r) == Row(s)[a := e0][b := e1] && OtherEntries(s, r, {e0, e1})
             && r.oft[e0] == Oft(1, READ_PIPE, NoFile, pipe, s.oft[e0].offset)
             && r.oft[e1] == Oft(1, WRITE_PIPE, NoFile, pipe, s.oft[e1].offset)
        else a == -1 == b && r.fd == s.fd && InUseKept(s, r))
  }

  ghost predicate TwoFree(oft: seq<Oft>) {
    exists x, y :: 0 <= x < y < |oft| && oft[x].refcount == 0 && oft[y].refcount == 0
  }

  lemma TwoFound(oft: seq<Oft>)
    ensures var e := FirstFree(oft, 0); TwoFree(oft) <==> e < |oft| && FirstFree(oft, e + 1) < |oft|
  {
    var e := FirstFree(oft, 0);
    FreeFound(oft, 0);
    if e < |oft| { FreeFound(oft, e + 1); }
    hide FirstFree;
    if TwoFree(oft) {
      var x, y :| 0 <= x < y < |oft| && oft[x].refcount == 0 && oft[y].refcount == 0;
      assert e <= x < y;
    }
  }

  lemma PipeDone(s: Files, pipe: int, e0: nat, e1: nat, i0: nat, i1: nat)
    requires Shape(s) && e0 == FirstFree(s.oft, 0) < NOFTS && e1 == FirstFree(s.oft, e0 + 1) < NOFTS
    requires i0 == FirstEmpty(Row(s), 0) < PROC_FD_MAX && i1 == FirstEmpty(Row(s), i0 + 1) < PROC_FD_MAX
    ensures MakePipe(s, pipe) ==
            (s.(oft := s.oft[e0 := Oft(1, READ_PIPE, NoFile, pipe, s.oft[e0].offset)][e1 := Oft(1, WRITE_PIPE, NoFile, pipe, s.oft[e1].offset)],
                fd := s.fd[s.curr := Row(s)[i0 := e0][i1 := e1]]), i0 as int, i1 as int)
  {
    var oft1 := s.oft[e0 := s.oft[e0].(refcount := 1)];
    SecondFree(s.oft, e0, 0, oft1);
    hide FirstFree;
    hide FirstEmpty;
    assert oft1[e1 := oft1[e1].(refcount := 1)][e0 := Oft(1, READ_PIPE, NoFile, pipe, s.oft[e0].offset)]
               [e1 := Oft(1, WRITE_PIPE, NoFile, pipe, s.oft[e1].offset)]
           == s.oft[e0 := Oft(1, READ_PIPE, NoFile, pipe, s.oft[e0].offset)][e1 := Oft(1, WRITE_PIPE, NoFile, pipe, s.oft[e1].offset)];
  }

  lemma PipeUndone(s: Files, pipe: int)
    requires Shape(s) && MakePipe(s, pipe).1 == -1
    ensures var (r, a, b) := MakePipe(s, pipe); SameProcess(s, r) && b == -1 && r.fd == s.fd && InUseKept(s, r)
  {
    hide FirstEmpty;
    var e0 := FirstFree(s.oft, 0);
    if e0 < NOFTS { SecondFree(s.oft, e0, 0, s.oft[e0 := s.oft[e0].(refcount := 1)]); }
  }

  lemma PipeMeans(s: Files, pipe: int)
    requires Shape(s)
    ensures var (r, a, b) := MakePipe(s, pipe); Piped(s, pipe, r, a, b)
  {
    TwoFound(s.oft);
    TwoEmpty(Row(s));
    PipeFailsMeans(s, pipe);
    FreeFound(s.oft, 0);
    EmptyFound(Row(s), 0);
    var e0, i0 := FirstFree(s.oft, 0), FirstEmpty(Row(s), 0);
    hide FirstFree;
    hide FirstEmpty;
    hide MakePipe;
    if MakePipe(s, pipe).1 == -1 {
      PipeUndone(s, pipe);
    } else {
      FreeFound(s.oft, e0 + 1);
      EmptyFound(Row(s), i0 + 1);
      PipeDone(s, pipe, e0, FirstFree(s.oft, e0 + 1), i0, FirstEmpty(Row(s), i0 + 1));
    }
  }

  /** kclose(i) */
  ghost predicate Closed(s: Files, i: int, r: Files)
    requires Shape(s)
  {
    if 0 <= i < PROC_FD_MAX && Row(s)[i] != -1 then
      && SameProcess(s, r) && Row(r) == Row(s)[i := -1] && OtherEntries(s, r, {Row(s)[i]})
      && Dropped(s.oft[Row(s)[i]], r.oft[Row(s)[i]])
    else r == s
  }

  /** One reference fewer; with the last one an entry that is no pipe end stands for no file any more. */
  predicate Dropped(o: Oft, o': Oft) {
    && o'.refcount == o.refcount - 1 && o'.mode == o.mode && o'.offset == o.offset
    && (o.mode == READ_PIPE || o.mode == WRITE_PIPE || o.refcount > 1 ==> o'.file == o.file && o'.pipe == o.pipe)
    && (o.mode != READ_PIPE && o.mode != WRITE_PIPE && o.refcount <= 1 ==> o'.file == NoFile && o'.pipe == 0)
  }

  lemma CloseMeans(s: Files, i: int)
    requires Shape(s)
    ensures Closed(s, i, Close(s, i))
  {
  }

  /** kdup2(oldfd, newfd): newfd refers to what oldfd does. */
  ghost predicate Duplicated(s: Files, oldfd: int, newfd: int, r: Files)
    requires Shape(s)
  {
    if 0 <= oldfd < PROC_FD_MAX && 0 <= newfd < PROC_FD_MAX && Row(s)[oldfd] != -1 then
      && SameProcess(s, r) && Row(r) == Row(s)[newfd := Row(s)[oldfd]]
      && OtherEntries(s, r, {Row(s)[oldfd], Row(s)[newfd]})
      && forall x :: 0 <= x < NOFTS ==>
           && r.oft[x].refcount == s.oft[x].refcount - One(x == Row(s)[newfd]) + One(x == Row(s)[oldfd])
           && (x != Row(s)[newfd] ==> r.oft[x] == s.oft[x].(refcount := r.oft[x].refcount))
    else r == s
  }

  lemma Dup2Means(s: Files, oldfd: int, newfd: int)
    requires Shape(s) && DupSafe(s, oldfd, newfd)
    ensures Duplicated(s, oldfd, newfd, Dup2(s, oldfd, newfd))
  {
    CloseMeans(s, newfd);
    hide Close;
  }

  /** kfork's descriptors: each of the child's refers to what the parent's does. */
  ghost predicate Inherited(s: Files, np: nat, r: Files)
    requires Shape(s) && np < NPROCS
  {
    && Shape(r) && r.fd == s.fd[np := Row(s)] && r.live == s.live[np := true] && r.curr == s.curr
    && forall x :: 0 <= x < NOFTS ==> r.oft[x] == s.oft[x].(refcount := s.oft[x].refcount + multiset(Row(s))[x])
  }

  lemma ForkMeans(s: Files, np: nat)
    requires Shape(s) && np < NPROCS
    ensures Inherited(s, np, Fork(s, np))
  {
  }

  /** kexit's descriptors: all closed, and each reference taken back. */
  ghost predicate AllClosed(s: Files, next: nat, r: Files)
    requires Shape(s)
  {
    && Shape(r) && r.curr == next && r.live == s.live[s.curr := false]
    && (forall p :: 0 <= p < NPROCS && p != s.curr ==> r.fd[p] == s.fd[p]) && Empty(r.fd[s.curr])
    && forall x :: 0 <= x < NOFTS ==>
         && r.oft[x].refcount == s.oft[x].refcount - multiset(Row(s))[x]
         && (x !in Row(s) ==> r.oft[x] == s.oft[x])
  }

  lemma CloseOne(s: Files, i: nat, x: int)
    requires Shape(s) && i < PROC_FD_MAX && 0 <= x < NOFTS
    ensures Close(s, i).oft[x].refcount == s.oft[x].refcount - One(Row(s)[i] == x)
    ensures Row(s)[i] != x ==> Close(s, i).oft[x] == s.oft[x]
  {
  }

  lemma OneMoreIn(row: seq<int>, n: nat, x: int)
    requires n < |row|
    ensures multiset(row[..n + 1])[x] == multiset(row[..n])[x] + One(row[n] == x)
    ensures x !in row[..n + 1] ==> x !in row[..n] && row[n] != x
  {
    assert row[..n + 1] == row[..n] + [row[n]];
  }

  lemma {:induction false} CloseUptoMeans(s: Files, n: nat, x: int)
    requires Shape(s) && n <= PROC_FD_MAX && 0 <= x < NOFTS
    ensures CloseUpto(s, n).oft[x].refcount == s.oft[x].refcount - multiset(Row(s)[..n])[x]
    ensures x !in Row(s)[..n] ==> CloseUpto(s, n).oft[x] == s.oft[x]
  {
    hide Close;
    if n > 0 {
      var s1 := CloseUpto(s, n - 1);
      CloseUptoMeans(s, n - 1, x);
      CloseOne(s1, n - 1, x);
      OneMoreIn(Row(s), n - 1, x);
    }
  }

  lemma ExitMeans(s: Files, next: nat)
    requires Shape(s) && next < NPROCS && next != s.curr && s.live[next]
    ensures AllClosed(s, next, Exit(s, next))
  {
    forall x | 0 <= x < NOFTS
      ensures Exit(s, next).oft[x].refcount == s.oft[x].refcount - multiset(Row(s))[x]
      ensures x !in Row(s) ==> Exit(s, next).oft[x] == s.oft[x]
    {
      CloseUptoMeans(s, PROC_FD_MAX, x);
      assert Row(s)[..PROC_FD_MAX] == Row(s);
    }
    hide CloseUpto;
  }
}
