/** The open-file table in the kernel's own form: two arrays changed in place by loops. Every method is proved
    against the operation of OpenFiles it carries out. */
module FileTable {
  import opened OpenFiles
  import opened OpenLaws

  function Bumped(oft: seq<Oft>, e: int): (r: seq<Oft>)
    requires -1 <= e < |oft|
    ensures |r| == |oft|
  {
    if e == -1 then oft else oft[e := oft[e].(refcount := oft[e].refcount + 1)]
  }

  /** Every entry counted once more for each time it is in row. */
  function Shared(oft: seq<Oft>, row: seq<int>): (r: seq<Oft>)
    ensures |r| == |oft|
  {
    seq(|oft|, e requires 0 <= e < |oft| => oft[e].(refcount := oft[e].refcount + multiset(row)[e]))
  }

  lemma SharedStep(oft: seq<Oft>, row: seq<int>, i: nat)
    requires i < |row| && -1 <= row[i] < |oft|
    ensures Shared(oft, row[..i + 1]) == Bumped(Shared(oft, row[..i]), row[i])
  {
    assert row[..i + 1] == row[..i] + [row[i]];
    forall e | 0 <= e < |oft| ensures Shared(oft, row[..i + 1])[e] == Bumped(Shared(oft, row[..i]), row[i])[e] {
      assert multiset(row[..i + 1])[e] == multiset(row[..i])[e] + One(e == row[i]);
    }
  }

  lemma SharedNone(oft: seq<Oft>)
    ensures Shared(oft, []) == oft
  {
  }

  lemma ForkIs(s: Files, np: nat)
    requires Shape(s) && np < NPROCS
    ensures Fork(s, np) == s.(oft := Shared(s.oft, Row(s)), fd := s.fd[np := Row(s)], live := s.live[np := true])
  {
    assert Fork(s, np).oft == Shared(s.oft, Row(s));
  }

  /** MakePipe, exit by exit. */
  lemma NoEntry(s: Files, pipe: int)
    requires Shape(s) && FirstFree(s.oft, 0) == NOFTS
    ensures MakePipe(s, pipe) == (s, -1, -1)
  {
  }

  lemma OneEntry(s: Files, pipe: int, e0: nat)
    requires Shape(s) && e0 == FirstFree(s.oft, 0) < NOFTS && FirstFree(s.oft[e0 := s.oft[e0].(refcount := 1)], 0) == NOFTS
    ensures MakePipe(s, pipe) == (s.(oft := s.oft[e0 := Cleared(s.oft[e0].(refcount := 1))]), -1, -1)
  {
    hide FirstFree;
    assert s.oft[e0 := s.oft[e0].(refcount := 1)][e0 := Cleared(s.oft[e0].(refcount := 1))]
           == s.oft[e0 := Cleared(s.oft[e0].(refcount := 1))];
  }

  lemma TwoEntries(s: Files, pipe: int, e0: nat, e1: nat)
    requires Shape(s) && e0 == FirstFree(s.oft, 0) < NOFTS && e1 == FirstFree(s.oft[e0 := s.oft[e0].(refcount := 1)], 0) < NOFTS
    ensures e0 != e1
    ensures var oft2 := s.oft[e0 := s.oft[e0].(refcount := 1)][e1 := s.oft[e1].(refcount := 1)];
            var i0 := FirstEmpty(Row(s), 0);
            var i1 := if i0 < PROC_FD_MAX then FirstEmpty(Row(s), i0 + 1) else PROC_FD_MAX;
            MakePipe(s, pipe) ==
            if i1 == PROC_FD_MAX then (s.(oft := oft2[e0 := Cleared(oft2[e0])][e1 := Cleared(oft2[e1])]), -1, -1)
            else (s.(oft := oft2[e0 := oft2[e0].(mode := READ_PIPE, file := NoFile, pipe := pipe)]
                                [e1 := oft2[e1].(mode := WRITE_PIPE, file := NoFile, pipe := pipe)],
                     fd := s.fd[s.curr := Row(s)[i0 := e0][i1 := e1]]), i0 as int, i1 as int)
  {
    hide FirstFree;
    hide FirstEmpty;
  }

  class Table {
    const oft: array<Oft>
    const fd: array<seq<int>>
    const live: array<bool>
    var curr: nat

    /** pipe_init and the zeroed tables: nothing is open; first is the process that runs. */
    constructor (first: nat)
      requires first < NPROCS
      ensures Valid() && fresh(oft) && fresh(fd) && fresh(live) && curr == first && Counted(Abs(), {})
    {
      oft := new Oft[NOFTS](_ => Oft(0, 0, NoFile, 0, 0));
      fd := new seq<int>[NPROCS](_ => seq(PROC_FD_MAX, _ => -1));
      live := new bool[NPROCS](p => p == first);
      curr := first;
      new;
      NothingOpen(Abs());
    }

    ghost predicate Valid()
      reads this, oft, fd, live
    {
      Shape(Abs()) && oft.Length == NOFTS && fd.Length == NPROCS && live.Length == NPROCS
    }

    ghost function Abs(): Files
      reads this, oft, fd, live
    {
      Files(oft[..], fd[..], live[..], curr)
    }

    /** oft_alloc(): an entry of refcount 0, now 1, or -1 */
    method OftAlloc() returns (e: int)
      requires oft.Length == NOFTS
      modifies oft
      ensures old(FirstFree(oft[..], 0)) == if e == -1 then NOFTS else e
      ensures e == -1 || 0 <= e < NOFTS
      ensures oft[..] == if e == -1 then old(oft[..]) else old(oft[..])[e := old(oft[..])[e].(refcount := 1)]
    {
      for i := 0 to NOFTS
        invariant FirstFree(oft[..], 0) == FirstFree(oft[..], i)
      {
        if oft[i].refcount == 0 {
          oft[i] := oft[i].(refcount := 1);
          return i;
        }
      }
      return -1;
    }

    /** oft_dalloc(ptr) */
    method OftDalloc(e: nat)
      requires oft.Length == NOFTS && e < NOFTS
      modifies oft
      ensures oft[..] == old(oft[..])[e := Cleared(old(oft[..])[e])]
    {
      oft[e] := oft[e].(file := NoFile);
      oft[e] := oft[e].(pipe := 0);
    }

    method FirstEmptyFrom(from: nat) returns (slot: nat)
      requires Valid() && from <= PROC_FD_MAX
      ensures slot == FirstEmpty(fd[curr], from)
    {
      slot := from;
      while slot < PROC_FD_MAX && fd[curr][slot] != -1
        invariant from <= slot <= PROC_FD_MAX && FirstEmpty(fd[curr], from) == FirstEmpty(fd[curr], slot)
      {
        slot := slot + 1;
      }
    }

    method AlreadyOpen(flags: nat, file: FileRef) returns (r: bool)
      requires Valid() && file.Inode?
      ensures r == Conflict(Abs(), flags, file)
    {
      if !file.device {
        for i := 0 to PROC_FD_MAX
          invariant forall j :: 0 <= j < i && Holds(Abs(), j, file) ==> flags == O_RDONLY || Has(flags, O_DIRECTORY)
        {
          if fd[curr][i] != -1 && oft[fd[curr][i]].file == file {
            if flags != O_RDONLY && oft[fd[curr][i]].mode != O_RDONLY && !Has(flags, O_DIRECTORY) {
              assert Holds(Abs(), i, file);
              return true;
            }
          }
        }
      }
      return false;
    }

    /** kopen's part that fills in the entry it got. */
    method FillIn(e: nat, flags: nat, file: FileRef, regular: bool, size: nat)
      requires oft.Length == NOFTS && e < NOFTS
      modifies oft
      ensures oft[..] == old(oft[..])[e := old(oft[e]).(mode := flags, file := file, offset := Start(flags, regular, size))]
    {
      hide Has;
      ghost var t := oft[..];
      oft[e] := oft[e].(mode := flags, file := file, offset := 0);
      if Has(flags, O_WRONLY) || Has(flags, O_RDWR) {
        if regular {
          if Has(flags, O_APPEND) {
            oft[e] := oft[e].(offset := size);
          }
          if Has(flags, O_TRUNC) {
            oft[e] := oft[e].(offset := 0);
          }
        }
      }
      assert oft[e] == t[e].(mode := flags, file := file, offset := Start(flags, regular, size));
    }

    /** kopen, from the point where the inode is known and access is granted */
    method KOpen(flags: nat, file: FileRef, regular: bool, size: nat) returns (r: int)
      requires Valid() && file.Inode?
      modifies oft, fd
      ensures Valid() && (Abs(), r) == Open(old(Abs()), flags, file, regular, size)
      ensures OpenDone(old(Abs()), flags, file, regular, size, Abs(), r)
    {
      OpenMeans(Abs(), flags, file, regular, size);
      hide OpenDone;
      hide Conflict;
      hide Start;
      ghost var s := Abs();
      var refused := AlreadyOpen(flags, file);
      if refused {
        return -1;
      }
      var e := OftAlloc();
      if e == -1 {
        return -1;
      }
      FillIn(e, flags, file, regular, size);
      ghost var o := Oft(1, flags, file, s.oft[e].pipe, Start(flags, regular, size));
      assert oft[..] == s.oft[e := o];
      var slot := FirstEmptyFrom(0);
      if slot < PROC_FD_MAX {
        fd[curr] := fd[curr][slot := e];
        assert fd[..] == s.fd[s.curr := Row(s)[slot := e]];
        return slot;
      }
      OftDalloc(e);
      assert oft[..] == s.oft[e := Cleared(o)];
      return -1;
    }

    /** kpipe's part that gives the two ends their descriptors. */
    method WireUp(e0: nat, e1: nat, i0: nat, i1: nat, pipe: int)
      requires Valid() && e0 < NOFTS && e1 < NOFTS && e0 != e1 && i0 < i1 < PROC_FD_MAX
      modifies oft, fd
      ensures fd[..] == old(fd[..])[curr := old(fd[curr])[i0 := e0][i1 := e1]]
      ensures oft[..] == old(oft[..])[e0 := old(oft[e0]).(mode := READ_PIPE, file := NoFile, pipe := pipe)]
                                     [e1 := old(oft[e1]).(mode := WRITE_PIPE, file := NoFile, pipe := pipe)]
    {
      oft[e0] := oft[e0].(mode := READ_PIPE, file := NoFile, pipe := pipe);
      oft[e1] := oft[e1].(mode := WRITE_PIPE, file := NoFile, pipe := pipe);
      fd[curr] := fd[curr][i0 := e0];
      fd[curr] := fd[curr][i1 := e1];
    }

    /** kpipe, from the point where a free pipe is found */
    method KPipe(pipe: int) returns (r0: int, r1: int)
      requires Valid()
      modifies oft, fd
      ensures Valid() && (Abs(), r0, r1) == MakePipe(old(Abs()), pipe)
      ensures Piped(old(Abs()), pipe, Abs(), r0, r1)
    {
      PipeMeans(Abs(), pipe);
      hide Piped;
      hide Cleared;
      hide FirstFree;
      hide FirstEmpty;
      hide MakePipe;
      hide RowOk;
      ghost var s := Abs();
      var e0 := OftAlloc();
      var e1 := OftAlloc();
      if e0 == -1 || e1 == -1 {
        // a second entry is never found where the first was not
        if e0 != -1 {
          OftDalloc(e0);
          OneEntry(s, pipe, e0);
        } else {
          NoEntry(s, pipe);
        }
        return -1, -1;
      }
      TwoEntries(s, pipe, e0, e1);
      ghost var oft2 := oft[..];
      var i0 := FirstEmptyFrom(0);
      var i1 := PROC_FD_MAX;
      if i0 < PROC_FD_MAX {
        i1 := FirstEmptyFrom(i0 + 1);
      }
      if i1 == PROC_FD_MAX {
        OftDalloc(e0);
        OftDalloc(e1);
        assert oft[..] == oft2[e0 := OpenFiles.Cleared(oft2[e0])][e1 := OpenFiles.Cleared(oft2[e1])];
        return -1, -1;
      }
      WireUp(e0, e1, i0, i1, pipe);
      return i0, i1;
    }

    /** kclose(i), with close_pipe(i) for a pipe end; the pipe's own counters are left out */
    method KClose(i: int) returns (r: int)
      requires Valid()
      modifies oft, fd
      ensures Valid() && Abs() == Close(old(Abs()), i) && Closed(old(Abs()), i, Abs())
      ensures r == if 0 <= i < PROC_FD_MAX && Row(old(Abs()))[i] != -1 then 0 else -1
    {
      CloseMeans(Abs(), i);
      hide Closed;
      if i < 0 || i >= PROC_FD_MAX {
        return -1;
      }
      var e := fd[curr][i];
      if e == -1 {
        return -1;
      }
      fd[curr] := fd[curr][i := -1];
      oft[e] := oft[e].(refcount := oft[e].refcount - 1);
      if oft[e].mode == READ_PIPE || oft[e].mode == WRITE_PIPE || oft[e].refcount > 0 {
        return 0;
      }
      OftDalloc(e);
      return 0;
    }

    /** kdup2(oldfd, newfd) */
    method KDup2(oldfd: int, newfd: int) returns (r: int)
      requires Valid() && DupSafe(Abs(), oldfd, newfd)
      modifies oft, fd
      ensures Valid() && Abs() == Dup2(old(Abs()), oldfd, newfd) && Duplicated(old(Abs()), oldfd, newfd, Abs())
      ensures r == if 0 <= oldfd < PROC_FD_MAX && 0 <= newfd < PROC_FD_MAX && Row(old(Abs()))[oldfd] != -1 then newfd else -1
    {
      Dup2Means(Abs(), oldfd, newfd);
      hide Duplicated;
      hide Closed;
      if oldfd < 0 || newfd < 0 || oldfd >= PROC_FD_MAX || newfd >= PROC_FD_MAX {
        return -1;
      }
      if fd[curr][oldfd] == -1 {
        return -1;
      }
      if fd[curr][newfd] != -1 {
        var _ := KClose(newfd);
      }
      fd[curr] := fd[curr][newfd := fd[curr][oldfd]];
      var e := fd[curr][newfd];
      oft[e] := oft[e].(refcount := oft[e].refcount + 1);
      return newfd;
    }

    /** One turn of kfork's loop over the descriptors. */
    method Share(np: nat, i: nat)
      requires Valid() && np < NPROCS && np != curr && i < PROC_FD_MAX
      modifies oft, fd
      ensures fd[..] == old(fd[..])[np := old(fd[np])[i := old(fd[curr][i])]]
      ensures oft[..] == Bumped(old(oft[..]), old(fd[curr][i]))
    {
      fd[np] := fd[np][i := fd[curr][i]];
      var e := fd[np][i];
      if e != -1 {
        oft[e] := oft[e].(refcount := oft[e].refcount + 1);
      }
    }

    /** kfork's loop over the descriptors */
    method ForkFiles(np: nat)
      requires Valid() && np < NPROCS && np != curr && !live[np]
      modifies oft, fd, live
      ensures Valid() && Abs() == Fork(old(Abs()), np) && Inherited(old(Abs()), np, Abs())
    {
      ForkMeans(Abs(), np);
      hide Inherited;
      hide Fork;
      hide Shared;
      hide Bumped;
      ForkIs(Abs(), np);
      ghost var s, row := Abs(), Row(Abs());
      SharedNone(s.oft);
      for i := 0 to PROC_FD_MAX
        invariant live[..] == s.live && Valid()
        invariant RowOk(fd[np]) && fd[np][..i] == row[..i] && fd[..] == s.fd[np := fd[np]]
        invariant oft[..] == Shared(s.oft, row[..i])
      {
        SharedStep(s.oft, row, i);
        Share(np, i);
      }
      assert row[..PROC_FD_MAX] == row && fd[np][..PROC_FD_MAX] == fd[np];
      live[np] := true;
    }

    /** kexit's loop over the descriptors, and the switch to next */
    method ExitFiles(next: nat)
      requires Valid() && next < NPROCS && next != curr && live[next]
      modifies this, oft, fd, live
      ensures Valid() && Abs() == Exit(old(Abs()), next) && AllClosed(old(Abs()), next, Abs())
    {
      ExitMeans(Abs(), next);
      hide AllClosed;
      hide Closed;
      ghost var s := Abs();
      for i := 0 to PROC_FD_MAX
        invariant Valid() && Abs() == CloseUpto(s, i)
      {
        if fd[curr][i] != -1 {
          var _ := KClose(i);
        }
      }
      live[curr] := false;
      curr := next;
    }
  }
}
