/** The priority queues of processes as sequences of pids: stable insertion, and the split wakeup makes. */
module ProcQueue {

  /** Where enqueue puts p: before the first element of lower priority. */
  function Insert(pr: seq<int>, q: seq<nat>, p: nat): (r: seq<nat>)
    requires Pids(pr, q) && p < |pr|
    ensures |r| == |q| + 1
  {
    if q == [] || pr[p] > pr[q[0]] then [p] + q else [q[0]] + Insert(pr, q[1..], p)
  }

  predicate Pids(pr: seq<int>, q: seq<nat>) {
    forall i :: 0 <= i < |q| ==> q[i] < |pr|
  }

  ghost predicate Distinct(q: seq<nat>) {
    forall i, j :: 0 <= i < j < |q| ==> q[i] != q[j]
  }

  /** Descending priority. */
  ghost predicate Sorted(pr: seq<int>, q: seq<nat>)
    requires Pids(pr, q)
  {
    forall i, j :: 0 <= i < j < |q| ==> pr[q[i]] >= pr[q[j]]
  }

  /** The number of leading elements p goes behind. */
  function Place(pr: seq<int>, q: seq<nat>, p: nat): (k: nat)
    requires Pids(pr, q) && p < |pr|
    ensures k <= |q|
    ensures forall i :: 0 <= i < k ==> pr[q[i]] >= pr[p]
    ensures k < |q| ==> pr[p] > pr[q[k]]
  {
    if q == [] || pr[p] > pr[q[0]] then 0 else 1 + Place(pr, q[1..], p)
  }

  lemma {:induction false} InsertAt(pr: seq<int>, q: seq<nat>, p: nat)
    requires Pids(pr, q) && p < |pr|
    ensures var k := Place(pr, q, p); Insert(pr, q, p) == q[..k] + [p] + q[k..]
  {
    if !(q == [] || pr[p] > pr[q[0]]) {
      var t := q[1..];
      InsertAt(pr, t, p);
      var k := Place(pr, t, p);
      assert q[..k + 1] == [q[0]] + t[..k] && q[k + 1..] == t[k..];
      assert [q[0]] + (t[..k] + [p] + t[k..]) == [q[0]] + t[..k] + [p] + t[k..];
    }
  }

  lemma InsertIndex(pr: seq<int>, q: seq<nat>, p: nat)
    requires Pids(pr, q) && p < |pr|
    ensures var k, r := Place(pr, q, p), Insert(pr, q, p);
            && |r| == |q| + 1 && k <= |q|
            && (forall i :: 0 <= i < k ==> r[i] == q[i]) && r[k] == p
            && (forall i :: k < i < |r| ==> r[i] == q[i - 1])
  {
    InsertAt(pr, q, p);
  }

  lemma InsertPids(pr: seq<int>, q: seq<nat>, p: nat)
    requires Pids(pr, q) && p < |pr|
    ensures Pids(pr, Insert(pr, q, p))
    ensures forall x :: x in Insert(pr, q, p) <==> x == p || x in q
  {
    hide Place;
    InsertIndex(pr, q, p);
    hide Insert;
    var k, r := Place(pr, q, p), Insert(pr, q, p);
    forall i | 0 <= i < |r| ensures r[i] == p || r[i] in q {
      if i > k { assert q[i - 1] in q; }
    }
    forall x | x in q ensures x in r {
      var i :| 0 <= i < |q| && q[i] == x;
      assert r[if i < k then i else i + 1] == x;
    }
  }

  lemma InsertDistinct(pr: seq<int>, q: seq<nat>, p: nat)
    requires Pids(pr, q) && p < |pr| && Distinct(q) && p !in q
    ensures Distinct(Insert(pr, q, p))
  {
    InsertIndex(pr, q, p);
    hide Insert;
    hide Place;
  }

  /** In a sorted queue p lands behind everything of its own or higher priority and before everything
      lower (first come first served among equals), and the queue stays sorted. */
  lemma InsertStable(pr: seq<int>, q: seq<nat>, p: nat)
    requires Pids(pr, q) && p < |pr| && Sorted(pr, q)
    ensures Pids(pr, Insert(pr, q, p)) && Sorted(pr, Insert(pr, q, p))
    ensures var k := Place(pr, q, p);
            && Insert(pr, q, p) == q[..k] + [p] + q[k..]
            && (forall i :: 0 <= i < k ==> pr[q[i]] >= pr[p]) && (forall i :: k <= i < |q| ==> pr[q[i]] < pr[p])
  {
    hide Insert;
    hide Place;
    InsertAt(pr, q, p);
    InsertPids(pr, q, p);
    InsertIndex(pr, q, p);
    var k, r := Place(pr, q, p), Insert(pr, q, p);
    assert forall i :: k <= i < |q| ==> pr[q[i]] < pr[p];
    forall i, j | 0 <= i < j < |r| ensures pr[r[i]] >= pr[r[j]] {
      assert r[i] == if i < k then q[i] else if i == k then p else q[i - 1];
      assert r[j] == if j < k then q[j] else if j == k then p else q[j - 1];
    }
  }

  /** wakeup's loop: drain the sleepers, those on the event to the runnable queue, the others to a new one. */
  function Drain(pr: seq<int>, on: set<nat>, sleepers: seq<nat>, run: seq<nat>, rest: seq<nat>): (r: (seq<nat>, seq<nat>))
    requires Pids(pr, sleepers) && Pids(pr, run) && Pids(pr, rest)
    ensures Pids(pr, r.0) && Pids(pr, r.1)
    decreases |sleepers|
  {
    if sleepers == [] then (run, rest)
    else
      var p := sleepers[0];
      InsertPids(pr, run, p);
      InsertPids(pr, rest, p);
      if p in on then Drain(pr, on, sleepers[1..], Insert(pr, run, p), rest)
      else Drain(pr, on, sleepers[1..], run, Insert(pr, rest, p))
  }

  /** The elements of q that are in `on` (or, with want false, that are not), in order. */
  function Keep(on: set<nat>, want: bool, q: seq<nat>): (r: seq<nat>)
    ensures forall x :: x in r <==> x in q && (x in on <==> want)
  {
    if q == [] then [] else (if q[0] in on <==> want then [q[0]] else []) + Keep(on, want, q[1..])
  }

  /** The processes of a, one after the other, inserted into q. */
  function InsertAll(pr: seq<int>, q: seq<nat>, a: seq<nat>): (r: seq<nat>)
    requires Pids(pr, q) && Pids(pr, a)
    ensures Pids(pr, r) && forall x :: x in r <==> x in q || x in a
    decreases |a|
  {
    if a == [] then q
    else
      InsertPids(pr, q, a[0]);
      InsertAll(pr, Insert(pr, q, a[0]), a[1..])
  }

  lemma InsertLast(pr: seq<int>, q: seq<nat>, p: nat)
    requires Pids(pr, q) && p < |pr| && forall i :: 0 <= i < |q| ==> pr[q[i]] >= pr[p]
    ensures Insert(pr, q, p) == q + [p]
  {
    InsertAt(pr, q, p);
    assert Place(pr, q, p) == |q|;
  }

  /** Nothing in a has lower priority than anything in b. */
  ghost predicate Above(pr: seq<int>, a: seq<nat>, b: seq<nat>)
    requires Pids(pr, a) && Pids(pr, b)
  {
    forall i, j :: 0 <= i < |a| && 0 <= j < |b| ==> pr[a[i]] >= pr[b[j]]
  }

  lemma AboveStep(pr: seq<int>, s: seq<nat>, rest: seq<nat>)
    requires Pids(pr, s) && Pids(pr, rest) && Sorted(pr, s) && Above(pr, rest, s) && s != []
    ensures Pids(pr, s[1..]) && Sorted(pr, s[1..]) && Above(pr, rest, s[1..])
    ensures Pids(pr, rest + [s[0]]) && Above(pr, rest + [s[0]], s[1..])
    ensures Insert(pr, rest, s[0]) == rest + [s[0]]
  {
    InsertLast(pr, rest, s[0]);
  }

  lemma KeepStep(on: set<nat>, s: seq<nat>)
    ensures s == [] ==> Keep(on, true, s) == Keep(on, false, s) == []
    ensures s != [] && s[0] in on ==> Keep(on, true, s) == [s[0]] + Keep(on, true, s[1..]) && Keep(on, false, s) == Keep(on, false, s[1..])
    ensures s != [] && s[0] !in on ==> Keep(on, false, s) == [s[0]] + Keep(on, false, s[1..]) && Keep(on, true, s) == Keep(on, true, s[1..])
  {
  }

  /** wakeup splits a sorted sleep queue into exactly the sleepers on the event, which join the runnable
      queue one by one, and the others, which stay in their order. */
  lemma {:induction false} DrainSplits(pr: seq<int>, on: set<nat>, s: seq<nat>, run: seq<nat>, rest: seq<nat>)
    requires Pids(pr, s) && Pids(pr, run) && Pids(pr, rest) && Sorted(pr, s) && Above(pr, rest, s)
    ensures Pids(pr, Keep(on, true, s))
    ensures Drain(pr, on, s, run, rest) == (InsertAll(pr, run, Keep(on, true, s)), rest + Keep(on, false, s))
    decreases |s|
  {
    hide Insert;
    hide Keep;
    hide Above;
    hide Sorted;
    KeepStep(on, s);
    if s != [] {
      var p := s[0];
      AboveStep(pr, s, rest);
      InsertPids(pr, run, p);
      if p in on {
        DrainSplits(pr, on, s[1..], Insert(pr, run, p), rest);
        assert Keep(on, true, s)[1..] == Keep(on, true, s[1..]);
      } else {
        DrainSplits(pr, on, s[1..], run, rest + [p]);
        assert rest + [p] + Keep(on, false, s[1..]) == rest + Keep(on, false, s);
      }
    } else {
      assert rest + [] == rest;
    }
  }

  // ---------------------------------------------------------------------------------------------
  // Queues, priority by priority

  /** The members of priority x, in order. */
  function Level(pr: seq<int>, q: seq<nat>, x: int): seq<nat>
    requires Pids(pr, q)
  {
    if q == [] then [] else (if pr[q[0]] == x then [q[0]] else []) + Level(pr, q[1..], x)
  }

  lemma {:induction false} LevelNone(pr: seq<int>, q: seq<nat>, x: int)
    requires Pids(pr, q) && forall i :: 0 <= i < |q| ==> pr[q[i]] != x
    ensures Level(pr, q, x) == []
  {
    if q != [] { LevelNone(pr, q[1..], x); }
  }

  lemma LevelCons(pr: seq<int>, p: nat, q: seq<nat>, x: int)
    requires Pids(pr, q) && p < |pr|
    ensures Pids(pr, [p] + q)
    ensures Level(pr, [p] + q, x) == (if pr[p] == x then [p] else []) + Level(pr, q, x)
  {
    assert ([p] + q)[1..] == q;
  }

  lemma LevelStep(pr: seq<int>, q: seq<nat>, x: int)
    requires Pids(pr, q)
    ensures q == [] ==> Level(pr, q, x) == []
    ensures q != [] ==> Level(pr, q, x) == (if pr[q[0]] == x then [q[0]] else []) + Level(pr, q[1..], x)
  {
  }

  lemma InsertHead(pr: seq<int>, q: seq<nat>, p: nat)
    requires Pids(pr, q) && p < |pr|
    ensures q == [] || pr[p] > pr[q[0]] ==> Insert(pr, q, p) == [p] + q
    ensures q != [] && pr[p] <= pr[q[0]] ==> Insert(pr, q, p) == [q[0]] + Insert(pr, q[1..], p)
  {
  }

  /** An insertion adds p behind the members of its own priority and leaves the other priorities alone. */
  lemma {:induction false} InsertLevel(pr: seq<int>, q: seq<nat>, p: nat, x: int)
    requires Pids(pr, q) && p < |pr| && Sorted(pr, q)
    ensures Pids(pr, Insert(pr, q, p))
    ensures Level(pr, Insert(pr, q, p), x) == Level(pr, q, x) + if pr[p] == x then [p] else []
    decreases |q|
  {
    hide Level;
    hide Insert;
    InsertPids(pr, q, p);
    InsertHead(pr, q, p);
    LevelStep(pr, q, x);
    if q == [] || pr[p] > pr[q[0]] {
      LevelCons(pr, p, q, x);
      if pr[p] == x { LevelNone(pr, q, x); }
    } else {
      InsertLevel(pr, q[1..], p, x);
      LevelCons(pr, q[0], Insert(pr, q[1..], p), x);
    }
  }

  lemma {:induction false} InsertAllLevel(pr: seq<int>, q: seq<nat>, a: seq<nat>, x: int)
    requires Pids(pr, q) && Pids(pr, a) && Sorted(pr, q)
    ensures Sorted(pr, InsertAll(pr, q, a)) && Level(pr, InsertAll(pr, q, a), x) == Level(pr, q, x) + Level(pr, a, x)
    decreases |a|
  {
    hide Insert;
    hide Sorted;
    hide Level;
    hide Place;
    LevelStep(pr, a, x);
    if a != [] {
      InsertStable(pr, q, a[0]);
      InsertLevel(pr, q, a[0], x);
      InsertAllLevel(pr, Insert(pr, q, a[0]), a[1..], x);
    }
  }

  /** After wakeup the runnable queue is sorted and holds, at each priority, its old members in their order and
      behind them the woken ones in the order they slept in; the others sleep on in theirs. */
  lemma WakeLevels(pr: seq<int>, on: set<nat>, s: seq<nat>, run: seq<nat>, x: int)
    requires Pids(pr, s) && Pids(pr, run) && Sorted(pr, s) && Sorted(pr, run)
    ensures Pids(pr, Keep(on, true, s))
    ensures var r := Drain(pr, on, s, run, []);
            && Sorted(pr, r.0) && Level(pr, r.0, x) == Level(pr, run, x) + Level(pr, Keep(on, true, s), x)
            && r.1 == Keep(on, false, s)
  {
    hide Insert;
    DrainSplits(pr, on, s, run, []);
    InsertAllLevel(pr, run, Keep(on, true, s), x);
    assert [] + Keep(on, false, s) == Keep(on, false, s);
  }

  /** What a queue holds at each priority determines a sorted queue. */
  lemma {:induction false} LevelsDetermine(pr: seq<int>, q: seq<nat>, r: seq<nat>)
    requires Pids(pr, q) && Pids(pr, r) && Sorted(pr, q) && Sorted(pr, r)
    requires forall x :: Level(pr, q, x) == Level(pr, r, x)
    ensures q == r
    decreases |q|
  {
    hide Level;
    LevelHead(pr, q);
    LevelHead(pr, r);
    if q != [] && r != [] {
      SameHead(pr, q, r);
      forall x ensures Level(pr, q[1..], x) == Level(pr, r[1..], x) {
        LevelStep(pr, q, x);
        LevelStep(pr, r, x);
        SameTail(if pr[q[0]] == x then [q[0]] else [], Level(pr, q[1..], x), Level(pr, r[1..], x));
      }
      LevelsDetermine(pr, q[1..], r[1..]);
      assert q == [q[0]] + q[1..] && r == [r[0]] + r[1..];
    } else if q != [] {
      LevelStep(pr, r, pr[q[0]]);
    } else if r != [] {
      LevelStep(pr, q, pr[r[0]]);
    }
  }

  lemma LevelHead(pr: seq<int>, q: seq<nat>)
    requires Pids(pr, q)
    ensures q != [] ==> Level(pr, q, pr[q[0]]) != [] && Level(pr, q, pr[q[0]])[0] == q[0]
  {
  }

  lemma SameTail(h: seq<nat>, a: seq<nat>, b: seq<nat>)
    requires h + a == h + b
    ensures a == b
  {
    assert a == (h + a)[|h|..] && b == (h + b)[|h|..];
  }

  lemma SameHead(pr: seq<int>, q: seq<nat>, r: seq<nat>)
    requires Pids(pr, q) && Pids(pr, r) && Sorted(pr, q) && Sorted(pr, r) && q != [] && r != []
    requires forall x :: Level(pr, q, x) == Level(pr, r, x)
    ensures q[0] == r[0]
  {
    hide Level;
    var x, y := pr[q[0]], pr[r[0]];
    LevelHead(pr, q);
    LevelHead(pr, r);
    assert Level(pr, q, x) == Level(pr, r, x) && Level(pr, q, y) == Level(pr, r, y);
    if x > y { LevelNone(pr, r, x); }
    if y > x { LevelNone(pr, q, y); }
  }

  /** Keep and Level go through a queue member by member. */
  lemma KeepCons(on: set<nat>, want: bool, h: nat, t: seq<nat>)
    ensures Keep(on, want, [h] + t) == (if h in on <==> want then [h] else []) + Keep(on, want, t)
  {
    assert ([h] + t)[1..] == t;
  }

  lemma {:induction false} KeepAppend(on: set<nat>, want: bool, a: seq<nat>, p: nat)
    ensures Keep(on, want, a + [p]) == Keep(on, want, a) + if p in on <==> want then [p] else []
  {
    KeepStep(on, []);
    KeepCons(on, want, p, []);
    hide Keep;
    if a == [] {
      assert a + [p] == [p] + [];
    } else {
      var h, t := a[0], a[1..];
      KeepAppend(on, want, t, p);
      KeepCons(on, want, h, t);
      KeepCons(on, want, h, t + [p]);
      assert a == [h] + t && a + [p] == [h] + (t + [p]);
    }
  }

  lemma {:induction false} LevelAppend(pr: seq<int>, a: seq<nat>, p: nat, x: int)
    requires Pids(pr, a) && p < |pr|
    ensures Pids(pr, a + [p]) && Level(pr, a + [p], x) == Level(pr, a, x) + if pr[p] == x then [p] else []
  {
    LevelStep(pr, [], x);
    LevelCons(pr, p, [], x);
    hide Level;
    if a == [] {
      assert a + [p] == [p] + [];
    } else {
      var h, t := a[0], a[1..];
      LevelAppend(pr, t, p, x);
      LevelCons(pr, h, t, x);
      LevelCons(pr, h, t + [p], x);
      assert a == [h] + t && a + [p] == [h] + (t + [p]);
    }
  }
}
