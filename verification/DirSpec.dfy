/** A directory as a list of blocks, each a nonempty list of records: what insert and remove do to it. */
module DirSpec {
  import opened Bytes
  import opened DirBlock

  type Dir = seq<seq<Rec>>

  const BLOCKLEN: u16 := 2048

  predicate NoEmptyBlock(d: Dir) {
    forall k :: 0 <= k < |d| ==> d[k] != []
  }

  function Last(s: seq<Rec>): Rec
    requires s != []
  {
    s[|s| - 1]
  }

  /** The first block whose last record can give a new name room, or |d|. */
  function Room(d: Dir, need: nat): (i: nat)
    requires NoEmptyBlock(d)
    ensures i <= |d| && (i < |d| ==> need <= Slack(Last(d[i])))
    ensures forall k :: 0 <= k < i ==> need > Slack(Last(d[k]))
  {
    if d == [] then 0 else if need <= Slack(Last(d[0])) then 0 else 1 + Room(d[1..], need)
  }

  /** The last record shrunk to its ideal length, and the new one in what it gave up. */
  function Split(s: seq<Rec>, ino: u32, name: seq<byte>): (r: seq<Rec>)
    requires s != [] && Ideal(|name|) <= Slack(Last(s))
    ensures |r| == |s| + 1
  {
    var l := Last(s);
    s[..|s| - 1] + [l.(len := Ideal(|l.name|)), Rec(ino, l.len - Ideal(|l.name|), name)]
  }

  function Inserted(d: Dir, ino: u32, name: seq<byte>): Dir
    requires NoEmptyBlock(d)
  {
    var i := Room(d, Ideal(|name|));
    if i < |d| then d[i := Split(d[i], ino, name)] else d + [[Rec(ino, BLOCKLEN, name)]]
  }

  /** Record j is not alone, and its length fits on top of its heir's. */
  predicate CanCut(s: seq<Rec>, j: int) {
    0 <= j < |s| && |s| > 1 && s[if j == |s| - 1 then j - 1 else |s| - 1].len + s[j].len < 0x1_0000
  }

  /** Removing record j of block i: a block of one record goes; otherwise the record before a last one,
      or else the last one, takes over the length. */
  function Without(s: seq<Rec>, j: nat): (r: seq<Rec>)
    requires CanCut(s, j)
    ensures |r| == |s| - 1
  {
    if j == |s| - 1 then GrowLast(s[..j], s[j].len)
    else s[..j] + GrowLast(s[j + 1..], s[j].len)
  }

  /** A record can go if its length fits on top of its heir's, and a block only if it is the last one. */
  predicate Removable(d: Dir, i: nat, j: nat) {
    && i < |d| && j < |d[i]|
    && (|d[i]| > 1 ==> CanCut(d[i], j))
    && (|d[i]| == 1 ==> i == |d| - 1)
  }

  function Removed(d: Dir, i: nat, j: nat): Dir
    requires Removable(d, i, j)
  {
    if |d[i]| == 1 then d[..i] else d[i := Without(d[i], j)]
  }

  datatype Place = Nowhere | At(block: nat, rec: nat)

  /** Where the first record of that name is. */
  function Find(d: Dir, q: seq<byte>): (p: Place)
    ensures p.At? ==> p.block < |d| && p.rec < |d[p.block]| && d[p.block][p.rec].name == q
    ensures p.At? ==> FirstNamed(d[p.block], q) == p.rec && forall i :: 0 <= i < p.block ==> FirstNamed(d[i], q) == -1
    ensures p.Nowhere? ==> forall i :: 0 <= i < |d| ==> FirstNamed(d[i], q) == -1
  {
    if d == [] then Nowhere
    else if FirstNamed(d[0], q) >= 0 then At(0, FirstNamed(d[0], q))
    else match Find(d[1..], q)
      case Nowhere => Nowhere
      case At(i, j) => At(i + 1, j)
  }

  /** The inode number a directory gives a name, 0 if none. */
  function Lookup(d: Dir, q: seq<byte>): u32 {
    match Find(d, q)
    case Nowhere => 0
    case At(i, j) => d[i][j].ino
  }

  /** The entries in order: (name, inode) pairs. */
  function Entries(d: Dir): seq<(seq<byte>, u32)> {
    if d == [] then [] else Pairs(d[0]) + Entries(d[1..])
  }

  function Pairs(s: seq<Rec>): (r: seq<(seq<byte>, u32)>)
    ensures |r| == |s| && forall k :: 0 <= k < |s| ==> r[k] == (s[k].name, s[k].ino)
  {
    seq(|s|, k requires 0 <= k < |s| => (s[k].name, s[k].ino))
  }

  // ---------------------------------------------------------------------------------------------

  /** Find is determined by its specification. */
  lemma FindIs(d: Dir, q: seq<byte>, i: nat, j: nat)
    requires i < |d| && FirstNamed(d[i], q) == j
    requires forall k :: 0 <= k < i ==> FirstNamed(d[k], q) == -1
    ensures Find(d, q) == At(i, j)
  {
    match Find(d, q)
    case Nowhere =>
    case At(a, _) => assert FirstNamed(d[a], q) != -1;
  }

  lemma FindNot(d: Dir, q: seq<byte>)
    requires forall k :: 0 <= k < |d| ==> FirstNamed(d[k], q) == -1
    ensures Find(d, q) == Nowhere
  {
    FindFacts(d, q);
  }

  lemma FindFacts(d: Dir, q: seq<byte>)
    ensures Find(d, q).At? ==> exists a :: 0 <= a < |d| && FirstNamed(d[a], q) != -1
  {
    match Find(d, q)
    case Nowhere =>
    case At(a, _) => assert FirstNamed(d[a], q) != -1;
  }

  lemma FirstNamedIs(s: seq<Rec>, q: seq<byte>, j: nat)
    requires j < |s| && s[j].name == q && forall k :: 0 <= k < j ==> s[k].name != q
    ensures FirstNamed(s, q) == j
  {
  }

  lemma FirstNamedNot(s: seq<Rec>, q: seq<byte>)
    requires forall k :: 0 <= k < |s| ==> s[k].name != q
    ensures FirstNamed(s, q) == -1
  {
  }

  /** Splitting keeps every earlier answer and adds the new name at the end. */
  lemma SplitFirst(s: seq<Rec>, ino: u32, name: seq<byte>, q: seq<byte>)
    requires s != [] && Ideal(|name|) <= Slack(Last(s)) && FirstNamed(s, name) == -1
    ensures FirstNamed(Split(s, ino, name), q) == if q == name then |s| else FirstNamed(s, q)
  {
    var r, f := Split(s, ino, name), FirstNamed(s, q);
    assert forall k :: 0 <= k < |s| ==> r[k].name == s[k].name;
    if q == name {
      FirstNamedIs(r, q, |s|);
    } else if f >= 0 {
      FirstNamedIs(r, q, f);
    } else {
      FirstNamedNot(r, q);
    }
  }

  lemma InsertFirst(d: Dir, ino: u32, name: seq<byte>, q: seq<byte>, k: nat)
    requires NoEmptyBlock(d) && Find(d, name) == Nowhere
    requires k < |Inserted(d, ino, name)|
    ensures var i := Room(d, Ideal(|name|));
            && i < |Inserted(d, ino, name)|
            && FirstNamed(Inserted(d, ino, name)[k], q)
               == if q == name then (if k == i then NewIndex(d, i) else -1)
                  else if k < |d| then FirstNamed(d[k], q) else -1
  {
    hide Find;
    hide Room;
    var i := Room(d, Ideal(|name|));
    if k == i < |d| {
      hide Split;
      SplitFirst(d[i], ino, name, q);
    }
  }

  /** The index a new record gets in block i. */
  function NewIndex(d: Dir, i: nat): nat {
    if i < |d| then |d[i]| else 0
  }

  /** After inserting an absent name the directory maps it to the new inode and every other name as before. */
  lemma InsertFind(d: Dir, ino: u32, name: seq<byte>, q: seq<byte>)
    requires NoEmptyBlock(d) && Find(d, name) == Nowhere
    ensures Find(Inserted(d, ino, name), q)
            == if q == name then At(Room(d, Ideal(|name|)), NewIndex(d, Room(d, Ideal(|name|)))) else Find(d, q)
  {
    var d', i := Inserted(d, ino, name), Room(d, Ideal(|name|));
    InsertFirst(d, ino, name, q, i);
    hide Find;
    hide Room;
    hide FirstNamed;
    forall k | 0 <= k < |d'| ensures FirstNamed(d'[k], q) == if q == name then (if k == i then NewIndex(d, i) else -1)
                                    else if k < |d| then FirstNamed(d[k], q) else -1 {
      InsertFirst(d, ino, name, q, k);
    }
    hide Inserted;
    if q == name {
      FindIs(d', q, i, NewIndex(d, i));
    } else if Find(d, q) == Nowhere {
      FindNot(d', q);
    } else {
      InsertGrows(d, ino, name);
      FindIs(d', q, Find(d, q).block, Find(d, q).rec);
    }
  }

  lemma InsertGrows(d: Dir, ino: u32, name: seq<byte>)
    requires NoEmptyBlock(d)
    ensures |d| <= |Inserted(d, ino, name)| <= |d| + 1
  {
  }

  lemma InsertLookup(d: Dir, ino: u32, name: seq<byte>, q: seq<byte>)
    requires NoEmptyBlock(d) && Find(d, name) == Nowhere
    ensures Lookup(Inserted(d, ino, name), q) == if q == name then ino else Lookup(d, q)
  {
    hide Find;
    hide Room;
    hide FirstNamed;
    InsertFind(d, ino, name, q);
    if q != name {
      match Find(d, q)
      case Nowhere =>
      case At(i, j) => SplitKeeps(d, ino, name, i, j);
    }
  }

  lemma SplitKeeps(d: Dir, ino: u32, name: seq<byte>, i: nat, j: nat)
    requires NoEmptyBlock(d) && i < |d| && j < |d[i]|
    ensures i < |Inserted(d, ino, name)| && j < |Inserted(d, ino, name)[i]|
    ensures Inserted(d, ino, name)[i][j].ino == d[i][j].ino
  {
    hide Room;
  }

  /** A record needs its header of 8 bytes and its name, rounded up to whole words. */
  lemma IdealIs(n: nat)
    ensures Ideal(n) % 4 == 0 && 8 + n <= Ideal(n) < 8 + n + 4
  {
  }

  /** A split touches the last record alone: that one keeps what its name needs, and the new one has the rest. */
  lemma SplitLengths(s: seq<Rec>, ino: u32, name: seq<byte>, k: nat)
    requires s != [] && Ideal(|name|) <= Slack(Last(s)) && k < |s|
    ensures var r := Split(s, ino, name);
            && r[k].name == s[k].name && r[k].ino == s[k].ino && r[|s|].name == name && r[|s|].ino == ino
            && (k < |s| - 1 ==> r[k].len == s[k].len)
            && r[|s| - 1].len % 4 == 0 && 8 + |Last(s).name| <= r[|s| - 1].len < 8 + |Last(s).name| + 4
            && r[|s| - 1].len + r[|s|].len == Last(s).len
  {
    IdealIs(|Last(s).name|);
  }

  /** A cut moves the later records up one place and changes one length: the last remaining record's, by the
      length that went. */
  lemma WithoutLengths(s: seq<Rec>, j: nat, k: nat)
    requires CanCut(s, j) && k < |s| - 1
    ensures var r, l := Without(s, j), if k < j then k else k + 1;
            && r[k].name == s[l].name && r[k].ino == s[l].ino
            && r[k].len == s[l].len + if k == |s| - 2 then s[j].len else 0
  {
    var r := Without(s, j);
    if j < |s| - 1 && k >= j {
      assert r[k] == GrowLast(s[j + 1..], s[j].len)[k - j];
    }
  }

  /** Removing a name just inserted restores the directory exactly, whichever way it was inserted. */
  lemma RemoveUndoesInsert(d: Dir, ino: u32, name: seq<byte>)
    requires NoEmptyBlock(d) && Find(d, name) == Nowhere
    ensures var d' := Inserted(d, ino, name);
            var p := Find(d', name);
            p.At? && Removable(d', p.block, p.rec) && Removed(d', p.block, p.rec) == d
  {
    hide Find;
    hide Room;
    InsertFind(d, ino, name, name);
    var d', i := Inserted(d, ino, name), Room(d, Ideal(|name|));
    if i < |d| {
      SplitBack(d[i], ino, name);
      assert d'[i := d[i]] == d;
    } else {
      assert d'[..i] == d;
    }
  }

  lemma SplitBack(s: seq<Rec>, ino: u32, name: seq<byte>)
    requires s != [] && Ideal(|name|) <= Slack(Last(s))
    ensures var r := Split(s, ino, name);
            CanCut(r, |s|) && Without(r, |s|) == s
  {
    var r, l := Split(s, ino, name), Last(s);
    assert r[..|s|] == s[..|s| - 1] + [l.(len := Ideal(|l.name|))];
    assert r[..|s|][..|s| - 1] == s[..|s| - 1];
  }

  lemma {:induction false} EntriesConcat(a: Dir, b: Dir)
    ensures Entries(a + b) == Entries(a) + Entries(b)
  {
    if a == [] {
      assert a + b == b;
    } else {
      assert (a + b)[0] == a[0] && (a + b)[1..] == a[1..] + b;
      hide Pairs;
      EntriesConcat(a[1..], b);
    }
  }

  /** The position of record j of block i among all entries. */
  function Position(d: Dir, i: nat, j: nat): nat
    requires i <= |d|
  {
    |Entries(d[..i])| + j
  }

  lemma EntriesSplit(d: Dir, i: nat)
    requires i < |d|
    ensures Entries(d) == Entries(d[..i]) + Pairs(d[i]) + Entries(d[i + 1..])
  {
    hide Pairs;
    EntriesConcat(d[..i], d[i..]);
    assert d[..i] + d[i..] == d && d[i..][1..] == d[i + 1..];
  }

  lemma EntriesUpdate(d: Dir, i: nat, s: seq<Rec>)
    requires i < |d|
    ensures Entries(d[i := s]) == Entries(d[..i]) + Pairs(s) + Entries(d[i + 1..])
  {
    EntriesSplit(d[i := s], i);
    assert d[i := s][..i] == d[..i] && d[i := s][i + 1..] == d[i + 1..];
  }

  lemma WithoutPairs(s: seq<Rec>, j: nat)
    requires CanCut(s, j)
    ensures Pairs(Without(s, j)) == Pairs(s)[..j] + Pairs(s)[j + 1..]
  {
    var r := Without(s, j);
    forall k | 0 <= k < |r|
      ensures r[k].name == s[if k < j then k else k + 1].name && r[k].ino == s[if k < j then k else k + 1].ino
    {
    }
  }

  lemma SplitPairs(s: seq<Rec>, ino: u32, name: seq<byte>)
    requires s != [] && Ideal(|name|) <= Slack(Last(s))
    ensures Pairs(Split(s, ino, name)) == Pairs(s) + [(name, ino)]
  {
  }

  lemma OneEntry(r: Rec)
    ensures Entries([[r]]) == [(r.name, r.ino)]
  {
    assert [[r]][1..] == [];
  }

  lemma CutOne<T>(a: seq<T>, s: seq<T>, b: seq<T>, j: nat)
    requires j < |s|
    ensures (a + s + b)[..|a| + j] + (a + s + b)[|a| + j + 1..] == a + (s[..j] + s[j + 1..]) + b
  {
  }

  lemma AddOne<T>(a: seq<T>, s: seq<T>, b: seq<T>, x: T)
    ensures (a + s + b)[..|a| + |s|] + [x] + (a + s + b)[|a| + |s|..] == a + (s + [x]) + b
  {
  }

  /** Removal deletes exactly the entry at its position and keeps the others in order. */
  lemma RemoveEntries(d: Dir, i: nat, j: nat)
    requires Removable(d, i, j)
    ensures var p := Position(d, i, j);
            p < |Entries(d)| && Entries(Removed(d, i, j)) == Entries(d)[..p] + Entries(d)[p + 1..]
  {
    hide Pairs;
    hide Without;
    hide Entries;
    EntriesSplit(d, i);
    CutOne(Entries(d[..i]), Pairs(d[i]), Entries(d[i + 1..]), j);
    if |d[i]| == 1 {
      LastBlockGone(d, i, j);
    } else {
      WithoutPairs(d[i], j);
      EntriesUpdate(d, i, Without(d[i], j));
    }
  }

  lemma LastBlockGone(d: Dir, i: nat, j: nat)
    requires Removable(d, i, j) && |d[i]| == 1
    ensures Entries(Removed(d, i, j)) == Entries(d[..i]) + (Pairs(d[i])[..j] + Pairs(d[i])[j + 1..]) + Entries(d[i + 1..])
  {
    assert d[i + 1..] == [] && Entries([]) == [];
    assert Pairs(d[i])[..j] + Pairs(d[i])[j + 1..] == [];
  }

  /** Insertion adds exactly the new entry behind the block's other entries. */
  lemma InsertEntries(d: Dir, ino: u32, name: seq<byte>)
    requires NoEmptyBlock(d)
    ensures var i := Room(d, Ideal(|name|));
            var p := Position(d, i, NewIndex(d, i));
            && p <= |Entries(d)|
            && Entries(Inserted(d, ino, name)) == Entries(d)[..p] + [(name, ino)] + Entries(d)[p..]
  {
    hide Room;
    hide Entries;
    hide Split;
    var i := Room(d, Ideal(|name|));
    if i < |d| {
      EntriesSplit(d, i);
      EntriesUpdate(d, i, Split(d[i], ino, name));
      SplitPairs(d[i], ino, name);
      AddOne(Entries(d[..i]), Pairs(d[i]), Entries(d[i + 1..]), (name, ino));
    } else {
      assert d[..i] == d;
      EntriesConcat(d, [[Rec(ino, BLOCKLEN, name)]]);
      OneEntry(Rec(ino, BLOCKLEN, name));
    }
  }

  /** Dropping a block of one record hides every later block, so it keeps the other entries if and
      only if the block is the last one. */
  lemma DropBlockKeeps(d: Dir, i: nat)
    requires i < |d| && NoEmptyBlock(d) && |d[i]| == 1
    ensures var p := Position(d, i, 0);
            p < |Entries(d)| && (Entries(d[..i]) == Entries(d)[..p] + Entries(d)[p + 1..] <==> i == |d| - 1)
  {
    EntriesSplit(d, i);
    var rest := d[i + 1..];
    assert rest != [] ==> Entries(rest) == Pairs(rest[0]) + Entries(rest[1..]) && rest[0] == d[i + 1];
  }

  // ---------------------------------------------------------------------------------------------
  // The edits of one block buffer

  /** The last record can give away need bytes. */
  ghost predicate HasRoom(b: Block, need: nat)
    requires Chain(b, 0)
  {
    var l := LastAt(b, 0);
    Ideal(NameLen(b, l)) + need <= RecLen(b, l)
  }

  lemma RoomMeans(b: Block, need: nat)
    requires Chain(b, 0)
    ensures Recs(b, 0) != [] && (HasRoom(b, need) <==> need <= Slack(Last(Recs(b, 0))))
  {
    hide RecOk;
    hide RecLen;
    hide Chain;
    hide Recs;
    hide Upto;
    hide Reach;
    var l := LastAt(b, 0);
    LastRecs(b, l);
    RecAtLen(b, l);
    LenFacts(b, l);
  }

  /** What splitting the last record of a block does to its records. */
  lemma SplitView(b: Block, ino: u32, name: seq<byte>)
    requires Chain(b, 0) && |name| <= 255 && NulFree(name) && HasRoom(b, Ideal(|name|))
    ensures Recs(b, 0) != [] && Ideal(|name|) <= Slack(Last(Recs(b, 0)))
    ensures var b' := SplitBlock(b, LastAt(b, 0), ino, name);
            Chain(b', 0) && Recs(b', 0) == Split(Recs(b, 0), ino, name)
  {
    hide RecOk;
    hide SplitBlock;
    hide Upto;
    hide Recs;
    hide Chain;
    hide Reach;
    var l := LastAt(b, 0);
    RoomMeans(b, Ideal(|name|));
    LastRecs(b, l);
    RecAtLen(b, l);
    LenFacts(b, l);
    var ideal: nat := Ideal(NameLen(b, l));
    SplitLast(b, l, ino, name, SplitBlock(b, l, ino, name), ideal, RecLen(b, l) - ideal);
  }

  /** The new record behind the last one, if that leaves room. */
  method SplitBuf(buf: Block, child: u32, name: seq<byte>) returns (ok: bool, r: Block)
    requires Chain(buf, 0) && |name| <= 255 && NulFree(name)
    ensures Recs(buf, 0) != [] && (ok <==> Ideal(|name|) <= Slack(Last(Recs(buf, 0))))
    ensures ok <==> HasRoom(buf, Ideal(|name|))
    ensures ok ==> r == SplitBlock(buf, LastAt(buf, 0), child, name)
    ensures ok ==> Chain(r, 0) && Recs(r, 0) == Split(Recs(buf, 0), child, name)
  {
    hide PutU16;
    hide RecOk;
    hide SplitBlock;
    hide Upto;
    hide Recs;
    hide Chain;
    hide Reach;
    r := buf;
    var last := LastEntry(buf);
    LastIs(buf, 0, last);
    RoomMeans(buf, Ideal(|name|));
    LenFacts(buf, last);
    var ideal: nat := Ideal(NameLen(buf, last));
    var remain: nat := RecLen(buf, last) - ideal;
    ok := Ideal(|name|) <= remain;
    if ok {
      r := SplitBlock(buf, last, child, name);
      SplitView(buf, child, name);
    }
  }

  datatype Cut = Absent | Sole | Remains(buf: Block)

  /** The record before the first match and the match itself, at the end of the block. */
  lemma CutLast(b: Block, prev: nat, at: nat, b': Block)
    requires IsLast(b, at) && Reach(b, 0, prev) && RecOk(b, prev) && prev + RecLen(b, prev) == at
    requires b' == PutU16(b, prev + 4, RecLen(b, prev) + RecLen(b, at))
    ensures Chain(b, 0) && Chain(b', 0)
    ensures var j := |Upto(b, 0, at)|;
            && j == |Recs(b, 0)| - 1 && CanCut(Recs(b, 0), j)
            && Recs(b', 0) == Without(Recs(b, 0), j)
  {
    hide RecOk;
    hide PutU16;
    hide RecAt;
    hide Upto;
    hide Chain;
    LastRecs(b, at);
    LenFacts(b, at);
    LenFacts(b, prev);
    RecAtLen(b, at);
    RecAtLen(b, prev);
    DropLast(b, prev, at, RecLen(b, at), b');
    assert Recs(b, 0)[..|Upto(b, 0, at)|] == Upto(b, 0, at);
  }

  lemma CutMiddle(b: Block, at: nat, last: nat, x: nat, b1: Block, b': Block)
    requires IsLast(b, last) && Reach(b, 0, at) && Reach(b, at + x, last) && Shifted(b, at, last, x, b1, b')
    ensures Chain(b, 0) && Chain(b', 0)
    ensures var j, s := |Upto(b, 0, at)|, Recs(b, 0);
            && j < |s| - 1 && CanCut(s, j)
            && Recs(b', 0) == Without(s, j)
  {
    hide RecOk;
    hide PutU16;
    hide RecAt;
    hide Splice;
    hide RecLen;
    hide Reach;
    hide Upto;
    hide Chain;
    hide Recs;
    hide CanCut;
    hide Without;
    hide GrowLast;
    LastRecs(b, last);
    RecAtLen(b, at);
    LenFacts(b, at);
    DropMiddle(b, at, last, x, b1, b');
    ReachStep(b, 0, at);
    ReachChain(b, 0, at + x);
    MiddleCut(Upto(b, 0, at), RecAt(b, at), Recs(b, at + x));
  }

  lemma MiddleCut(u: seq<Rec>, r: Rec, t: seq<Rec>)
    requires t != [] && t[|t| - 1].len + r.len < 0x1_0000
    ensures CanCut(u + [r] + t, |u|) && Without(u + [r] + t, |u|) == u + GrowLast(t, r.len)
  {
    var s := u + [r] + t;
    assert s[|u| + 1..] == t && s[..|u|] == u;
  }

  /** The walk from a boundary reaches the last record. */
  lemma {:induction false} ReachBetween(b: Block, o: nat, at: nat, last: nat)
    requires Reach(b, o, at) && RecOk(b, at) && Reach(b, o, last) && at < last
    ensures at + RecLen(b, at) <= last && Reach(b, at + RecLen(b, at), last)
    decreases BLOCKSIZE - o
  {
    hide RecAt;
    if o < at {
      ReachBetween(b, o + RecLen(b, o), at, last);
    } else {
      ReachBound(b, o + RecLen(b, o), last);
    }
  }

  lemma AfterLast(b: Block, at: nat)
    requires Chain(b, 0) && Reach(b, 0, at) && RecOk(b, at)
    ensures at + RecLen(b, at) == BLOCKSIZE <==> |Recs(b, 0)| == |Upto(b, 0, at)| + 1
    ensures |Upto(b, 0, at)| < |Recs(b, 0)| && (at == 0 ==> |Upto(b, 0, at)| == 0)
  {
    hide RecAt;
    LenFacts(b, at);
    ReachStep(b, 0, at);
    ReachChain(b, 0, at + RecLen(b, at));
  }

  lemma SoleRecord(b: Block, at: nat)
    requires Chain(b, 0) && Reach(b, 0, at) && RecOk(b, at)
    ensures RecLen(b, at) == BLOCKSIZE ==> at == 0 && |Recs(b, 0)| == 1
  {
    hide RecAt;
    LenFacts(b, at);
    AfterLast(b, at);
  }

  /** Taking the first matching record out of a block buffer. */
  method CutBuf(buf: Block, q: seq<byte>) returns (c: Cut)
    requires Chain(buf, 0)
    ensures c.Absent? <==> FirstMatch(buf, 0, q) < 0
    ensures !c.Absent? ==> FirstMatch(buf, 0, q) < |Recs(buf, 0)|
    ensures c.Sole? ==> |Recs(buf, 0)| == 1
    ensures c.Remains? ==>
              var j, s := FirstMatch(buf, 0, q), Recs(buf, 0);
              && CanCut(s, j)
              && Chain(c.buf, 0) && Recs(c.buf, 0) == Without(s, j)
  {
    hide RecOk;
    hide PutU16;
    hide RecAt;
    hide Splice;
    hide FirstMatch;
    hide Upto;
    hide Recs;
    hide Without;
    hide CanCut;
    hide Chain;
    hide U16At;
    var found, at, prev := ScanBlock(buf, q);
    if !found {
      return Absent;
    }
    LenFacts(buf, at);
    AfterLast(buf, at);
    SoleRecord(buf, at);
    if RecLen(buf, at) == BLOCKSIZE {
      return Sole;
    }
    if at + RecLen(buf, at) == BLOCKSIZE {
      LenFacts(buf, prev);
      var b' := PutU16(buf, prev + 4, RecLen(buf, prev) + RecLen(buf, at));
      CutLast(buf, prev, at, b');
      return Remains(b');
    }
    var last := LastEntry(buf);
    LenFacts(buf, last);
    NotPastLast(buf, at, last);
    ReachBetween(buf, 0, at, last);
    var b1 := PutU16(buf, last + 4, RecLen(buf, last) + RecLen(buf, at));
    var b' := Splice(b1, at, b1[at + RecLen(buf, at)..]);
    CutMiddle(buf, at, last, RecLen(buf, at), b1, b');
    return Remains(b');
  }

  lemma NotPastLast(b: Block, at: nat, last: nat)
    requires Reach(b, 0, at) && RecOk(b, at) && IsLast(b, last) && at + RecLen(b, at) != BLOCKSIZE
    ensures at < last
  {
    hide RecAt;
    LenFacts(b, at);
    LenFacts(b, last);
    if last < at {
      ReachBetween(b, 0, last, at);
    }
  }
}
