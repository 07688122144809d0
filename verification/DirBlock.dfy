/** One directory block: a chain of variable-length ext2_dir_entry_2 records that fills the block. */
module DirBlock {
  import opened Bytes

  const HEADER := 8

  /** A directory record, as its bytes say: inode, rec_len and the name_len bytes of the name. */
  datatype Rec = Rec(ino: u32, len: u16, name: seq<byte>)

  /** The shortest 4-aligned record for a name of n bytes. */
  function Ideal(n: nat): nat {
    4 * ((HEADER + n + 3) / 4)
  }

  function RecLen(b: Block, o: nat): u16
    requires o + HEADER <= BLOCKSIZE
  {
    U16At(b, o + 4)
  }

  function NameLen(b: Block, o: nat): byte
    requires o + HEADER <= BLOCKSIZE
  {
    b[o + 6]
  }

  predicate NulFree(s: seq<byte>) {
    forall k :: 0 <= k < |s| ==> s[k] != 0
  }

  /** An aligned record at o, at least as long as its header and name, and within the block. */
  predicate RecOk(b: Block, o: nat) {
    && o + HEADER <= BLOCKSIZE
    && RecLen(b, o) % 4 == 0 && Ideal(NameLen(b, o)) <= RecLen(b, o)
    && o + RecLen(b, o) <= BLOCKSIZE
    && NulFree(b[o + HEADER..o + HEADER + NameLen(b, o)])
  }

  function RecAt(b: Block, o: nat): Rec
    requires RecOk(b, o)
  {
    Rec(U32At(b, o), RecLen(b, o), b[o + HEADER..o + HEADER + NameLen(b, o)])
  }

  /** The records from o on partition the rest of the block. */
  ghost predicate Chain(b: Block, o: nat)
    decreases BLOCKSIZE - o
  {
    o == BLOCKSIZE || (RecOk(b, o) && Chain(b, o + RecLen(b, o)))
  }

  ghost function Recs(b: Block, o: nat): (s: seq<Rec>)
    requires Chain(b, o)
    ensures o < BLOCKSIZE ==> s != [] && s[0] == RecAt(b, o)
    decreases BLOCKSIZE - o
  {
    if o == BLOCKSIZE then [] else [RecAt(b, o)] + Recs(b, o + RecLen(b, o))
  }

  /** e is a record boundary the chain from o reaches. */
  ghost predicate Reach(b: Block, o: nat, e: nat)
    decreases BLOCKSIZE - o
  {
    o == e || (o < e && RecOk(b, o) && Reach(b, o + RecLen(b, o), e))
  }

  ghost function Upto(b: Block, o: nat, e: nat): seq<Rec>
    requires Reach(b, o, e)
    decreases BLOCKSIZE - o
  {
    if o == e then [] else [RecAt(b, o)] + Upto(b, o + RecLen(b, o), e)
  }

  lemma {:induction false} ReachChain(b: Block, o: nat, e: nat)
    requires Reach(b, o, e) && e <= BLOCKSIZE
    ensures Chain(b, o) <==> Chain(b, e)
    ensures Chain(b, e) ==> Recs(b, o) == Upto(b, o, e) + Recs(b, e)
    decreases BLOCKSIZE - o
  {
    hide RecAt;
    hide RecOk;
    hide RecLen;
    if o < e {
      LenFacts(b, o);
      var o' := o + RecLen(b, o);
      ReachChain(b, o', e);
      if Chain(b, e) {
        assert Recs(b, o) == [RecAt(b, o)] + Recs(b, o') && Upto(b, o, e) == [RecAt(b, o)] + Upto(b, o', e);
        assert [RecAt(b, o)] + (Upto(b, o', e) + Recs(b, e)) == [RecAt(b, o)] + Upto(b, o', e) + Recs(b, e);
      }
    } else if Chain(b, e) {
      assert [] + Recs(b, e) == Recs(b, e);
    }
  }

  lemma {:induction false} ReachStep(b: Block, o: nat, e: nat)
    requires Reach(b, o, e) && RecOk(b, e)
    ensures Reach(b, o, e + RecLen(b, e)) && Upto(b, o, e + RecLen(b, e)) == Upto(b, o, e) + [RecAt(b, e)]
    decreases BLOCKSIZE - o
  {
    hide RecAt;
    hide RecLen;
    hide RecOk;
    LenFacts(b, e);
    if o < e {
      LenFacts(b, o);
      var o' := o + RecLen(b, o);
      ReachStep(b, o', e);
      assert [RecAt(b, o)] + (Upto(b, o', e) + [RecAt(b, e)]) == [RecAt(b, o)] + Upto(b, o', e) + [RecAt(b, e)];
    } else {
      assert Reach(b, e + RecLen(b, e), e + RecLen(b, e));
    }
  }

  ghost predicate SameBytes(b: Block, b': Block, lo: nat, hi: nat)
    requires hi <= BLOCKSIZE
  {
    forall k :: lo <= k < hi ==> b'[k] == b[k]
  }

  /** A record is determined by its own bytes. */
  lemma RecFrame(b: Block, b': Block, o: nat)
    requires RecOk(b, o) && SameBytes(b, b', o, o + HEADER + NameLen(b, o))
    ensures RecOk(b', o) && RecAt(b', o) == RecAt(b, o)
  {
    assert b'[o + HEADER..o + HEADER + NameLen(b, o)] == b[o + HEADER..o + HEADER + NameLen(b, o)];
  }

  lemma {:induction false} UptoFrame(b: Block, b': Block, o: nat, e: nat)
    requires e <= BLOCKSIZE && Reach(b, o, e) && SameBytes(b, b', o, e)
    ensures Reach(b', o, e) && Upto(b', o, e) == Upto(b, o, e)
    decreases BLOCKSIZE - o
  {
    hide RecAt;
    hide RecLen;
    hide NulFree;
    if o < e {
      ReachBound(b, o + RecLen(b, o), e);
      RecFrame(b, b', o);
      RecAtLen(b, o);
      RecAtLen(b', o);
      UptoFrame(b, b', o + RecLen(b, o), e);
    }
  }

  lemma ReachBound(b: Block, o: nat, e: nat)
    requires Reach(b, o, e)
    ensures o <= e
  {
  }

  // ---------------------------------------------------------------------------------------------
  // Edits

  lemma LenFacts(b: Block, o: nat)
    requires RecOk(b, o)
    ensures o + HEADER <= BLOCKSIZE && RecLen(b, o) % 4 == 0 && HEADER <= Ideal(NameLen(b, o)) <= RecLen(b, o)
    ensures o + RecLen(b, o) <= BLOCKSIZE
  {
    hide U16At;
    hide NulFree;
  }

  /** A record grown by x aligned bytes. */
  lemma GrowRec(b: Block, l: nat, x: nat, b': Block)
    requires RecOk(b, l) && x % 4 == 0 && l + RecLen(b, l) + x <= BLOCKSIZE
    requires b' == PutU16(b, l + 4, RecLen(b, l) + x)
    ensures SameBytes(b, b', 0, l + 4) && SameBytes(b, b', l + 6, BLOCKSIZE)
    ensures RecOk(b', l) && RecAt(b', l) == RecAt(b, l).(len := RecLen(b, l) + x)
  {
    hide PutU16;
    hide U16At;
    hide RecOk;
    hide RecAt;
    LenFacts(b, l);
    hide Ideal;
    PutLen(b, l, RecLen(b, l) + x);
  }

  /** A record with another rec_len. */
  lemma PutLen(b: Block, l: nat, v: u16)
    requires RecOk(b, l) && v % 4 == 0 && Ideal(NameLen(b, l)) <= v && l + v <= BLOCKSIZE
    ensures var b' := PutU16(b, l + 4, v);
            && SameBytes(b, b', 0, l + 4) && SameBytes(b, b', l + 6, BLOCKSIZE)
            && RecOk(b', l) && RecAt(b', l) == RecAt(b, l).(len := v)
  {
    var b' := PutU16(b, l + 4, v);
    assert b'[l + HEADER..l + HEADER + NameLen(b, l)] == b[l + HEADER..l + HEADER + NameLen(b, l)];
    assert U32At(b', l) == U32At(b, l);
  }

  /** Writing inode, name_len, rec_len and name of a record that is to fill r bytes at m. */
  function WithRec(b: Block, m: nat, ino: u32, r: u16, name: seq<byte>): (b': Block)
    requires |name| <= 255 && m + HEADER + |name| <= BLOCKSIZE
    ensures SameBytes(b, b', 0, m)
  {
    var b1 := PutU32(b, m, ino);
    var b2 := b1[m + 6 := |name|];
    var b3 := PutU16(b2, m + 4, r);
    Splice(b3, m + HEADER, name)
  }

  lemma WithRecOk(b: Block, m: nat, ino: u32, r: u16, name: seq<byte>)
    requires |name| <= 255 && m + r <= BLOCKSIZE && Ideal(|name|) <= r && r % 4 == 0 && NulFree(name)
    ensures RecOk(WithRec(b, m, ino, r, name), m) && RecAt(WithRec(b, m, ino, r, name), m) == Rec(ino, r, name)
  {
    var b' := WithRec(b, m, ino, r, name);
    var b1 := PutU32(b, m, ino);
    var b3 := PutU16(b1[m + 6 := |name|], m + 4, r);
    assert U32At(b', m) == U32At(b1, m) == ino;
    assert U16At(b', m + 4) == U16At(b3, m + 4) == r;
    assert b'[m + HEADER..m + HEADER + |name|] == name;
  }

  ghost predicate IsLast(b: Block, l: nat) {
    Reach(b, 0, l) && RecOk(b, l) && l + RecLen(b, l) == BLOCKSIZE
  }

  /** The records of a block, split at its last one. */
  lemma LastRecs(b: Block, l: nat)
    requires IsLast(b, l)
    ensures Chain(b, 0) && Recs(b, 0) == Upto(b, 0, l) + [RecAt(b, l)]
  {
    hide RecAt;
    ReachStep(b, 0, l);
    ReachChain(b, 0, BLOCKSIZE);
  }

  /** Bytes the last record may give away to a new one. */
  function Slack(r: Rec): int {
    r.len - Ideal(|r.name|)
  }

  /** The last record keeps its ideal length; a new record gets the remainder. */
  function SplitBlock(b: Block, l: nat, ino: u32, name: seq<byte>): Block
    requires RecOk(b, l) && |name| <= 255 && Ideal(NameLen(b, l)) + Ideal(|name|) <= RecLen(b, l)
  {
    WithRec(PutU16(b, l + 4, Ideal(NameLen(b, l))), l + Ideal(NameLen(b, l)), ino,
            RecLen(b, l) - Ideal(NameLen(b, l)), name)
  }

  lemma SplitRecs(b: Block, l: nat, ino: u32, name: seq<byte>, b': Block, ideal: nat, r: nat)
    requires RecOk(b, l) && l + RecLen(b, l) == BLOCKSIZE && |name| <= 255 && NulFree(name)
    requires ideal == Ideal(NameLen(b, l)) && r == RecLen(b, l) - ideal && Ideal(|name|) <= r
    requires b' == SplitBlock(b, l, ino, name)
    ensures SameBytes(b, b', 0, l) && r < 0x1_0000
    ensures RecOk(b', l) && RecAt(b', l) == RecAt(b, l).(len := ideal)
    ensures RecOk(b', l + ideal) && RecAt(b', l + ideal) == Rec(ino, r, name)
  {
    hide WithRec;
    hide PutU16;
    hide U16At;
    hide RecOk;
    hide RecAt;
    var b1 := PutU16(b, l + 4, ideal);
    LenFacts(b, l);
    PutLen(b, l, ideal);
    WithRecOk(b1, l + ideal, ino, r, name);
    LenFacts(b1, l);
    RecFrame(b1, b', l);
  }

  lemma SplitLast(b: Block, l: nat, ino: u32, name: seq<byte>, b': Block, ideal: nat, r: nat)
    requires IsLast(b, l) && |name| <= 255 && NulFree(name)
    requires ideal == Ideal(NameLen(b, l)) && r == RecLen(b, l) - ideal && Ideal(|name|) <= r < 0x1_0000
    requires b' == SplitBlock(b, l, ino, name)
    ensures Chain(b', 0) && Recs(b', 0) == Upto(b, 0, l) + [RecAt(b, l).(len := ideal), Rec(ino, r, name)]
  {
    SplitRecs(b, l, ino, name, b', ideal, r);
    TwoTail(b, b', l, l + ideal);
  }

  /** A chain that follows b up to l and then has two records, the second of them to the end. */
  lemma TwoTail(b: Block, b': Block, l: nat, m: nat)
    requires Reach(b, 0, l) && l <= BLOCKSIZE && SameBytes(b, b', 0, l)
    requires RecOk(b', l) && l + RecLen(b', l) == m && RecOk(b', m) && m + RecLen(b', m) == BLOCKSIZE
    ensures Chain(b', 0) && Recs(b', 0) == Upto(b, 0, l) + [RecAt(b', l), RecAt(b', m)]
  {
    hide RecAt;
    hide RecOk;
    hide RecLen;
    UptoFrame(b, b', 0, l);
    ReachStep(b', 0, l);
    ReachStep(b', 0, m);
    ReachChain(b', 0, BLOCKSIZE);
  }

  /** A chain that follows b up to l and then has one record to the end. */
  lemma OneTail(b: Block, b': Block, l: nat)
    requires Reach(b, 0, l) && l <= BLOCKSIZE && SameBytes(b, b', 0, l)
    requires RecOk(b', l) && l + RecLen(b', l) == BLOCKSIZE
    ensures Chain(b', 0) && Recs(b', 0) == Upto(b, 0, l) + [RecAt(b', l)]
  {
    hide RecAt;
    hide RecOk;
    hide RecLen;
    UptoFrame(b, b', 0, l);
    ReachStep(b', 0, l);
    ReachChain(b', 0, BLOCKSIZE);
  }

  /** A block with a single record. */
  lemma OneRec(ino: u32, name: seq<byte>)
    requires |name| <= 255 && NulFree(name)
    ensures var b := WithRec(Zeros(BLOCKSIZE), 0, ino, BLOCKSIZE, name);
            Chain(b, 0) && Recs(b, 0) == [Rec(ino, BLOCKSIZE, name)]
  {
    var b := WithRec(Zeros(BLOCKSIZE), 0, ino, BLOCKSIZE, name);
    WithRecOk(Zeros(BLOCKSIZE), 0, ino, BLOCKSIZE, name);
    assert Chain(b, BLOCKSIZE);
  }

  function GrowLast(s: seq<Rec>, x: nat): (r: seq<Rec>)
    requires s != [] && s[|s| - 1].len + x < 0x1_0000
    ensures |r| == |s|
  {
    s[..|s| - 1] + [s[|s| - 1].(len := s[|s| - 1].len + x)]
  }

  /** Removing the last of several records: the one before it takes its bytes. */
  lemma DropLast(b: Block, p: nat, d: nat, x: nat, b': Block)
    requires IsLast(b, d) && Reach(b, 0, p) && RecOk(b, p) && p + RecLen(b, p) == d && x == RecLen(b, d)
    requires b' == PutU16(b, p + 4, RecLen(b, p) + x)
    ensures Chain(b', 0) && Upto(b, 0, d) == Upto(b, 0, p) + [RecAt(b, p)] && RecLen(b, p) + x < 0x1_0000
    ensures Recs(b', 0) == GrowLast(Upto(b, 0, d), x)
  {
    hide PutU16;
    hide RecOk;
    hide RecAt;
    hide RecLen;
    hide Ideal;
    hide Reach;
    hide Chain;
    hide Upto;
    hide Recs;
    hide GrowLast;
    LenFacts(b, p);
    LenFacts(b, d);
    GrowRec(b, p, x, b');
    ReachStep(b, 0, p);
    RecAtLen(b, p);
    RecAtLen(b', p);
    OneTail(b, b', p);
    GrowLastOf(Upto(b, 0, p), RecAt(b, p), x);
  }

  lemma GrowLastOf(s: seq<Rec>, r: Rec, x: nat)
    requires r.len + x < 0x1_0000
    ensures GrowLast(s + [r], x) == s + [r.(len := r.len + x)]
  {
    assert (s + [r])[..|s|] == s;
  }

  lemma RecAtLen(b: Block, o: nat)
    requires RecOk(b, o)
    ensures RecAt(b, o).len == RecLen(b, o)
  {
  }

  /** Record l gets the length x of record d, and everything behind d moves up over it. */
  ghost predicate Shifted(b: Block, d: nat, l: nat, x: nat, b1: Block, b': Block) {
    && RecOk(b, d) && RecOk(b, l) && x == RecLen(b, d) && d + x <= l && RecLen(b, l) + x < 0x1_0000
    && b1 == PutU16(b, l + 4, RecLen(b, l) + x) && b' == Splice(b1, d, b1[d + x..])
  }

  /** The records of b' are those of b without the one at d, of length x, which the last one gets. */
  ghost predicate MiddleGone(b: Block, b': Block, d: nat, x: nat) {
    && Chain(b', 0) && Reach(b, 0, d) && Chain(b, d + x)
    && var t := Recs(b, d + x);
       && t != [] && t[|t| - 1].len + x < 0x1_0000
       && Recs(b', 0) == Upto(b, 0, d) + GrowLast(t, x)
  }

  /** Removing an earlier record: the rest of the block moves up by its length, which the last record gets. */
  lemma DropMiddle(b: Block, d: nat, l: nat, x: nat, b1: Block, b': Block)
    requires IsLast(b, l) && Reach(b, 0, d) && Reach(b, d + x, l) && Shifted(b, d, l, x, b1, b')
    ensures MiddleGone(b, b', d, x)
  {
    hide PutU16;
    hide RecOk;
    hide RecAt;
    hide RecLen;
    hide Ideal;
    hide Splice;
    hide Chain;
    hide Recs;
    hide Reach;
    hide Upto;
    hide GrowLast;
    LenFacts(b, d);
    LenFacts(b, l);
    MovedUp(b1, b', d, x);
    LastMoved(b, l, x, b1, b');
    ShiftedRecs(b, b1, b', x, d + x, l);
    UptoFrame(b, b', 0, d);
    ReachChain(b', 0, d);
  }

  lemma MovedUp(b1: Block, b': Block, d: nat, x: nat)
    requires d + x <= BLOCKSIZE && b' == Splice(b1, d, b1[d + x..])
    ensures SameBytes(b1, b', 0, d) && forall k :: d + x <= k < BLOCKSIZE ==> b'[k - x] == b1[k]
  {
  }

  /** Record o of b1 sits x bytes earlier in b'. */
  lemma ShiftedRec(b1: Block, b': Block, x: nat, o: nat)
    requires RecOk(b1, o) && x <= o
    requires forall k :: o <= k < o + HEADER + NameLen(b1, o) ==> b'[k - x] == b1[k]
    ensures RecOk(b', o - x) && RecAt(b', o - x) == RecAt(b1, o)
  {
    var n := NameLen(b1, o);
    assert b'[o - x + 6] == b1[o + 6];
    assert b'[o - x + HEADER..o - x + HEADER + n] == b1[o + HEADER..o + HEADER + n];
    assert RecLen(b', o - x) == RecLen(b1, o) by {
      assert b'[o - x + 4] == b1[o + 4] && b'[o - x + 5] == b1[o + 5];
    }
    assert U32At(b', o - x) == U32At(b1, o) by {
      assert b'[o - x] == b1[o] && b'[o - x + 1] == b1[o + 1] && b'[o - x + 2] == b1[o + 2] && b'[o - x + 3] == b1[o + 3];
    }
  }

  /** The last record, lengthened by x and moved up by x, still ends the block. */
  lemma LastMoved(b: Block, l: nat, x: nat, b1: Block, b': Block)
    requires RecOk(b, l) && l + RecLen(b, l) == BLOCKSIZE && x % 4 == 0 && x <= l && RecLen(b, l) + x < 0x1_0000
    requires b1 == PutU16(b, l + 4, RecLen(b, l) + x)
    requires forall k :: l <= k < BLOCKSIZE ==> b'[k - x] == b1[k]
    ensures RecOk(b', l - x) && RecAt(b', l - x) == RecAt(b, l).(len := RecLen(b, l) + x)
    ensures SameBytes(b, b1, 0, l)
  {
    hide U16At;
    hide U32At;
    hide NulFree;
    hide PutU16;
    var n := NameLen(b, l);
    LenPut(b, l, RecLen(b, l) + x, b1);
    MovedWords(b1, b', l, x);
    assert b'[l - x + 6] == b1[l + 6] == b[l + 6];
    assert b'[l - x + HEADER..l - x + HEADER + n] == b[l + HEADER..l + HEADER + n];
  }

  /** Only the length field of the record at l changed. */
  lemma LenPut(b: Block, l: nat, v: u16, b1: Block)
    requires l + HEADER <= BLOCKSIZE && b1 == PutU16(b, l + 4, v)
    ensures U16At(b1, l + 4) == v && U32At(b1, l) == U32At(b, l)
    ensures forall k :: 0 <= k < BLOCKSIZE && k != l + 4 && k != l + 5 ==> b1[k] == b[k]
  {
    hide U16At;
  }

  lemma MovedWords(b1: Block, b': Block, l: nat, x: nat)
    requires x <= l && l + HEADER <= BLOCKSIZE && forall k :: l <= k < BLOCKSIZE ==> b'[k - x] == b1[k]
    ensures U16At(b', l - x + 4) == U16At(b1, l + 4) && U32At(b', l - x) == U32At(b1, l)
  {
    assert b'[l - x] == b1[l] && b'[l - x + 1] == b1[l + 1] && b'[l - x + 2] == b1[l + 2] && b'[l - x + 3] == b1[l + 3];
    assert b'[l - x + 4] == b1[l + 4] && b'[l - x + 5] == b1[l + 5];
  }

  lemma {:induction false} ShiftedRecs(b: Block, b1: Block, b': Block, x: nat, o: nat, l: nat)
    requires 0 < x <= o && Reach(b, o, l) && RecOk(b, l) && l + RecLen(b, l) == BLOCKSIZE
    requires SameBytes(b, b1, o, l)
    requires RecLen(b, l) + x < 0x1_0000
    requires RecOk(b', l - x) && RecAt(b', l - x) == RecAt(b, l).(len := RecLen(b, l) + x)
    requires forall k :: o <= k < BLOCKSIZE ==> b'[k - x] == b1[k]
    ensures Chain(b, o) && Chain(b', o - x)
    ensures Recs(b, o) != [] && Recs(b, o)[|Recs(b, o)| - 1].len + x < 0x1_0000
    ensures Recs(b', o - x) == GrowLast(Recs(b, o), x)
    decreases BLOCKSIZE - o
  {
    hide RecOk;
    hide RecAt;
    hide RecLen;
    hide GrowLast;
    ReachBound(b, o, l);
    LenFacts(b, l);
    RecAtLen(b', l - x);
    if o == l {
      RecAtLen(b, l);
      LastAlone(b, l);
      LastAlone(b', l - x);
      GrowOne(RecAt(b, l), x);
    } else {
      LenFacts(b, o);
      ReachBound(b, o + RecLen(b, o), l);
      RecFrame(b, b1, o);
      ShiftedRec(b1, b', x, o);
      RecAtLen(b, o);
      RecAtLen(b1, o);
      RecAtLen(b', o - x);
      ShiftedRecs(b, b1, b', x, o + RecLen(b, o), l);
      GrowCons(RecAt(b, o), Recs(b, o + RecLen(b, o)), x);
    }
  }

  lemma LastAlone(b: Block, l: nat)
    requires RecOk(b, l) && l + RecLen(b, l) == BLOCKSIZE
    ensures Chain(b, l) && Recs(b, l) == [RecAt(b, l)]
  {
    hide RecAt;
    LenFacts(b, l);
    assert Chain(b, BLOCKSIZE);
  }

  lemma GrowOne(r: Rec, x: nat)
    requires r.len + x < 0x1_0000
    ensures GrowLast([r], x) == [r.(len := r.len + x)]
  {
  }

  lemma GrowCons(r: Rec, s: seq<Rec>, x: nat)
    requires s != [] && s[|s| - 1].len + x < 0x1_0000
    ensures ([r] + s)[|s|] == s[|s| - 1] && GrowLast([r] + s, x) == [r] + GrowLast(s, x)
  {
  }

  // ---------------------------------------------------------------------------------------------
  // Looking a name up: memcmp over the longer of the two lengths

  /** memcmp(b + at, mem, n) == 0 from byte k on: it goes on until two bytes differ. A byte behind the
      block counts as different. */
  predicate MemEqual(b: Block, at: nat, mem: seq<byte>, k: nat, n: nat)
    requires n <= |mem|
    decreases n - k
  {
    k >= n || (at + k < BLOCKSIZE && b[at + k] == mem[k] && MemEqual(b, at, mem, k + 1, n))
  }

  lemma {:induction false} MemEqualAt(b: Block, at: nat, mem: seq<byte>, k: nat, n: nat, j: nat)
    requires n <= |mem| && MemEqual(b, at, mem, k, n) && k <= j < n
    ensures at + j < BLOCKSIZE && b[at + j] == mem[j]
    decreases n - k
  {
    if k < j { MemEqualAt(b, at, mem, k + 1, n, j); }
  }

  lemma {:induction false} MemEqualIs(b: Block, at: nat, mem: seq<byte>, k: nat, n: nat)
    requires n <= |mem| && (k < n ==> at + n <= BLOCKSIZE)
    requires forall j :: k <= j < n ==> b[at + j] == mem[j]
    ensures MemEqual(b, at, mem, k, n)
    decreases n - k
  {
    if k < n {
      assert b[at + k] == mem[k];
      MemEqualIs(b, at, mem, k + 1, n);
    }
  }

  /** The number of bytes compared: the longer of strlen(q) and name_len. */
  function Longer(b: Block, o: nat, q: seq<byte>): nat
    requires o + HEADER <= BLOCKSIZE
  {
    if |q| > NameLen(b, o) as int then |q| else NameLen(b, o) as int
  }

  /** The entry at o is taken for q. */
  predicate Matches(b: Block, o: nat, q: seq<byte>)
    requires RecOk(b, o)
  {
    && NameLen(b, o) <= |q| && o + HEADER + |q| <= BLOCKSIZE
    && forall k :: 0 <= k < |q| ==> b[o + HEADER + k] == q[k]
  }

  /** That is the memcmp with the C string q, whatever memory holds behind its terminating 0: a longer
      entry name differs from q there at the latest. */
  lemma MatchesMemcmp(b: Block, o: nat, q: seq<byte>, mem: seq<byte>)
    requires RecOk(b, o) && NulFree(q) && q + [0] <= mem && Longer(b, o, q) <= |mem|
    ensures MemEqual(b, o + HEADER, mem, 0, Longer(b, o, q)) <==> Matches(b, o, q)
  {
    LenFacts(b, o);
    var n, name := Longer(b, o, q), b[o + HEADER..o + HEADER + NameLen(b, o)];
    assert forall k :: 0 <= k < |q| ==> mem[k] == (q + [0])[k] == q[k];
    assert mem[|q|] == (q + [0])[|q|] == 0;
    assert forall k :: 0 <= k < |name| ==> name[k] == b[o + HEADER + k];
    if Matches(b, o, q) {
      MemEqualIs(b, o + HEADER, mem, 0, n);
    }
    if MemEqual(b, o + HEADER, mem, 0, n) {
      forall k | 0 <= k < n ensures o + HEADER + k < BLOCKSIZE && b[o + HEADER + k] == mem[k] {
        MemEqualAt(b, o + HEADER, mem, 0, n, k);
      }
      assert |q| > 0 ==> mem[|q| - 1] == q[|q| - 1];
    }
  }

  /** q continues the entry's name with just the bytes that follow it in the block. */
  predicate Shadows(b: Block, o: nat, q: seq<byte>)
    requires RecOk(b, o)
  {
    var name := RecAt(b, o).name;
    && name < q && o + HEADER + |q| <= BLOCKSIZE
    && b[o + HEADER + |name|..o + HEADER + |q|] == q[|name|..]
  }

  /** A record is taken for its own name and for the names it shadows. */
  lemma MatchesExtended(b: Block, o: nat, q: seq<byte>)
    requires RecOk(b, o)
    ensures Matches(b, o, q) <==> RecAt(b, o).name == q || Shadows(b, o, q)
  {
    LenFacts(b, o);
    var name := RecAt(b, o).name;
    assert forall k :: 0 <= k < |name| ==> name[k] == b[o + HEADER + k];
    if name <= q && o + HEADER + |q| <= BLOCKSIZE {
      var more := b[o + HEADER + |name|..o + HEADER + |q|];
      assert forall k :: |name| <= k < |q| ==> more[k - |name|] == b[o + HEADER + k] && q[|name|..][k - |name|] == q[k];
      if Matches(b, o, q) { assert more == q[|name|..]; }
    }
  }

  /** The comparison is exact for every name looked up if and only if the byte behind the entry's
      name is 0 (or lies outside the block). */
  lemma MatchesExactly(b: Block, o: nat)
    requires RecOk(b, o)
    ensures var end := o + HEADER + NameLen(b, o);
            (forall q :: NulFree(q) ==> (Matches(b, o, q) <==> q == RecAt(b, o).name))
            <==> (end == BLOCKSIZE || b[end] == 0)
  {
    var end, name := o + HEADER + NameLen(b, o), RecAt(b, o).name;
    LenFacts(b, o);
    forall q | NulFree(q) && (end == BLOCKSIZE || b[end] == 0)
      ensures Matches(b, o, q) <==> q == name
    {
      MatchesExtended(b, o, q);
      if |name| < |q| && o + HEADER + |q| <= BLOCKSIZE {
        assert b[end..o + HEADER + |q|][0] == b[end];
        assert q[|name|..][0] == q[|name|] != 0;
      }
    }
    if end < BLOCKSIZE && b[end] != 0 {
      var q := name + [b[end]];
      assert Matches(b, o, q) by {
        assert forall k :: 0 <= k < |q| ==> b[o + HEADER + k] == q[k];
      }
      assert NulFree(q) && q != name;
    }
  }

  /** The index of the first record the comparison accepts, or -1. */
  ghost function FirstMatch(b: Block, o: nat, q: seq<byte>): int
    requires Chain(b, o)
    decreases BLOCKSIZE - o
  {
    if o == BLOCKSIZE then -1
    else if Matches(b, o, q) then 0
    else var r := FirstMatch(b, o + RecLen(b, o), q); if r < 0 then -1 else 1 + r
  }

  /** The index of the first record of that name, or -1. */
  function FirstNamed(s: seq<Rec>, q: seq<byte>): (r: int)
    ensures -1 <= r < |s|
    ensures r >= 0 ==> s[r].name == q
    ensures forall k :: 0 <= k < (if r < 0 then |s| else r) ==> s[k].name != q
  {
    if s == [] then -1
    else if s[0].name == q then 0
    else var r := FirstNamed(s[1..], q); if r < 0 then -1 else 1 + r
  }

  /** No record before the first one named q shadows q. */
  ghost predicate Clear(b: Block, o: nat, q: seq<byte>)
    requires Chain(b, o)
    decreases BLOCKSIZE - o
  {
    o == BLOCKSIZE || RecAt(b, o).name == q || (!Shadows(b, o, q) && Clear(b, o + RecLen(b, o), q))
  }

  /** The byte comparison finds the first record of that name if and only if none before it shadows it. */
  lemma {:induction false} FirstMatchExact(b: Block, o: nat, q: seq<byte>)
    requires Chain(b, o)
    ensures FirstMatch(b, o, q) == FirstNamed(Recs(b, o), q) <==> Clear(b, o, q)
    ensures FirstMatch(b, o, q) >= -1
    decreases BLOCKSIZE - o
  {
    hide RecAt;
    hide RecOk;
    hide Matches;
    hide Shadows;
    hide FirstNamed;
    if o != BLOCKSIZE {
      MatchesExtended(b, o, q);
      LenFacts(b, o);
      FirstNamedStep(RecAt(b, o), Recs(b, o + RecLen(b, o)), q);
      FirstMatchExact(b, o + RecLen(b, o), q);
    } else {
      FirstNamedNone(q);
    }
  }

  lemma FirstNamedStep(r: Rec, t: seq<Rec>, q: seq<byte>)
    ensures FirstNamed([r] + t, q)
            == if r.name == q then 0 else if FirstNamed(t, q) < 0 then -1 else 1 + FirstNamed(t, q)
  {
    assert ([r] + t)[1..] == t;
  }

  lemma FirstNamedNone(q: seq<byte>)
    ensures FirstNamed([], q) == -1
  {
  }

  /** The one byte behind the name tells q apart: the next character of q is another one, or the block ends. */
  predicate Stops(b: Block, o: nat, q: seq<byte>)
    requires RecOk(b, o)
  {
    var name := RecAt(b, o).name;
    name < q ==> o + HEADER + |name| == BLOCKSIZE || b[o + HEADER + |name|] != q[|name|]
  }

  ghost predicate AllStop(b: Block, o: nat, q: seq<byte>)
    requires Chain(b, o)
    decreases BLOCKSIZE - o
  {
    o == BLOCKSIZE || (Stops(b, o, q) && AllStop(b, o + RecLen(b, o), q))
  }

  lemma StopsShadow(b: Block, o: nat, q: seq<byte>)
    requires RecOk(b, o) && Stops(b, o, q)
    ensures !Shadows(b, o, q)
  {
    LenFacts(b, o);
    var name := RecAt(b, o).name;
    if name < q && o + HEADER + |q| <= BLOCKSIZE {
      assert b[o + HEADER + |name|..o + HEADER + |q|][0] == b[o + HEADER + |name|];
      assert q[|name|..][0] == q[|name|];
    }
  }

  lemma {:induction false} AllStopClear(b: Block, o: nat, q: seq<byte>)
    requires Chain(b, o) && AllStop(b, o, q)
    ensures Clear(b, o, q)
    decreases BLOCKSIZE - o
  {
    hide RecAt;
    hide RecOk;
    hide Stops;
    hide Shadows;
    if o != BLOCKSIZE {
      LenFacts(b, o);
      StopsShadow(b, o, q);
      AllStopClear(b, o + RecLen(b, o), q);
    }
  }

  /** A 0 behind a name stops every name that is looked up. */
  lemma ZeroStops(b: Block, o: nat, q: seq<byte>)
    requires RecOk(b, o) && NulFree(q)
    requires o + HEADER + NameLen(b, o) as int == BLOCKSIZE || b[o + HEADER + NameLen(b, o) as int] == 0
    ensures Stops(b, o, q)
  {
    LenFacts(b, o);
  }

  /** The offset of the last record. */
  ghost function LastAt(b: Block, o: nat): (l: nat)
    requires Chain(b, o) && o < BLOCKSIZE
    ensures Reach(b, o, l) && RecOk(b, l) && l + RecLen(b, l) == BLOCKSIZE
    decreases BLOCKSIZE - o
  {
    if o + RecLen(b, o) == BLOCKSIZE then o else LastAt(b, o + RecLen(b, o))
  }

  lemma {:induction false} LastIs(b: Block, o: nat, l: nat)
    requires Chain(b, o) && o < BLOCKSIZE && Reach(b, o, l) && RecOk(b, l) && l + RecLen(b, l) == BLOCKSIZE
    ensures LastAt(b, o) == l
    decreases BLOCKSIZE - o
  {
    hide RecAt;
    LenFacts(b, l);
    LenFacts(b, o);
    if o < l {
      ReachBound(b, o + RecLen(b, o), l);
      LastIs(b, o + RecLen(b, o), l);
    }
  }

  /** Where a new record starts when the last one is split. */
  function NewAt(b: Block, l: nat): nat
    requires RecOk(b, l)
  {
    l + Ideal(NameLen(b, l))
  }

  /** Two bytes decide whether a split keeps names told apart from q: the low byte of the new inode number,
      which comes right behind a last name that fills its record, and the byte the new name ends before. */
  predicate SplitStops(b: Block, l: nat, ino: u32, name: seq<byte>, q: seq<byte>)
    requires RecOk(b, l)
  {
    && (RecAt(b, l).name < q && NameLen(b, l) as int % 4 == 0 ==> ino % 0x100 != q[|RecAt(b, l).name|])
    && (name < q ==>
          var e := NewAt(b, l) + HEADER + |name|;
          e >= BLOCKSIZE || b[e] != q[|name|])
  }

  lemma WithRecBytes(b: Block, m: nat, ino: u32, r: u16, name: seq<byte>, b': Block)
    requires |name| <= 255 && m + HEADER + |name| <= BLOCKSIZE && b' == WithRec(b, m, ino, r, name)
    ensures b'[m] as int == ino % 0x100 && SameBytes(b, b', 0, m) && SameBytes(b, b', m + HEADER + |name|, BLOCKSIZE)
  {
  }

  /** The bytes a split leaves alone, and the one behind a last name that fills its record. */
  lemma SplitBytes(b: Block, l: nat, ino: u32, name: seq<byte>, b': Block)
    requires RecOk(b, l) && |name| <= 255 && Ideal(NameLen(b, l)) + Ideal(|name|) <= RecLen(b, l)
    requires b' == SplitBlock(b, l, ino, name)
    ensures NewAt(b, l) + HEADER + |name| <= BLOCKSIZE
    ensures SameBytes(b, b', 0, l + 4) && SameBytes(b, b', l + 6, NewAt(b, l))
    ensures b'[NewAt(b, l)] as int == ino % 0x100 && SameBytes(b, b', NewAt(b, l) + HEADER + |name|, BLOCKSIZE)
  {
    hide WithRec;
    hide PutU16;
    hide RecAt;
    LenFacts(b, l);
    var b1 := PutU16(b, l + 4, Ideal(NameLen(b, l)));
    LenPut(b, l, Ideal(NameLen(b, l)), b1);
    WithRecBytes(b1, NewAt(b, l), ino, RecLen(b, l) - Ideal(NameLen(b, l)), name, b');
  }

  /** Names told apart up to l in b, and from l on in b'. */
  lemma {:induction false} AllStopTail(b: Block, b': Block, o: nat, l: nat, q: seq<byte>)
    requires Reach(b, o, l) && l < BLOCKSIZE && SameBytes(b, b', 0, l + 1)
    requires Chain(b, o) && AllStop(b, o, q) && Chain(b', l) && AllStop(b', l, q)
    ensures Chain(b', o) && AllStop(b', o, q)
    decreases BLOCKSIZE - o
  {
    hide RecAt;
    hide RecLen;
    hide NulFree;
    hide Stops;
    if o < l {
      LenFacts(b, o);
      ReachBound(b, o + RecLen(b, o), l);
      RecFrame(b, b', o);
      RecAtLen(b, o);
      RecAtLen(b', o);
      StopsFrame(b, b', o, q);
      AllStopTail(b, b', o + RecLen(b, o), l, q);
    }
  }

  lemma StopsFrame(b: Block, b': Block, o: nat, q: seq<byte>)
    requires RecOk(b, o) && RecOk(b', o) && RecAt(b', o) == RecAt(b, o) && Stops(b, o, q)
    requires var e := o + HEADER + NameLen(b, o) as int; e < BLOCKSIZE ==> b'[e] == b[e]
    ensures Stops(b', o, q)
  {
    LenFacts(b, o);
  }

  /** If every name is told apart from q before a split, and its two bytes are right, so it is afterwards. */
  lemma SplitKeepsStops(b: Block, l: nat, ino: u32, name: seq<byte>, q: seq<byte>, b': Block, ideal: nat, r: nat)
    requires IsLast(b, l) && |name| <= 255 && NulFree(name)
    requires ideal == Ideal(NameLen(b, l)) && r == RecLen(b, l) - ideal && Ideal(|name|) <= r < 0x1_0000
    requires b' == SplitBlock(b, l, ino, name) && SplitStops(b, l, ino, name, q)
    requires Chain(b, 0) && AllStop(b, 0, q)
    ensures Chain(b', 0) && AllStop(b', 0, q)
  {
    SplitRecs(b, l, ino, name, b', ideal, r);
    SplitBytes(b, l, ino, name, b');
    AllStopAt(b, 0, l, q);
    var m := l + ideal;
    RecAtLen(b', l);
    RecAtLen(b', m);
    LenFacts(b, l);
    SplitStop(b, l, ino, name, q, b', m);
    hide RecAt;
    hide RecOk;
    hide RecLen;
    hide Stops;
    hide SplitBlock;
    hide SplitStops;
    assert Chain(b', BLOCKSIZE) && AllStop(b', BLOCKSIZE, q);
    assert Chain(b', m) && AllStop(b', m, q);
    assert Chain(b', l) && AllStop(b', l, q);
    AllStopTail(b, b', 0, l, q);
  }

  lemma SplitStop(b: Block, l: nat, ino: u32, name: seq<byte>, q: seq<byte>, b': Block, m: nat)
    requires RecOk(b, l) && Stops(b, l, q) && SplitStops(b, l, ino, name, q) && m == NewAt(b, l)
    requires RecOk(b', l) && RecOk(b', m) && RecAt(b', l).name == RecAt(b, l).name && RecAt(b', m).name == name
    requires SameBytes(b, b', l + 6, m) && b'[m] as int == ino % 0x100
    requires m + HEADER + |name| <= BLOCKSIZE && SameBytes(b, b', m + HEADER + |name|, BLOCKSIZE)
    ensures Stops(b', l, q) && Stops(b', m, q)
  {
    hide U16At;
    hide U32At;
    hide NulFree;
    LenFacts(b, l);
    IdealFits(NameLen(b, l));
  }

  /** A record of its ideal length ends right behind its name, or up to three bytes later. */
  lemma IdealFits(n: nat)
    ensures HEADER + n <= Ideal(n) < HEADER + n + 4 && (Ideal(n) == HEADER + n <==> n % 4 == 0)
  {
  }

  lemma {:induction false} AllStopAt(b: Block, o: nat, l: nat, q: seq<byte>)
    requires Chain(b, o) && AllStop(b, o, q) && Reach(b, o, l) && RecOk(b, l)
    ensures Stops(b, l, q)
    decreases BLOCKSIZE - o
  {
    hide RecAt;
    hide RecLen;
    hide NulFree;
    hide Stops;
    if o < l {
      LenFacts(b, o);
      LenFacts(b, l);
      ReachBound(b, o + RecLen(b, o), l);
      AllStopAt(b, o + RecLen(b, o), l, q);
    }
  }

  /** In a new block the byte behind the one name is 0. */
  lemma OneStops(ino: u32, name: seq<byte>, q: seq<byte>)
    requires |name| <= 255 && NulFree(name) && NulFree(q)
    ensures var b := WithRec(Zeros(BLOCKSIZE), 0, ino, BLOCKSIZE, name); Chain(b, 0) && AllStop(b, 0, q)
  {
    hide WithRec;
    var b := WithRec(Zeros(BLOCKSIZE), 0, ino, BLOCKSIZE, name);
    OneRec(ino, name);
    WithRecOk(Zeros(BLOCKSIZE), 0, ino, BLOCKSIZE, name);
    WithRecBytes(Zeros(BLOCKSIZE), 0, ino, BLOCKSIZE, name, b);
    assert RecLen(b, 0) == BLOCKSIZE;
    ZeroStops(b, 0, q);
    assert AllStop(b, BLOCKSIZE, q);
  }

  /** file_type, which nothing reads. */
  lemma TypeAside(b: Block, o: nat, x: byte)
    requires RecOk(b, o)
    ensures RecOk(b[o + 7 := x], o) && RecAt(b[o + 7 := x], o) == RecAt(b, o)
  {
    var b' := b[o + 7 := x];
    assert b'[o + HEADER..o + HEADER + NameLen(b, o)] == b[o + HEADER..o + HEADER + NameLen(b, o)];
  }

  /** The block kmkdir writes: "." and "..", with 0 bytes behind both names. */
  function DotBlock(ino: u32, parent: u32): Block {
    var b := WithRec(Zeros(BLOCKSIZE), 0, ino, 12, [46])[7 := 2];
    WithRec(b, 12, parent, 2036, [46, 46])[19 := 2]
  }

  lemma DotBytes(ino: u32, parent: u32)
    ensures var b := DotBlock(ino, parent);
            && RecOk(b, 0) && RecAt(b, 0) == Rec(ino, 12, [46]) && b[9] == 0
            && RecOk(b, 12) && RecAt(b, 12) == Rec(parent, 2036, [46, 46]) && b[22] == 0
  {
    hide WithRec;
    hide RecAt;
    hide RecOk;
    var dot, dots: seq<byte> := [46], [46, 46];
    var b0 := WithRec(Zeros(BLOCKSIZE), 0, ino, 12, dot);
    var b1 := WithRec(b0[7 := 2], 12, parent, 2036, dots);
    WithRecOk(Zeros(BLOCKSIZE), 0, ino, 12, dot);
    TypeAside(b0, 0, 2);
    WithRecOk(b0[7 := 2], 12, parent, 2036, dots);
    TypeAside(b1, 12, 2);
    WithRecBytes(Zeros(BLOCKSIZE), 0, ino, 12, dot, b0);
    WithRecBytes(b0[7 := 2], 12, parent, 2036, dots, b1);
    LenFacts(b0[7 := 2], 0);
    RecAtName(b0[7 := 2], 0);
    RecFrame(b0[7 := 2], b1[19 := 2], 0);
  }

  /** In it every name is told apart from every name looked up: ".." is found although "." begins it. */
  lemma DotBlockClear(ino: u32, parent: u32, q: seq<byte>)
    requires NulFree(q)
    ensures var b := DotBlock(ino, parent);
            && Chain(b, 0) && Recs(b, 0) == [Rec(ino, 12, [46]), Rec(parent, 2036, [46, 46])]
            && AllStop(b, 0, q) && FirstMatch(b, 0, q) == FirstNamed(Recs(b, 0), q)
    ensures FirstMatch(DotBlock(ino, parent), 0, [46, 46]) == 1
  {
    var b, dot, dots := DotBlock(ino, parent), [46 as byte], [46 as byte, 46];
    DotBytes(ino, parent);
    hide DotBlock;
    hide RecAt;
    hide RecOk;
    hide AllStop;
    hide FirstMatch;
    LenFacts(b, 0);
    LenFacts(b, 12);
    RecAtName(b, 0);
    RecAtName(b, 12);
    RecAtLen(b, 0);
    RecAtLen(b, 12);
    LastAlone(b, 12);
    DotsFound(b, ino, parent, q);
    DotsFound(b, ino, parent, dots);
    var s := Recs(b, 0);
    assert s == [Rec(ino, 12, dot), Rec(parent, 2036, dots)];
    assert FirstNamed(s, dots) == 1;
  }

  lemma RecAtName(b: Block, o: nat)
    requires RecOk(b, o)
    ensures |RecAt(b, o).name| == NameLen(b, o) as int
  {
  }

  lemma DotsFound(b: Block, ino: u32, parent: u32, q: seq<byte>)
    requires NulFree(q) && RecOk(b, 0) && RecLen(b, 0) == 12 && NameLen(b, 0) == 1 && b[9] == 0
    requires RecOk(b, 12) && RecLen(b, 12) == 2036 && NameLen(b, 12) == 2 && b[22] == 0
    ensures Chain(b, 0) && AllStop(b, 0, q) && FirstMatch(b, 0, q) == FirstNamed(Recs(b, 0), q)
  {
    ZeroStops(b, 0, q);
    ZeroStops(b, 12, q);
    hide RecAt;
    hide RecOk;
    hide Stops;
    assert Chain(b, BLOCKSIZE) && AllStop(b, BLOCKSIZE, q);
    assert Chain(b, 12) && AllStop(b, 12, q);
    AllStopClear(b, 0, q);
    FirstMatchExact(b, 0, q);
  }

  /** "abcd" followed by a record whose inode number is 101, the code of 'e', is taken for "abcde". */
  lemma FalseMatch()
    ensures exists b: Block :: Chain(b, 0) && FirstNamed(Recs(b, 0), [97, 98, 99, 100, 101]) == -1
              && FirstMatch(b, 0, [97, 98, 99, 100, 101]) == 0
  {
    hide WithRec;
    hide U16At;
    hide U32At;
    var abcd, x: seq<byte> := [97, 98, 99, 100], [120];
    var b0 := WithRec(Zeros(BLOCKSIZE), 0, 11, 12, abcd);
    var b := WithRec(b0, 12, 101, 2036, x);
    WithRecOk(Zeros(BLOCKSIZE), 0, 11, 12, abcd);
    WithRecOk(b0, 12, 101, 2036, x);
    WithRecBytes(b0, 12, 101, 2036, x, b);
    RecFrame(b0, b, 0);
    RecAtLen(b, 0);
    LastAlone(b, 12);
    TakenFor(b, abcd, x);
  }

  lemma TakenFor(b: Block, abcd: seq<byte>, x: seq<byte>)
    requires RecOk(b, 0) && RecLen(b, 0) == 12 && RecAt(b, 0).name == abcd == [97, 98, 99, 100]
    requires Chain(b, 12) && RecOk(b, 12) && Recs(b, 12) == [RecAt(b, 12)] && RecAt(b, 12).name == x == [120] && b[12] == 101
    ensures Chain(b, 0) && FirstNamed(Recs(b, 0), [97, 98, 99, 100, 101]) == -1
    ensures FirstMatch(b, 0, [97, 98, 99, 100, 101]) == 0
  {
    var q: seq<byte> := [97, 98, 99, 100, 101];
    assert b[HEADER..HEADER + 4] == abcd;
    assert b[12..13] == q[4..];
    MatchesExtended(b, 0, q);
    hide RecOk;
    hide RecAt;
    hide Matches;
    hide FirstNamed;
    FirstNamedNone(q);
    FirstNamedStep(RecAt(b, 12), [], q);
    FirstNamedStep(RecAt(b, 0), [RecAt(b, 12)], q);
    assert [RecAt(b, 12)] + [] == [RecAt(b, 12)];
  }

  function TotalLen(s: seq<Rec>): nat {
    if s == [] then 0 else s[0].len + TotalLen(s[1..])
  }

  /** The records of a chain fill the block to its last byte, and each is aligned and long enough. */
  lemma {:induction false} ChainFills(b: Block, o: nat)
    requires Chain(b, o)
    ensures o + TotalLen(Recs(b, o)) == BLOCKSIZE
    ensures forall k :: 0 <= k < |Recs(b, o)| ==>
              Recs(b, o)[k].len % 4 == 0 && HEADER + |Recs(b, o)[k].name| <= Recs(b, o)[k].len
    decreases BLOCKSIZE - o
  {
    if o < BLOCKSIZE {
      LenFacts(b, o);
      var t := Recs(b, o + RecLen(b, o));
      ChainFills(b, o + RecLen(b, o));
      assert Recs(b, o)[1..] == t;
      RecAtLen(b, o);
    }
  }

  // ---------------------------------------------------------------------------------------------
  // The loops over a block

  /** The walk to the last record. */
  method LastEntry(b: Block) returns (last: nat)
    requires Chain(b, 0)
    ensures IsLast(b, last)
  {
    hide NulFree;
    hide Ideal;
    hide Reach;
    ReachSelf(b);
    hide U16At;
    hide RecAt;
    hide RecLen;
    var o := 0;
    last := 0;
    while o < BLOCKSIZE
      invariant o <= BLOCKSIZE && Reach(b, 0, o) && Chain(b, o)
      invariant o > 0 ==> Reach(b, 0, last) && RecOk(b, last) && last + RecLen(b, last) == o
      decreases BLOCKSIZE - o
    {
      LenFacts(b, o);
      ReachStep(b, 0, o);
      last := o;
      o := o + RecLen(b, o);
    }
  }

  lemma ReachSelf(b: Block)
    ensures Reach(b, 0, 0) && Upto(b, 0, 0) == []
  {
  }

  lemma MatchStep(b: Block, o: nat, q: seq<byte>)
    requires Chain(b, o) && o < BLOCKSIZE
    ensures RecOk(b, o) && Chain(b, o + RecLen(b, o))
    ensures var r := FirstMatch(b, o + RecLen(b, o), q);
            FirstMatch(b, o, q) == if Matches(b, o, q) then 0 else if r < 0 then -1 else 1 + r
  {
    hide RecOk;
    hide RecLen;
    hide Matches;
  }

  /** The walk to the first record whose name compares equal to q, and the record before it. */
  method ScanBlock(b: Block, q: seq<byte>) returns (found: bool, at: nat, prev: nat)
    requires Chain(b, 0)
    ensures found <==> FirstMatch(b, 0, q) >= 0
    ensures found ==> Reach(b, 0, at) && RecOk(b, at) && |Upto(b, 0, at)| == FirstMatch(b, 0, q)
    ensures found && at > 0 ==> Reach(b, 0, prev) && RecOk(b, prev) && prev + RecLen(b, prev) == at
  {
    hide NulFree;
    hide U16At;
    hide Ideal;
    hide RecAt;
    hide Matches;
    hide Reach;
    hide Upto;
    ReachSelf(b);
    at, prev := 0, 0;
    while at < BLOCKSIZE
      invariant at <= BLOCKSIZE && Reach(b, 0, at) && Chain(b, at)
      invariant at > 0 ==> Reach(b, 0, prev) && RecOk(b, prev) && prev + RecLen(b, prev) == at
      invariant FirstMatch(b, 0, q) == if FirstMatch(b, at, q) < 0 then -1 else |Upto(b, 0, at)| + FirstMatch(b, at, q)
      decreases BLOCKSIZE - at
    {
      MatchStep(b, at, q);
      if Matches(b, at, q) {
        return true, at, prev;
      }
      LenFacts(b, at);
      ReachStep(b, 0, at);
      prev := at;
      at := at + RecLen(b, at);
    }
    return false, at, prev;
  }
}
