/** A directory as its blocks: when the byte comparison finds what the names say, and that insertion keeps it so. */
module DirBytes {
  import opened Bytes
  import opened DirBlock
  import opened DirSpec

  ghost predicate Chains(s: seq<Block>) {
    forall k :: 0 <= k < |s| ==> Chain(s[k], 0)
  }

  /** The record lists of the blocks. */
  ghost function View(s: seq<Block>): (d: Dir)
    requires Chains(s)
    ensures |d| == |s| && NoEmptyBlock(d) && forall k :: 0 <= k < |s| ==> d[k] == Recs(s[k], 0)
  {
    seq(|s|, k requires 0 <= k < |s| => Recs(s[k], 0))
  }

  lemma {:induction false} FirstMatchRange(b: Block, o: nat, q: seq<byte>)
    requires Chain(b, o)
    ensures -1 <= FirstMatch(b, o, q) < |Recs(b, o)|
    decreases BLOCKSIZE - o
  {
    hide RecAt;
    hide Matches;
    if o < BLOCKSIZE {
      FirstMatchRange(b, o + RecLen(b, o), q);
    }
  }

  /** Where the byte comparison first succeeds, from block k on. */
  ghost function FindIn(s: seq<Block>, q: seq<byte>, k: nat): (p: Place)
    requires Chains(s) && k <= |s|
    ensures p.At? ==> k <= p.block < |s| && p.rec < |View(s)[p.block]| && FirstMatch(s[p.block], 0, q) == p.rec
    decreases |s| - k
  {
    if k == |s| then Nowhere
    else
      FirstMatchRange(s[k], 0, q);
      if FirstMatch(s[k], 0, q) >= 0 then At(k, FirstMatch(s[k], 0, q)) else FindIn(s, q, k + 1)
  }

  /** From block k on, no record before the first one named q shadows q. */
  ghost predicate Unshadowed(s: seq<Block>, q: seq<byte>, k: nat)
    requires Chains(s) && k <= |s|
    decreases |s| - k
  {
    k == |s| || (Clear(s[k], 0, q) && (FirstNamed(Recs(s[k], 0), q) >= 0 || Unshadowed(s, q, k + 1)))
  }

  /** The byte comparison finds the first record of that name, or its absence, if and only if no earlier
      record shadows it. */
  lemma {:induction false} FindInExact(s: seq<Block>, q: seq<byte>, k: nat)
    requires Chains(s) && k <= |s| && forall j :: 0 <= j < k ==> FirstNamed(View(s)[j], q) == -1
    ensures FindIn(s, q, k) == Find(View(s), q) <==> Unshadowed(s, q, k)
    decreases |s| - k
  {
    hide Find;
    hide Chain;
    hide Recs;
    hide FirstMatch;
    hide FirstNamed;
    hide Clear;
    hide View;
    var d := View(s);
    if k == |s| {
      FindNot(d, q);
    } else {
      FirstMatchExact(s[k], 0, q);
      if FirstNamed(d[k], q) >= 0 {
        FindIs(d, q, k, FirstNamed(d[k], q));
      } else {
        FindInExact(s, q, k + 1);
      }
    }
  }

  /** Every name is told apart from q by the byte behind it. */
  ghost predicate AllStops(s: seq<Block>, q: seq<byte>)
    requires Chains(s)
  {
    forall k :: 0 <= k < |s| ==> AllStop(s[k], 0, q)
  }

  lemma {:induction false} StopsUnshadowed(s: seq<Block>, q: seq<byte>, k: nat)
    requires Chains(s) && k <= |s| && AllStops(s, q)
    ensures Unshadowed(s, q, k)
    decreases |s| - k
  {
    hide Chain;
    hide Recs;
    hide AllStop;
    hide Clear;
    hide FirstNamed;
    if k < |s| {
      AllStopClear(s[k], 0, q);
      StopsUnshadowed(s, q, k + 1);
    }
  }

  /** The blocks after insert_child has put a record into block i, or into a new one behind the others. */
  ghost function PutRecord(s: seq<Block>, i: nat, ino: u32, name: seq<byte>): (r: seq<Block>)
    requires Chains(s) && i <= |s| && |name| <= 255 && NulFree(name)
    ensures Chains(r)
  {
    if i < |s| && HasRoom(s[i], Ideal(|name|)) then
      SplitView(s[i], ino, name);
      s[i := SplitBlock(s[i], LastAt(s[i], 0), ino, name)]
    else
      OneRec(ino, name);
      s + [WithRec(Zeros(BLOCKSIZE), 0, ino, BLOCKLEN, name)]
  }

  /** The blocks after insert_child: the record goes into the first block with room for it. */
  ghost function WithChild(s: seq<Block>, ino: u32, name: seq<byte>): (r: seq<Block>)
    requires Chains(s) && |name| <= 255 && NulFree(name)
    ensures Chains(r)
  {
    PutRecord(s, Room(View(s), Ideal(|name|)), ino, name)
  }

  lemma RoomAt(s: seq<Block>, need: nat, i: nat)
    requires Chains(s) && i <= |s| && (i < |s| ==> HasRoom(s[i], need))
    requires forall k :: 0 <= k < i ==> !HasRoom(s[k], need)
    ensures Room(View(s), need) == i
  {
    hide HasRoom;
    hide Chain;
    hide Recs;
    hide Room;
    forall k | 0 <= k <= i && k < |s| ensures HasRoom(s[k], need) <==> need <= Slack(Last(View(s)[k])) {
      RoomMeans(s[k], need);
    }
    var d, r := View(s), Room(View(s), need);
    assert r == |d| || need <= Slack(Last(d[r]));
  }

  /** On the records that is the insertion of DirSpec. */
  lemma ChildView(s: seq<Block>, ino: u32, name: seq<byte>)
    requires Chains(s) && |name| <= 255 && NulFree(name)
    ensures View(WithChild(s, ino, name)) == Inserted(View(s), ino, name)
  {
    hide Room;
    hide HasRoom;
    hide Chain;
    hide Recs;
    hide Split;
    hide WithRec;
    hide SplitBlock;
    var d := View(s);
    var i := Room(d, Ideal(|name|));
    if i < |s| {
      RoomMeans(s[i], Ideal(|name|));
      SplitView(s[i], ino, name);
    } else {
      OneRec(ino, name);
    }
  }

  /** The two bytes that decide whether putting the record keeps every name told apart from q. */
  ghost predicate PutStops(s: seq<Block>, i: nat, ino: u32, name: seq<byte>, q: seq<byte>)
    requires Chains(s)
  {
    i < |s| ==> SplitStops(s[i], LastAt(s[i], 0), ino, name, q)
  }

  lemma PutKeepsStops(s: seq<Block>, i: nat, ino: u32, name: seq<byte>, q: seq<byte>)
    requires Chains(s) && i <= |s| && |name| <= 255 && NulFree(name) && NulFree(q)
    requires AllStops(s, q) && PutStops(s, i, ino, name, q)
    ensures AllStops(PutRecord(s, i, ino, name), q)
  {
    hide Chain;
    hide Reach;
    hide AllStop;
    hide RecOk;
    hide RecLen;
    hide SplitStops;
    hide SplitBlock;
    hide WithRec;
    hide NulFree;
    if i < |s| && HasRoom(s[i], Ideal(|name|)) {
      var b := s[i];
      var l := LastAt(b, 0);
      LenFacts(b, l);
      SplitKeepsStops(b, l, ino, name, q, SplitBlock(b, l, ino, name), Ideal(NameLen(b, l)), RecLen(b, l) - Ideal(NameLen(b, l)));
    } else {
      OneStops(ino, name, q);
    }
  }

  /** After an insertion the byte comparison is exact for q if every name was told apart from q before and
      the two bytes are right. */
  lemma ChildUnshadowed(s: seq<Block>, ino: u32, name: seq<byte>, q: seq<byte>)
    requires Chains(s) && |name| <= 255 && NulFree(name) && NulFree(q) && AllStops(s, q)
    requires PutStops(s, Room(View(s), Ideal(|name|)), ino, name, q)
    ensures Unshadowed(s, q, 0) && Unshadowed(WithChild(s, ino, name), q, 0)
  {
    hide AllStops;
    hide PutStops;
    hide Unshadowed;
    hide PutRecord;
    hide Room;
    StopsUnshadowed(s, q, 0);
    PutKeepsStops(s, Room(View(s), Ideal(|name|)), ino, name, q);
    StopsUnshadowed(WithChild(s, ino, name), q, 0);
  }
}
