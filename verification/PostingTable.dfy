/**
 The `blocked_term_postings` table: data rows keyed by (term, block number), one header row per
 term, and the superblock row. Keys pack the term above the block number, so all rows of a term are
 contiguous and its header row comes last.
 */
module PostingTable {
  import opened Settings
  import opened Quantizer

  /** Document id reserved as the iterator's end marker. */
  const EXHAUSTED: nat := TWO_32 - 1
  /** Documents per block; the offset of a document in its block is a 16-bit number. */
  const BLOCK_CAPACITY: nat := TWO_16 - 1
  const METADATA_TERM: nat := TWO_32 - 1
  const METADATA_BLOCK: nat := TWO_32 - 1

  function PackKey(term: nat, block: nat): nat { term * TWO_32 + block }
  function UnpackTerm(key: nat): nat { key / TWO_32 }
  function UnpackBlock(key: nat): nat { key % TWO_32 }

  function DocToBlock(doc: nat): nat { doc / BLOCK_CAPACITY }
  function DocToOffset(doc: nat): nat { doc % BLOCK_CAPACITY }
  function BlockOffsetToDoc(block: nat, offset: nat): nat { block * BLOCK_CAPACITY + offset }

  datatype Posting = Posting(doc: nat, value: real)

  /** One data row: a block header and the parallel arrays of offsets and (decoded) weights. */
  datatype Block = Block(offsets: seq<nat>, values: seq<real>, live: nat, max: real)

  datatype Header = Header(entries: nat, live: nat, max: real)

  datatype Row = SuperRow(version: nat) | HeaderRow(header: Header) | BlockRow(block: Block)

  type Table = map<nat, Row>

  /** Packing orders keys by term and then by block number, and unpacking inverts it. */
  lemma PackOrder(t: nat, b: nat, u: nat, c: nat)
    requires b < TWO_32 && c < TWO_32
    ensures PackKey(t, b) < PackKey(u, c) <==> t < u || (t == u && b < c)
    ensures PackKey(t, b) == PackKey(u, c) <==> t == u && b == c
    ensures UnpackTerm(PackKey(t, b)) == t && UnpackBlock(PackKey(t, b)) == b
  {
    if t < u {
      assert u >= t + 1;
    } else if u < t {
      assert t >= u + 1;
    }
  }

  lemma UnpackPack(key: nat)
    ensures PackKey(UnpackTerm(key), UnpackBlock(key)) == key
    ensures UnpackBlock(key) < TWO_32
  {
  }

  /** A document is found again from its block number and its offset. */
  lemma DocOfBlock(doc: nat)
    ensures BlockOffsetToDoc(DocToBlock(doc), DocToOffset(doc)) == doc
    ensures DocToOffset(doc) < BLOCK_CAPACITY
    ensures doc < TWO_32 ==> DocToBlock(doc) < METADATA_BLOCK
  {
  }

  lemma BlockOfDoc(block: nat, offset: nat)
    requires offset < BLOCK_CAPACITY
    ensures DocToBlock(BlockOffsetToDoc(block, offset)) == block
    ensures DocToOffset(BlockOffsetToDoc(block, offset)) == offset
  {
  }

  // ----- sequences of postings -----

  predicate Sorted(s: seq<Posting>) {
    forall i, j :: 0 <= i < j < |s| ==> s[i].doc < s[j].doc
  }

  /** The document-to-weight map a sequence of postings stands for. */
  ghost function ToMap(s: seq<Posting>): map<nat, real> {
    if s == [] then map[]
    else
      var rest := ToMap(s[..|s| - 1]);
      rest[s[|s| - 1].doc := s[|s| - 1].value]
  }

  lemma {:induction false} ToMapKeys(s: seq<Posting>)
    ensures forall d :: d in ToMap(s) ==> exists i :: 0 <= i < |s| && s[i].doc == d
    ensures forall i :: 0 <= i < |s| ==> s[i].doc in ToMap(s)
  {
    if s != [] {
      var rest := s[..|s| - 1];
      ToMapKeys(rest);
      forall d | d in ToMap(s)
        ensures exists i :: 0 <= i < |s| && s[i].doc == d
      {
        if d != s[|s| - 1].doc {
          assert d in ToMap(rest);
          var i :| 0 <= i < |rest| && rest[i].doc == d;
          assert s[i].doc == d;
        }
      }
    }
  }

  lemma {:induction false} ToMapAt(s: seq<Posting>, i: nat)
    requires Sorted(s) && i < |s|
    ensures s[i].doc in ToMap(s) && ToMap(s)[s[i].doc] == s[i].value
  {
    if i < |s| - 1 {
      ToMapAt(s[..|s| - 1], i);
    }
  }

  ghost function CountLive(values: seq<real>): (n: nat)
    ensures n <= |values|
    ensures n == 0 <==> forall i :: 0 <= i < |values| ==> values[i] <= 0.0
  {
    if values == [] then 0
    else CountLive(values[..|values| - 1]) + if values[|values| - 1] > 0.0 then 1 else 0
  }

  // ----- blocks -----

  predicate StrictlyIncreasing(s: seq<nat>) {
    forall i, j :: 0 <= i < j < |s| ==> s[i] < s[j]
  }

  /** Decoded entries of a block, with absolute document ids. */
  function Entries(b: nat, blk: Block): (s: seq<Posting>)
    requires |blk.offsets| == |blk.values|
    ensures |s| == |blk.offsets|
    ensures forall i :: 0 <= i < |s| ==> s[i] == Posting(BlockOffsetToDoc(b, blk.offsets[i]), blk.values[i])
  {
    seq(|blk.offsets|, i requires 0 <= i < |blk.offsets| =>
      Posting(BlockOffsetToDoc(b, blk.offsets[i]), blk.values[i]))
  }

  /**
   A well-formed data row: non-empty, strictly sorted, offsets in range, the header maximum above every
   weight and attained, the header's live count exact. In the byte build a maximum within NEAR_ZERO
   stores only tombstones, whatever the header counted.
   */
  ghost predicate BlockOk(build: Build, b: nat, blk: Block) {
    && 0 < |blk.offsets| == |blk.values| <= BLOCK_CAPACITY
    && StrictlyIncreasing(blk.offsets)
    && (forall i :: 0 <= i < |blk.offsets| ==>
          blk.offsets[i] < BLOCK_CAPACITY && BlockOffsetToDoc(b, blk.offsets[i]) < EXHAUSTED)
    && (forall i :: 0 <= i < |blk.values| ==> blk.values[i] <= blk.max)
    && 0.0 <= blk.max
    && blk.live <= |blk.offsets|
    && (blk.live == 0 <==> blk.max == 0.0)
    && if build.StoreBytes? && blk.max <= NEAR_ZERO then
         CountLive(blk.values) == 0
       else
         && blk.live == CountLive(blk.values)
         && (blk.max == 0.0 || blk.max in blk.values)
  }

  lemma EntriesSorted(build: Build, b: nat, blk: Block)
    requires BlockOk(build, b, blk)
    ensures Sorted(Entries(b, blk))
    ensures forall i :: 0 <= i < |blk.offsets| ==>
              DocToBlock(Entries(b, blk)[i].doc) == b && Entries(b, blk)[i].doc < EXHAUSTED
  {
    forall i | 0 <= i < |blk.offsets|
      ensures DocToBlock(Entries(b, blk)[i].doc) == b
    {
      BlockOfDoc(b, blk.offsets[i]);
    }
  }

  // ----- whole table -----

  ghost predicate RowOk(build: Build, key: nat, row: Row) {
    var t, b := UnpackTerm(key), UnpackBlock(key);
    && t <= METADATA_TERM
    && if t == METADATA_TERM then row.SuperRow? && b == 0
       else if b == METADATA_BLOCK then row.HeaderRow?
       else row.BlockRow? && BlockOk(build, b, row.block)
  }

  ghost predicate TableOk(build: Build, T: Table) {
    forall key :: key in T ==> RowOk(build, key, T[key])
  }

  predicate HasBlock(T: Table, t: nat, b: nat) {
    PackKey(t, b) in T && T[PackKey(t, b)].BlockRow?
  }

  function GetBlock(T: Table, t: nat, b: nat): Block
    requires HasBlock(T, t, b)
  {
    T[PackKey(t, b)].block
  }

  lemma BlockIsOk(build: Build, T: Table, t: nat, b: nat)
    requires TableOk(build, T) && t < METADATA_TERM && b < METADATA_BLOCK
    requires PackKey(t, b) in T
    ensures HasBlock(T, t, b) && BlockOk(build, b, GetBlock(T, t, b))
    ensures Sorted(Entries(b, GetBlock(T, t, b)))
  {
    PackOrder(t, b, t, b);
    assert RowOk(build, PackKey(t, b), T[PackKey(t, b)]);
    EntriesSorted(build, b, GetBlock(T, t, b));
  }

  /** What one posting list stores for document `d`: a weight, a tombstone, or nothing. */
  ghost function Lookup(build: Build, T: Table, t: nat, d: nat): Option<real>
    requires TableOk(build, T) && t < METADATA_TERM && d < EXHAUSTED
  {
    var b := DocToBlock(d);
    DocOfBlock(d);
    if PackKey(t, b) in T then
      BlockIsOk(build, T, t, b);
      var m := ToMap(Entries(b, GetBlock(T, t, b)));
      if d in m then Some(m[d]) else None
    else None
  }

  /** The live weight of document `d` in term `t`, zero when it is absent or deleted. */
  ghost function LiveWeight(build: Build, T: Table, t: nat, d: nat): (w: real)
    requires TableOk(build, T) && t < METADATA_TERM && d < EXHAUSTED
    ensures 0.0 <= w
  {
    var v := Lookup(build, T, t, d);
    if v.Some? && v.value > 0.0 then v.value else 0.0
  }

  // ----- one posting list, block after block -----

  ghost function BlockPostings(build: Build, T: Table, t: nat, b: nat): (s: seq<Posting>)
    requires TableOk(build, T) && t < METADATA_TERM && b < METADATA_BLOCK
    ensures Sorted(s)
    ensures forall i :: 0 <= i < |s| ==> DocToBlock(s[i].doc) == b && s[i].doc < EXHAUSTED
    ensures |s| == 0 <==> PackKey(t, b) !in T
  {
    if PackKey(t, b) in T then
      BlockIsOk(build, T, t, b);
      EntriesSorted(build, b, GetBlock(T, t, b));
      Entries(b, GetBlock(T, t, b))
    else []
  }

  /** All entries of term `t` in blocks `b` and later, in document order. */
  ghost function PostingsFrom(build: Build, T: Table, t: nat, b: nat): (s: seq<Posting>)
    requires TableOk(build, T) && t < METADATA_TERM
    ensures Sorted(s)
    ensures forall i :: 0 <= i < |s| ==> DocToBlock(s[i].doc) >= b && s[i].doc < EXHAUSTED
    decreases METADATA_BLOCK - b
  {
    if b >= METADATA_BLOCK then []
    else
      var here, later := BlockPostings(build, T, t, b), PostingsFrom(build, T, t, b + 1);
      assert forall i, j :: 0 <= i < |here| && 0 <= j < |later| ==> here[i].doc < later[j].doc by {
        BlocksApart();
      }
      here + later
  }

  lemma BlocksApart()
    ensures forall d, e :: DocToBlock(d) < DocToBlock(e) ==> d < e
  {
  }

  /** Blocks that are not stored contribute nothing. */
  lemma {:induction false} SkipMissing(build: Build, T: Table, t: nat, b: nat, c: nat)
    requires TableOk(build, T) && t < METADATA_TERM
    requires b <= c <= METADATA_BLOCK
    requires forall i :: b <= i < c ==> PackKey(t, i) !in T
    ensures PostingsFrom(build, T, t, b) == PostingsFrom(build, T, t, c)
    decreases c - b
  {
    if b < c {
      SkipMissing(build, T, t, b + 1, c);
      assert PackKey(t, b) !in T;
      assert BlockPostings(build, T, t, b) == [];
    }
  }

  /** Weight of document `d` among live postings of a sequence, zero if there is none. */
  ghost function ValueIn(s: seq<Posting>, d: nat): (w: real)
    ensures 0.0 <= w
    ensures w > 0.0 ==> exists i :: 0 <= i < |s| && s[i].doc == d && s[i].value == w
  {
    if s == [] then 0.0
    else if s[0].doc == d && s[0].value > 0.0 then s[0].value
    else
      var w := ValueIn(s[1..], d);
      assert w > 0.0 ==> exists i :: 0 <= i < |s[1..]| && s[1..][i].doc == d && s[1..][i].value == w;
      assert forall i :: 0 <= i < |s[1..]| ==> s[1..][i] == s[i + 1];
      w
  }

  lemma {:induction false} ValueInConcat(a: seq<Posting>, b: seq<Posting>, d: nat)
    ensures ValueIn(a + b, d) == if ValueIn(a, d) > 0.0 then ValueIn(a, d) else ValueIn(b, d)
  {
    if a == [] {
      assert a + b == b;
    } else {
      assert (a + b)[1..] == a[1..] + b;
      ValueInConcat(a[1..], b, d);
    }
  }

  lemma ValueInAt(s: seq<Posting>, i: nat)
    requires Sorted(s) && i < |s|
    ensures ValueIn(s, s[i].doc) == if s[i].value > 0.0 then s[i].value else 0.0
  {
    var d := s[i].doc;
    if s[i].value > 0.0 {
      assert s == s[..i] + s[i..];
      ValueInConcat(s[..i], s[i..], d);
      NotIn(s[..i], d);
    } else {
      forall j | 0 <= j < |s| && s[j].doc == d
        ensures j == i
      {
      }
    }
  }

  lemma NotIn(s: seq<Posting>, d: nat)
    requires forall i :: 0 <= i < |s| ==> s[i].doc != d || s[i].value <= 0.0
    ensures ValueIn(s, d) == 0.0
  {
  }
}
