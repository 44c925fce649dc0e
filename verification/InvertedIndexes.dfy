/** The inverted index itself: the posting table and the in-memory term maxima, updated in place. */
module InvertedIndexes {
  import opened Settings
  import opened Quantizer
  import opened IntegerCursor
  import opened PostingTable
  import opened PostingHeaders
  import opened BlockMerge
  import opened BlockUpdate
  import opened TermUpdate
  import opened TermRemoval
  import opened BatchPivot
  import opened BatchEffect

  const ONDISK_VERSION: nat := 1

  function FreshTable(): Table {
    map[PackKey(METADATA_TERM, 0) := SuperRow(ONDISK_VERSION)]
  }

  lemma FreshTableOk(build: Build)
    ensures TableOk(build, FreshTable()) && HeadersOk(FreshTable()) && TermInfoOf(FreshTable()) == map[]
  {
    PackOrder(METADATA_TERM, 0, METADATA_TERM, 0);
    forall t | 0 <= t < METADATA_TERM
      ensures HeaderOk(FreshTable(), t)
    {
      NoRowsOk(FreshTable(), t);
    }
    forall u: nat
      ensures u !in TermInfoOf(FreshTable())
    {
    }
  }

  lemma NoRowsOk(T: Table, t: nat)
    requires T == FreshTable() && t < METADATA_TERM
    ensures HeaderOk(T, t)
  {
    forall b | 0 <= b <= METADATA_BLOCK
      ensures PackKey(t, b) !in T
    {
      PackOrder(t, b, METADATA_TERM, 0);
    }
    SumFrame(T, map[], t, 0, false);
    SumFrame(T, map[], t, 0, true);
    EmptySum(t, 0, false);
    EmptySum(t, 0, true);
  }

  class InvertedIndex {
    const build: Build
    var table: Table
    var termInfo: map<nat, real>

    /** Every row is well formed, every header summarises its blocks, and the maxima match the headers. */
    ghost predicate Valid()
      reads this
    {
      TableOk(build, table) && HeadersOk(table) && termInfo == TermInfoOf(table)
    }

    /** A fresh database: only the superblock. */
    constructor (build: Build)
      ensures this.build == build && Valid()
      ensures table == FreshTable()
    {
      hide FreshTable, TableOk, HeadersOk, TermInfoOf;
      this.build := build;
      table := FreshTable();
      termInfo := map[];
      FreshTableOk(build);
    }

    /** Rebuilds the in-memory maxima from the header rows, visiting every row in key order. */
    method LoadTermInfo()
      requires TableOk(build, table)
      modifies this`termInfo
      ensures termInfo == TermInfoOf(table)
    {
      hide *;
      termInfo := map[];
      var cursor := SetRange(table.Keys, 0);
      NothingBelow(table, cursor);
      while cursor.Some?
        invariant cursor.Some? ==> cursor.value in table
        invariant cursor.None? ==> RowsBelow(table, cursor) == table
        invariant termInfo == TermInfoOf(RowsBelow(table, cursor))
        decreases if cursor.Some? then TWO_32 * TWO_32 - cursor.value else 0
      {
        var key := cursor.value;
        RowShape(build, table, key);
        var term, block := UnpackTerm(key), UnpackBlock(key);
        if term != METADATA_TERM && block == METADATA_BLOCK {
          var header := table[key].header;
          if header.live > 0 && header.max > NEAR_ZERO {
            termInfo := termInfo[term := header.max];
          }
        }
        assert CountsAsTerm(key, table[key]) ==
               (term != METADATA_TERM && block == METADATA_BLOCK && table[key].header.live > 0 && table[key].header.max > NEAR_ZERO)
          by { CountsAsTermIs(key, table[key]); }
        var next := SetRange(table.Keys, key + 1);
        PassRow(table, key, next);
        TermInfoRow(RowsBelow(table, cursor), key, table[key]);
        cursor := next;
      }
    }

    /** Decoded entries of a block together with its header; a missing block reads as empty. */
    method LoadBlockEntries(term: nat, block: nat)
      returns (ok: bool, entries: seq<Posting>, live: nat, max: real, found: bool)
      requires TableOk(build, table) && term <= METADATA_TERM && block <= METADATA_BLOCK
      ensures ok <==> term != METADATA_TERM && block != METADATA_BLOCK
      ensures ok ==> entries == BlockPostings(build, table, term, block)
      ensures ok ==> live == BlockCount(table, term, block, true) && max == BlockMax(table, term, block)
      ensures ok ==> found == HasBlock(table, term, block) && |entries| == BlockCount(table, term, block, false)
    {
      ok, entries, live, max, found := false, [], 0, 0.0, false;
      if term == METADATA_TERM || block == METADATA_BLOCK {
        return;
      }
      ok := true;
      var key := PackKey(term, block);
      if key in table {
        BlockIsOk(build, table, term, block);
        var row := table[key].block;
        entries, live, max, found := Entries(block, row), row.live, row.max, true;
      }
    }

    /** Writes a block after checking that every entry belongs to it and that offsets strictly increase. */
    method SaveBlockEntries(term: nat, block: nat, entries: seq<Posting>, live: nat, max: real) returns (ok: bool)
      modifies this`table
      ensures ok <==> CanSave(term, block, entries)
      ensures table == if !ok then old(table)
                       else PutBlock(old(table), term, block,
                                     if entries == [] then None else Some(MakeBlock(build, entries, live % TWO_16, max)))
    {
      if term == METADATA_TERM || block == METADATA_BLOCK {
        return false;
      }
      if entries == [] {
        table := table - {PackKey(term, block)};
        return true;
      }
      if |entries| > BLOCK_CAPACITY {
        return false;
      }
      for i := 0 to |entries|
        invariant forall j :: 0 <= j < i ==> DocToBlock(entries[j].doc) == block
        invariant forall j, k :: 0 <= j < k < i ==> DocToOffset(entries[j].doc) < DocToOffset(entries[k].doc)
      {
        if DocToBlock(entries[i].doc) != block {
          return false;
        }
        if i > 0 && DocToOffset(entries[i].doc) <= DocToOffset(entries[i - 1].doc) {
          return false;
        }
      }
      table := table[PackKey(term, block) := BlockRow(MakeBlock(build, entries, live % TWO_16, max))];
      return true;
    }

    /** Greatest block maximum of a term, found by walking its block rows. */
    method RecomputeGlobalMax(term: nat) returns (m: real)
      requires TableOk(build, table) && term < METADATA_TERM
      ensures 0.0 <= m && MaxBounds(table, term, m) && MaxTight(table, term, m)
    {
      m := 0.0;
      var cursor := SetRange(table.Keys, PackKey(term, 0));
      while cursor.Some?
        invariant cursor.Some? ==> cursor.value in table && PackKey(term, 0) <= cursor.value
        invariant 0.0 <= m
        invariant forall b ::
                    0 <= b < METADATA_BLOCK && HasBlock(table, term, b) && (cursor.Some? ==> PackKey(term, b) < cursor.value)
                    ==> GetBlock(table, term, b).max <= m
        invariant m == 0.0 || exists b :: 0 <= b < METADATA_BLOCK && HasBlock(table, term, b) && m == GetBlock(table, term, b).max
        decreases if cursor.Some? then TWO_32 * TWO_32 - cursor.value else 0
      {
        var key := cursor.value;
        assert RowOk(build, key, table[key]);
        var keyTerm, block := UnpackTerm(key), UnpackBlock(key);
        UnpackPack(key);
        if keyTerm != term || block == METADATA_BLOCK {
          EndOfTerm(table, term, key);
          break;
        }
        assert HasBlock(table, term, block);
        if table[key].block.max > m {
          m := table[key].block.max;
        }
        cursor := SetRange(table.Keys, key + 1);
        forall b | 0 <= b < METADATA_BLOCK && HasBlock(table, term, b) && (cursor.Some? ==> PackKey(term, b) < cursor.value)
          ensures PackKey(term, b) < key || b == block
        {
          PackOrder(term, b, term, block);
        }
      }
    }

    /** Merges the updates of one block into its row. */
    method MergeIntoBlock(term: nat, block: nat, updates: seq<Posting>)
      returns (ok: bool, total: nat, live: nat, max: real,
               oldTotal: nat, oldLive: nat, oldMax: real, ghost blk: Block)
      requires TableOk(build, table) && term < METADATA_TERM && block < METADATA_BLOCK
      requires Updates(updates) && updates != []
      requires forall i :: 0 <= i < |updates| ==> DocToBlock(updates[i].doc) == block
      modifies this`table
      ensures ok && BlockOk(build, block, blk)
      ensures table == PutBlock(old(table), term, block, Some(blk))
      ensures SavedAs(build, ToMap(Entries(block, blk)), BlockMap(build, old(table), term, block) + ToMap(updates), blk.max)
      ensures total == |blk.offsets| && live == blk.live && max == blk.max
      ensures oldTotal == BlockCount(old(table), term, block, false)
      ensures oldLive == BlockCount(old(table), term, block, true)
      ensures oldMax == BlockMax(old(table), term, block)
    {
      hide *;
      var existing, found;
      ok, existing, oldLive, oldMax, found := LoadBlockEntries(term, block);
      ExistingSorted(build, table, term, block, updates);
      var merged := Merge(existing, updates);
      MergedInBlock(build, table, term, block, updates, merged);
      live, max := BlockStats(merged);
      oldTotal, total := |existing|, |merged|;
      blk := MakeBlock(build, merged, live, max);
      MergedBlock(build, term, block, merged, live, max);
      ok := SaveBlockEntries(term, block, merged, live, max);
    }

    /** Drops the term from the in-memory maxima, or records its maximum. */
    method RefreshTermInfo(term: nat, header: Header)
      modifies this`termInfo
      ensures termInfo == if header.live > 0 && header.max > NEAR_ZERO then old(termInfo)[term := header.max]
                          else old(termInfo) - {term}
    {
      if header.live > 0 && header.max > NEAR_ZERO {
        termInfo := termInfo[term := header.max];
      } else {
        termInfo := termInfo - {term};
      }
    }

    /** Writes the header of a term after its blocks changed, recomputing the maximum when it may have dropped. */
    method FinishTerm(term: nat, header0: Header, due: bool, ghost T0: Table)
      requires TableOk(build, T0) && HeadersOk(T0) && TableOk(build, table) && termInfo == TermInfoOf(T0)
      requires term < METADATA_TERM && SameTerms(T0, table, term)
      requires Tracks(table, term, header0) && (due || MaxTight(table, term, header0.max))
      modifies this
      ensures TableOk(build, table) && HeadersOk(table) && termInfo == TermInfoOf(table)
      ensures SameTerms(T0, table, term)
      ensures forall b :: 0 <= b < METADATA_BLOCK ==> SameBlock(old(table), table, term, b)
    {
      hide *;
      var header := header0;
      if header.entries == 0 {
        table := PutHeader(table, term, None);
        termInfo := termInfo - {term};
        EmptyTermOk(build, T0, old(table), term, header);
        return;
      }
      if due {
        var m := RecomputeGlobalMax(term);
        header := Header(header.entries, header.live, m);
      }
      if header.live == 0 {
        header := Header(header.entries, header.live, 0.0);
      }
      table := PutHeader(table, term, Some(header));
      RefreshTermInfo(term, header);
      WrittenTermOk(build, T0, old(table), term, header0, due, header);
    }

    /** Merges a term's sorted, de-duplicated updates into its posting list and refreshes its header. */
    method AddTermUpdates(term: nat, deduped: seq<Posting>) returns (ok: bool)
      requires TableOk(build, table) && HeadersOk(table) && termInfo == TermInfoOf(table)
      requires term < METADATA_TERM && Updates(deduped)
      modifies this
      ensures ok && TableOk(build, table) && HeadersOk(table) && termInfo == TermInfoOf(table)
      ensures SameTerms(old(table), table, term)
      ensures TermUpdated(build, old(table), table, term, ToMap(deduped))
    {
      hide *;
      ghost var T0 := table;
      var header := HeaderView(table, term);
      var oldGlobalMax, due := header.max, false;
      ghost var next := 0;
      HeaderAt(table, term);
      AddLoopStart(build, table, term, deduped);
      var ui := 0;
      while ui < |deduped|
        invariant ui <= |deduped| && termInfo == TermInfoOf(T0)
        invariant AddLoop(build, T0, table, term, deduped, ui, header, oldGlobalMax, due, next)
      {
        var block, begin := DocToBlock(deduped[ui].doc), ui;
        while ui < |deduped| && DocToBlock(deduped[ui].doc) == block
          invariant begin <= ui <= |deduped|
          invariant begin == ui ==> DocToBlock(deduped[ui].doc) == block
          invariant forall i :: begin <= i < ui ==> DocToBlock(deduped[i].doc) == block
        {
          ui := ui + 1;
        }
        ChunkFound(build, T0, table, term, deduped, begin, ui, header, oldGlobalMax, due, next, block);
        ghost var T := table;
        var total: int, live: int, oldTotal: int, oldLive: int;
        var max, oldMax;
        ghost var blk;
        ok, total, live, max, oldTotal, oldLive, oldMax, blk := MergeIntoBlock(term, block, deduped[begin..ui]);
        AddStep(build, T0, T, term, deduped, begin, ui, header, oldGlobalMax, due, next, block, blk);
        StepHeaderIs(T, term, block, blk, header);
        header := ApplyHeaderDelta(header, total - oldTotal, live - oldLive);
        if max > header.max {
          header := Header(header.entries, header.live, max);
        }
        due := due || MaxMayDrop(oldMax, oldGlobalMax, max);
        next := block + 1;
      }
      AddLoopEnd(build, T0, table, term, deduped, header, oldGlobalMax, due, next);
      ghost var T := table;
      FinishTerm(term, header, due, T0);
      TermUpdatedFrame(build, T0, T, table, term, ToMap(deduped));
      ok := true;
    }

    /** Adds a batch of documents, term by term in an unspecified order. */
    method AddDocumentsBatch(docs: seq<Doc>) returns (ok: bool, ghost picks: map<nat, map<nat, real>>)
      requires Valid() && DocsOk(docs)
      modifies this
      ensures Valid()
      ensures ok <==> forall i, j :: 0 <= i < |docs| && 0 <= j < |docs[i].vec.indices| ==> docs[i].vec.indices[j] != METADATA_TERM
      ensures !ok ==> table == old(table) && termInfo == old(termInfo)
      ensures ok ==> BatchApplied(build, old(table), table, docs, picks)
    {
      hide TableOk, HeadersOk, TermInfoOf, Pivoted, BatchLoop, BatchApplied, Picks, TermUpdated, SameTerms, Updates, Sorted;
      ghost var T0 := table;
      picks := map[];
      var m;
      ok, m := Pivot(docs);
      if !ok {
        return;
      }
      var todo := m.Keys;
      BatchStart(build, table, m);
      while todo != {}
        invariant TableOk(build, table) && HeadersOk(table) && termInfo == TermInfoOf(table)
        invariant todo <= m.Keys && BatchLoop(build, T0, table, m, todo, picks)
        decreases todo
      {
        var term :| term in todo;
        var deduped := SortAndDedup(m[term]);
        UpdatesInRange(docs, m, term, deduped);
        ghost var T := table;
        ok := AddTermUpdates(term, deduped);
        BatchStep(build, T0, T, table, m, todo, picks, term, ToMap(deduped));
        todo, picks := todo - {term}, picks[term := ToMap(deduped)];
      }
      BatchEnd(build, T0, table, m, picks, docs);
      ok := true;
    }

    /** Deletes one document from one posting list. */
    method RemoveFromTerm(term: nat, doc: nat)
      requires TableOk(build, table) && HeadersOk(table) && termInfo == TermInfoOf(table)
      requires term < METADATA_TERM && doc < EXHAUSTED
      modifies this
      ensures TableOk(build, table) && HeadersOk(table) && termInfo == TermInfoOf(table)
      ensures SameTerms(old(table), table, term) && Removed(build, old(table), table, term, doc)
    {
      hide *;
      ghost var T0 := table;
      NothingRemoved(build, table, term, doc);
      var header, block := HeaderView(table, term), DocToBlock(doc);
      DocInRange(doc);
      HeaderAt(table, term);
      if header.entries == 0 {
        EmptyList(build, table, term, block, doc);
        return;
      }
      var ok, entries, oldLive: int, oldMax, found := LoadBlockEntries(term, block);
      PostingsSorted(build, table, term, block);
      if !found || entries == [] {
        NotLive(build, table, term, doc, entries, 0);
        return;
      }
      var lo := LowerBound(entries, doc);
      NotLive(build, table, term, doc, entries, lo);
      if lo >= |entries| || entries[lo].doc != doc {
        return;
      }
      if entries[lo].value <= 0.0 {
        return;
      }
      var oldTotal: int := |entries|;
      var compact := Compacts(|entries|, if oldLive > 0 then oldLive - 1 else 0);
      var left := DeleteEntry(entries, lo, compact);
      LeftInBlock(build, table, term, block, left, doc);
      var live, max := BlockStats(left);
      var newTotal: int, newLive: int := |left|, live;
      SavedIsRemoved(build, table, term, block, doc, left, live, max);
      RemovalHeader(build, table, term, block, left, live, max, header);
      header := ApplyHeaderDelta(header, newTotal - oldTotal, newLive - oldLive);
      var due := MaxMayDrop(oldMax, header.max, max);
      ok := SaveBlockEntries(term, block, left, live, max);
      SavedBlockIs(build, left, live, max);
      ghost var T := table;
      PutBlockKeepsTable(build, T0, term, block, SavedBlock(build, left, live, max));
      FinishTerm(term, header, due, T0);
      RemovedFrame(build, T0, T, table, term, doc, block);
    }

    /** Deletes a document from every posting list its vector names. */
    method RemoveDocument(doc: nat, vec: SparseVector)
      requires Valid() && VectorOk(vec) && doc < EXHAUSTED
      modifies this
      ensures Valid()
      ensures AllRemoved(build, old(table), table, doc, vec.indices)
    {
      hide TableOk, HeadersOk, TermInfoOf, Removed, AllRemoved, SameTerms;
      AllRemovedStart(build, table, doc, vec.indices);
      for i := 0 to |vec.indices|
        invariant TableOk(build, table) && HeadersOk(table) && termInfo == TermInfoOf(table)
        invariant AllRemoved(build, old(table), table, doc, vec.indices[..i])
      {
        var term := vec.indices[i];
        ghost var T := table;
        assert vec.indices[..i + 1] == vec.indices[..i] + [term];
        if term == METADATA_TERM {
          AllRemovedSkip(build, old(table), T, doc, vec.indices[..i]);
          continue;
        }
        RemoveFromTerm(term, doc);
        AllRemovedStep(build, old(table), T, table, doc, vec.indices[..i], term);
      }
      assert vec.indices[..|vec.indices|] == vec.indices;
    }
  }

  lemma HeaderAt(T: Table, term: nat)
    requires HeadersOk(T) && term < METADATA_TERM
    ensures HeaderOk(T, term)
  {
  }

  lemma StepHeaderIs(T: Table, t: nat, b: nat, blk: Block, h: Header)
    ensures var h1 := ApplyHeaderDelta(h, |blk.offsets| - BlockCount(T, t, b, false), blk.live - BlockCount(T, t, b, true));
            StepHeader(T, t, b, blk, h) == if blk.max > h1.max then Header(h1.entries, h1.live, blk.max) else h1
  {
  }

  lemma ExistingSorted(build: Build, T: Table, term: nat, block: nat, updates: seq<Posting>)
    requires TableOk(build, T) && term < METADATA_TERM && block < METADATA_BLOCK && Updates(updates)
    ensures term <= METADATA_TERM && block <= METADATA_BLOCK && term != METADATA_TERM && block != METADATA_BLOCK
    ensures Sorted(BlockPostings(build, T, term, block)) && Sorted(updates)
  {
  }

  /** Merged entries stay in their block, so the checks of the save cannot fail. */
  lemma MergedInBlock(build: Build, T: Table, term: nat, block: nat, updates: seq<Posting>, merged: seq<Posting>)
    requires TableOk(build, T) && term < METADATA_TERM && block < METADATA_BLOCK
    requires Updates(updates) && updates != []
    requires forall i :: 0 <= i < |updates| ==> DocToBlock(updates[i].doc) == block
    requires Sorted(merged) && |merged| >= |updates|
    requires ToMap(merged) == ToMap(BlockPostings(build, T, term, block)) + ToMap(updates)
    ensures merged != [] && CanSave(term, block, merged)
    ensures forall i :: 0 <= i < |merged| ==> merged[i].doc < EXHAUSTED
    ensures ToMap(merged) == BlockMap(build, T, term, block) + ToMap(updates)
  {
    hide CanSave, TableOk, ToMap;
    var existing := BlockPostings(build, T, term, block);
    forall i | 0 <= i < |merged|
      ensures DocToBlock(merged[i].doc) == block && merged[i].doc < EXHAUSTED
    {
      ToMapKeys(merged);
      ToMapKeys(existing);
      ToMapKeys(updates);
    }
    SortedCanSave(term, block, merged);
  }

  lemma EmptyTermOk(build: Build, T0: Table, T: Table, term: nat, h: Header)
    requires TableOk(build, T0) && HeadersOk(T0) && TableOk(build, T)
    requires term < METADATA_TERM && SameTerms(T0, T, term)
    requires Tracks(T, term, h) && h.entries == 0
    ensures var T' := PutHeader(T, term, None);
            && TableOk(build, T') && HeadersOk(T') && SameTerms(T0, T', term)
            && TermInfoOf(T') == TermInfoOf(T0) - {term}
            && forall b :: 0 <= b < METADATA_BLOCK ==> SameBlock(T, T', term, b)
  {
    hide TableOk, HeaderOk, SumFrom, TermInfoOf, MaxBounds;
    var z := Header(0, 0, 0.0);
    LiveAtMostTotal(build, T, term, 0);
    NoLiveNoMax(build, T, term);
    WrittenHeader(build, T0, T, term, z);
  }

  lemma WrittenTermOk(build: Build, T0: Table, T: Table, term: nat, h0: Header, due: bool, h: Header)
    requires TableOk(build, T0) && HeadersOk(T0) && TableOk(build, T)
    requires term < METADATA_TERM && SameTerms(T0, T, term)
    requires Tracks(T, term, h0) && h0.entries > 0
    requires h.entries == h0.entries && h.live == h0.live
    requires h.max == 0.0 || !due || (MaxBounds(T, term, h.max) && MaxTight(T, term, h.max))
    requires (h.live == 0 ==> h.max == 0.0) && (h.live > 0 ==> !due ==> h.max == h0.max)
    requires h.live > 0 && due ==> MaxBounds(T, term, h.max) && MaxTight(T, term, h.max)
    requires due || MaxTight(T, term, h0.max)
    ensures var T' := PutHeader(T, term, Some(h));
            && TableOk(build, T') && HeadersOk(T') && SameTerms(T0, T', term)
            && TermInfoOf(T') == (if h.live > 0 && h.max > NEAR_ZERO then TermInfoOf(T0)[term := h.max] else TermInfoOf(T0) - {term})
            && forall b :: 0 <= b < METADATA_BLOCK ==> SameBlock(T, T', term, b)
  {
    hide TableOk, HeaderOk, SumFrom, TermInfoOf;
    if h.live == 0 {
      NoLiveNoMax(build, T, term);
    }
    WrittenHeader(build, T0, T, term, h);
  }

  lemma WrittenHeader(build: Build, T0: Table, T: Table, term: nat, h: Header)
    requires TableOk(build, T0) && HeadersOk(T0) && TableOk(build, T)
    requires term < METADATA_TERM && SameTerms(T0, T, term)
    requires Tracks(T, term, h) && MaxTight(T, term, h.max) && (h.live == 0 ==> h.max == 0.0)
    requires h.entries == 0 ==> h == Header(0, 0, 0.0)
    ensures var T' := PutHeader(T, term, if h.entries > 0 then Some(h) else None);
            && TableOk(build, T') && HeadersOk(T') && SameTerms(T0, T', term)
            && TermInfoOf(T') == (if h.live > 0 && h.max > NEAR_ZERO then TermInfoOf(T0)[term := h.max] else TermInfoOf(T0) - {term})
            && forall b :: 0 <= b < METADATA_BLOCK ==> SameBlock(T, T', term, b)
  {
    hide TableOk, HeaderOk, SumFrom, TermInfoOf, MaxBounds, MaxTight;
    var row := if h.entries > 0 then Some(h) else None;
    var T' := PutHeader(T, term, row);
    PutHeaderReads(build, T, term, row);
    PutHeaderOk(build, T, term, h);
    assert SameTerms(T0, T', term);
    TermInfoUpdate(T0, T', term);
    forall u | 0 <= u < METADATA_TERM
      ensures HeaderOk(T', u)
    {
      if u != term {
        HeaderFrame(T0, T', term, u);
      }
    }
    forall b | 0 <= b < METADATA_BLOCK
      ensures SameBlock(T, T', term, b)
    {
      PackOrder(term, b, term, METADATA_BLOCK);
    }
  }

  lemma {:induction false} EmptySum(t: nat, b: nat, live: bool)
    ensures SumFrom(map[], t, b, live) == 0
    decreases METADATA_BLOCK - b
  {
    if b < METADATA_BLOCK {
      EmptySum(t, b + 1, live);
    }
  }

  /** The rows a cursor walking in key order has already passed. */
  ghost function RowsBelow(T: Table, cursor: Option<nat>): Table {
    map k | k in T && (cursor.Some? ==> k < cursor.value) :: T[k]
  }

  lemma NothingBelow(T: Table, cursor: Option<nat>)
    requires cursor == SetRange(T.Keys, 0)
    ensures cursor.Some? ==> cursor.value in T
    ensures cursor.None? ==> RowsBelow(T, cursor) == T
    ensures TermInfoOf(RowsBelow(T, cursor)) == map[]
  {
    assert RowsBelow(T, cursor) == map[];
  }

  lemma RowShape(build: Build, T: Table, key: nat)
    requires TableOk(build, T) && key in T
    ensures key < TWO_32 * TWO_32
    ensures UnpackTerm(key) != METADATA_TERM && UnpackBlock(key) == METADATA_BLOCK ==> T[key].HeaderRow?
  {
    assert RowOk(build, key, T[key]);
  }

  lemma PassRow(T: Table, key: nat, next: Option<nat>)
    requires key in T && next == SetRange(T.Keys, key + 1)
    ensures next.Some? ==> next.value in T && key < next.value
    ensures next.None? ==> RowsBelow(T, next) == T
    ensures key !in RowsBelow(T, Some(key))
    ensures RowsBelow(T, next) == RowsBelow(T, Some(key))[key := T[key]]
  {
  }

  predicate CountsAsTerm(key: nat, row: Row) {
    && UnpackTerm(key) != METADATA_TERM && UnpackBlock(key) == METADATA_BLOCK
    && row.HeaderRow? && row.header.live > 0 && row.header.max > NEAR_ZERO
  }

  lemma CountsAsTermIs(key: nat, row: Row)
    ensures CountsAsTerm(key, row) <==>
              UnpackTerm(key) != METADATA_TERM && UnpackBlock(key) == METADATA_BLOCK
              && row.HeaderRow? && row.header.live > 0 && row.header.max > NEAR_ZERO
  {
  }

  lemma NoReservedTerm(T: Table)
    ensures METADATA_TERM !in TermInfoOf(T)
  {
  }

  lemma TermInfoRowAt(T: Table, key: nat, row: Row, u: nat)
    requires key !in T
    ensures var here := CountsAsTerm(key, row) && u == UnpackTerm(key);
            && (u in TermInfoOf(T[key := row]) <==> here || u in TermInfoOf(T))
            && (u in TermInfoOf(T[key := row]) ==>
                  TermInfoOf(T[key := row])[u] == if here then row.header.max else TermInfoOf(T)[u])
  {
    NoReservedTerm(T);
    NoReservedTerm(T[key := row]);
    hide TermInfoOf, PackKey, UnpackTerm, UnpackBlock;
    if u != METADATA_TERM {
      UnpackPack(key);
      PackOrder(u, METADATA_BLOCK, UnpackTerm(key), UnpackBlock(key));
      TermInfoAt(T, u);
      TermInfoAt(T[key := row], u);
    }
  }

  /** What one further row adds to the rebuilt maxima. */
  lemma TermInfoRow(T: Table, key: nat, row: Row)
    requires key !in T
    ensures TermInfoOf(T[key := row])
            == if CountsAsTerm(key, row) then TermInfoOf(T)[UnpackTerm(key) := row.header.max] else TermInfoOf(T)
  {
    hide TermInfoOf;
    forall u: nat
      ensures var here := CountsAsTerm(key, row) && u == UnpackTerm(key);
              && (u in TermInfoOf(T[key := row]) <==> here || u in TermInfoOf(T))
              && (u in TermInfoOf(T[key := row]) ==>
                    TermInfoOf(T[key := row])[u] == if here then row.header.max else TermInfoOf(T)[u])
    {
      TermInfoRowAt(T, key, row, u);
    }
  }

  /** Once the cursor leaves the data rows of a term, no data row of that term is left. */
  lemma EndOfTerm(T: Table, term: nat, key: nat)
    requires PackKey(term, 0) <= key
    requires UnpackTerm(key) != term || UnpackBlock(key) == METADATA_BLOCK
    ensures forall b :: 0 <= b < METADATA_BLOCK ==> PackKey(term, b) < key
  {
    UnpackPack(key);
    PackOrder(term, 0, UnpackTerm(key), UnpackBlock(key));
    forall b | 0 <= b < METADATA_BLOCK
      ensures PackKey(term, b) < key
    {
      PackOrder(term, b, UnpackTerm(key), UnpackBlock(key));
    }
  }
}
