/** What a completed batch means for the whole table, and for single (term, document) pairs. */
module BatchEffect {
  import opened Settings
  import opened Quantizer
  import opened PostingTable
  import opened PostingHeaders
  import opened BlockMerge
  import opened TermUpdate
  import opened BatchPivot
  import opened LiveBlocks

  ghost predicate SameRows(T: Table, T': Table, t: nat) {
    forall key :: UnpackTerm(key) == t ==> (key in T <==> key in T') && (key in T ==> T[key] == T'[key])
  }

  ghost predicate TermApplied(build: Build, T: Table, T': Table, t: nat, updates: seq<Posting>, U: map<nat, real>)
    requires TableOk(build, T) && TableOk(build, T') && t < METADATA_TERM
  {
    Picks(U, updates) && TermUpdated(build, T, T', t, U)
  }

  /** Terms the batch mentions are updated with one of the given weights per document; the others keep their rows. */
  ghost predicate BatchApplied(build: Build, T: Table, T': Table, docs: seq<Doc>, picks: map<nat, map<nat, real>>)
    requires TableOk(build, T) && TableOk(build, T') && DocsOk(docs)
  {
    forall t :: 0 <= t < METADATA_TERM ==>
      if ForTerm(Raw(docs), t) == [] then SameRows(T, T', t)
      else t in picks && TermApplied(build, T, T', t, ForTerm(Raw(docs), t), picks[t])
  }

  /** Between two terms of the batch: terms in `todo` still have their old rows. */
  ghost predicate BatchLoop(build: Build, T0: Table, T: Table, m: map<nat, seq<Posting>>, todo: set<nat>,
                            picks: map<nat, map<nat, real>>) {
    && TableOk(build, T0) && TableOk(build, T) && todo <= m.Keys
    && forall t :: 0 <= t < METADATA_TERM ==>
         if t in m && t !in todo then t in picks && TermApplied(build, T0, T, t, m[t], picks[t])
         else SameRows(T0, T, t)
  }

  lemma SameTermsRows(T: Table, T': Table, t: nat, u: nat)
    requires SameTerms(T, T', t) && t != u
    ensures SameRows(T, T', u)
  {
  }

  lemma SameRowsBlocks(T: Table, T': Table, t: nat)
    requires SameRows(T, T', t)
    ensures forall b :: 0 <= b < METADATA_BLOCK ==> SameBlock(T, T', t, b)
  {
    forall b | 0 <= b < METADATA_BLOCK
      ensures SameBlock(T, T', t, b)
    {
      PackOrder(t, b, t, b);
    }
  }

  lemma SameRowsTrans(T: Table, T1: Table, T2: Table, t: nat)
    requires SameRows(T, T1, t) && SameRows(T1, T2, t)
    ensures SameRows(T, T2, t)
  {
  }

  /** Updates of `t` act the same on two tables with the same rows for `t`. */
  lemma AppliedFrom(build: Build, T0: Table, T: Table, T': Table, t: nat, updates: seq<Posting>, U: map<nat, real>)
    requires TableOk(build, T0) && TableOk(build, T) && TableOk(build, T') && t < METADATA_TERM
    requires SameRows(T0, T, t) && TermApplied(build, T, T', t, updates, U)
    ensures TermApplied(build, T0, T', t, updates, U)
  {
    hide TableOk, Restrict, ToMap, SameRows;
    SameRowsBlocks(T0, T, t);
    forall b | 0 <= b < METADATA_BLOCK
      ensures BlockUpdated(build, T0, T', t, U, b)
    {
      assert SameBlock(T0, T, t, b) && BlockUpdated(build, T, T', t, U, b);
    }
  }

  lemma AppliedTo(build: Build, T0: Table, T: Table, T': Table, t: nat, updates: seq<Posting>, U: map<nat, real>)
    requires TableOk(build, T0) && TableOk(build, T) && TableOk(build, T') && t < METADATA_TERM
    requires SameRows(T, T', t) && TermApplied(build, T0, T, t, updates, U)
    ensures TermApplied(build, T0, T', t, updates, U)
  {
    SameRowsBlocks(T, T', t);
    TermUpdatedFrame(build, T0, T, T', t, U);
  }

  lemma BatchStep(build: Build, T0: Table, T: Table, T': Table, m: map<nat, seq<Posting>>, todo: set<nat>,
                  picks: map<nat, map<nat, real>>, term: nat, U: map<nat, real>)
    requires BatchLoop(build, T0, T, m, todo, picks) && TableOk(build, T')
    requires term in todo && term < METADATA_TERM
    requires SameTerms(T, T', term) && Picks(U, m[term]) && TermUpdated(build, T, T', term, U)
    ensures BatchLoop(build, T0, T', m, todo - {term}, picks[term := U])
  {
    hide TableOk, TermApplied, SameRows, SameTerms, Picks, TermUpdated;
    AppliedHere(build, T, T', term, m[term], U);
    forall t | 0 <= t < METADATA_TERM
      ensures if t in m && t !in todo - {term} then t in picks[term := U] && TermApplied(build, T0, T', t, m[t], picks[term := U][t])
              else SameRows(T0, T', t)
    {
      if t == term {
        AppliedFrom(build, T0, T, T', t, m[t], U);
      } else {
        SameTermsRows(T, T', term, t);
        if t in m && t !in todo {
          AppliedTo(build, T0, T, T', t, m[t], picks[t]);
        } else {
          SameRowsTrans(T0, T, T', t);
        }
      }
    }
  }

  lemma AppliedHere(build: Build, T: Table, T': Table, t: nat, updates: seq<Posting>, U: map<nat, real>)
    requires TableOk(build, T) && TableOk(build, T') && t < METADATA_TERM
    requires Picks(U, updates) && TermUpdated(build, T, T', t, U)
    ensures TermApplied(build, T, T', t, updates, U)
  {
  }

  lemma BatchStart(build: Build, T: Table, m: map<nat, seq<Posting>>)
    requires TableOk(build, T)
    ensures BatchLoop(build, T, T, m, m.Keys, map[])
  {
  }

  lemma BatchEnd(build: Build, T0: Table, T: Table, m: map<nat, seq<Posting>>, picks: map<nat, map<nat, real>>, docs: seq<Doc>)
    requires DocsOk(docs) && Pivoted(m, Raw(docs))
    requires BatchLoop(build, T0, T, m, {}, picks)
    ensures TableOk(build, T0) && TableOk(build, T) && BatchApplied(build, T0, T, docs, picks)
  {
    hide TableOk, TermApplied, SameRows, ForTerm, Raw;
  }

  /** Updates of a term never name the end marker, and the reserved term has none. */
  lemma UpdatesInRange(docs: seq<Doc>, m: map<nat, seq<Posting>>, t: nat, U: seq<Posting>)
    requires DocsOk(docs) && Pivoted(m, Raw(docs)) && t in m
    requires forall i, j :: 0 <= i < |docs| && 0 <= j < |docs[i].vec.indices| ==> docs[i].vec.indices[j] != METADATA_TERM
    requires Sorted(U) && Picks(ToMap(U), m[t])
    ensures t < METADATA_TERM && Updates(U)
  {
    hide Raw, ForTerm;
    var p0 := ForTerm(Raw(docs), t)[0];
    ForTermHolds(Raw(docs), t, p0);
    RawIsGiven(docs, t, p0.doc, p0.value);
    var i, j :| 0 <= i < |docs| && 0 <= j < |docs[i].vec.indices|
                && docs[i].id == p0.doc && docs[i].vec.indices[j] == t && docs[i].vec.values[j] == p0.value;
    forall k | 0 <= k < |U|
      ensures U[k].doc < EXHAUSTED
    {
      ToMapAt(U, k);
      var p := Posting(U[k].doc, ToMap(U)[U[k].doc]);
      assert p in m[t];
      ForTermHolds(Raw(docs), t, p);
      RawIsGiven(docs, t, p.doc, p.value);
    }
  }

  // ----- single lookups -----

  /** `now` is `raw` itself, or `raw` as stored under the maximum of the document's block. */
  ghost predicate ReadsAs(build: Build, T: Table, t: nat, d: nat, raw: Option<real>, now: Option<real>) {
    var b := DocToBlock(d);
    || now == raw
    || (raw.Some? && HasBlock(T, t, b) && now == Some(Stored(build, raw.value, GetBlock(T, t, b).max)))
  }

  /**
   After a batch, a pair the batch gives a weight reads as one of the given weights (as stored under
   its block's new maximum); a pair in a rewritten block reads as its old weight stored again; every
   other pair is unchanged.
   */
  lemma LookupAfterBatch(build: Build, T: Table, T': Table, docs: seq<Doc>, picks: map<nat, map<nat, real>>, t: nat, d: nat)
    returns (v: Option<real>)
    requires TableOk(build, T) && TableOk(build, T') && DocsOk(docs) && BatchApplied(build, T, T', docs, picks)
    requires t < METADATA_TERM && d < EXHAUSTED
    ensures v.Some? ==> Given(docs, t, d, v.value)
    ensures v.None? ==> forall w :: !Given(docs, t, d, w)
    ensures var raw := if v.Some? then v else Lookup(build, T, t, d);
            ReadsAs(build, T', t, d, raw, Lookup(build, T', t, d))
    ensures build.StoreFloats? ==> Lookup(build, T', t, d) == if v.Some? then v else Lookup(build, T, t, d)
  {
    hide Raw, ForTerm, TableOk, Given;
    var updates := ForTerm(Raw(docs), t);
    forall w
      ensures Posting(d, w) in updates <==> Given(docs, t, d, w)
    {
      ForTermHolds(Raw(docs), t, Posting(d, w));
      RawIsGiven(docs, t, d, w);
    }
    if updates == [] {
      v := None;
      SameRowsBlocks(T, T', t);
      DocOfBlock(d);
      LookupFrame(build, T, T', t, d);
    } else {
      v := LookupAfterTerm(build, T, T', t, updates, picks[t], d);
    }
  }

  lemma LookupAfterTerm(build: Build, T: Table, T': Table, t: nat, updates: seq<Posting>, U: map<nat, real>, d: nat)
    returns (v: Option<real>)
    requires TableOk(build, T) && TableOk(build, T') && t < METADATA_TERM && d < EXHAUSTED
    requires TermApplied(build, T, T', t, updates, U)
    ensures v.Some? ==> Posting(d, v.value) in updates
    ensures v.None? ==> forall w :: Posting(d, w) !in updates
    ensures var raw := if v.Some? then v else Lookup(build, T, t, d);
            ReadsAs(build, T', t, d, raw, Lookup(build, T', t, d))
    ensures build.StoreFloats? ==> Lookup(build, T', t, d) == if v.Some? then v else Lookup(build, T, t, d)
  {
    hide TableOk, ToMap, BlockMap;
    v := if d in U then Some(U[d]) else None;
    forall w | Posting(d, w) in updates
      ensures v.Some?
    {
      assert Posting(d, w).doc in U;
    }
    var b := DocToBlock(d);
    LookupInBlock(build, T, t, d);
    LookupInBlock(build, T', t, d);
    assert BlockUpdated(build, T, T', t, U, b);
    if Restrict(U, b) == map[] {
      assert d !in Restrict(U, b);
      LookupFrame(build, T, T', t, d);
    } else if build.StoreFloats? {
      StoredMapFloats(BlockMap(build, T, t, b) + Restrict(U, b), GetBlock(T', t, b).max);
    }
  }

  // ----- which pairs are live -----

  /** Weight of a pair before its block is saved: the update's, or else the live weight there was. */
  ghost function RawWeight(build: Build, T: Table, t: nat, U: map<nat, real>, d: nat): real
    requires TableOk(build, T) && t < METADATA_TERM && d < EXHAUSTED
  {
    if d in U then U[d] else LiveWeight(build, T, t, d)
  }

  ghost predicate RawStrong(build: Build, T: Table, t: nat, U: map<nat, real>, b: nat)
    requires TableOk(build, T) && t < METADATA_TERM
  {
    exists e :: 0 <= e < EXHAUSTED && DocToBlock(e) == b && RawWeight(build, T, t, U, e) > NEAR_ZERO
  }

  /**
   After updates of a term a pair is live exactly when its weight is positive and, in the byte build, its
   block then holds some weight above the tolerance.
   */
  lemma LiveAfterTerm(build: Build, T: Table, T': Table, t: nat, U: map<nat, real>, d: nat)
    requires TableOk(build, T) && TableOk(build, T') && t < METADATA_TERM && d < EXHAUSTED
    requires TermUpdated(build, T, T', t, U)
    ensures LiveWeight(build, T', t, d) > 0.0 <==>
              RawWeight(build, T, t, U, d) > 0.0 && (build.StoreFloats? || RawStrong(build, T, t, U, DocToBlock(d)))
  {
    hide TableOk, ToMap, LiveWeight, RawStrong, BlockMap, SavedAs;
    var b := DocToBlock(d);
    DocOfBlock(d);
    assert BlockUpdated(build, T, T', t, U, b);
    if Restrict(U, b) == map[] {
      assert d !in Restrict(U, b);
      SameLive(build, T, T', t, d);
      UntouchedStrong(build, T, t, U, d);
    } else {
      var raw, max := BlockMap(build, T, t, b) + Restrict(U, b), GetBlock(T', t, b).max;
      BlockMapLive(build, T, t, b, d);
      BlockMapLive(build, T', t, b, d);
      SavedLive(build, BlockMap(build, T', t, b), raw, max, d);
      SavedIsMax(build, BlockMap(build, T', t, b), raw, max);
      StrongMax(raw, max);
      TouchedStrong(build, T, t, U, b);
    }
  }

  lemma SavedIsMax(build: Build, now: map<nat, real>, raw: map<nat, real>, max: real)
    requires SavedAs(build, now, raw, max)
    ensures IsMaxOf(raw, max)
  {
  }

  lemma SameLive(build: Build, T: Table, T': Table, t: nat, d: nat)
    requires TableOk(build, T) && TableOk(build, T') && t < METADATA_TERM && d < EXHAUSTED
    requires SameBlock(T, T', t, DocToBlock(d))
    ensures LiveWeight(build, T', t, d) == LiveWeight(build, T, t, d)
  {
    LookupFrame(build, T, T', t, d);
  }

  lemma UntouchedStrong(build: Build, T: Table, t: nat, U: map<nat, real>, d: nat)
    requires TableOk(build, T) && t < METADATA_TERM && d < EXHAUSTED && Restrict(U, DocToBlock(d)) == map[]
    ensures LiveWeight(build, T, t, d) > 0.0 ==> build.StoreFloats? || RawStrong(build, T, t, U, DocToBlock(d))
  {
    hide TableOk, LiveWeight;
    if build.StoreBytes? && LiveWeight(build, T, t, d) > 0.0 {
      var e := LiveBlockIsStrong(T, t, d);
      assert e !in Restrict(U, DocToBlock(d));
      assert RawWeight(build, T, t, U, e) > NEAR_ZERO;
    }
  }

  lemma TouchedStrong(build: Build, T: Table, t: nat, U: map<nat, real>, b: nat)
    requires TableOk(build, T) && t < METADATA_TERM && b < METADATA_BLOCK
    requires forall e :: e in U ==> e < EXHAUSTED || DocToBlock(e) != b
    ensures var raw := BlockMap(build, T, t, b) + Restrict(U, b);
            RawStrong(build, T, t, U, b) <==> exists e :: e in raw && raw[e] > NEAR_ZERO
  {
    hide TableOk, LiveWeight, BlockMap;
    var raw := BlockMap(build, T, t, b) + Restrict(U, b);
    if RawStrong(build, T, t, U, b) {
      var e :| 0 <= e < EXHAUSTED && DocToBlock(e) == b && RawWeight(build, T, t, U, e) > NEAR_ZERO;
      BlockMapLive(build, T, t, b, e);
      assert e in raw && raw[e] > NEAR_ZERO;
    }
    if e :| e in raw && raw[e] > NEAR_ZERO {
      BlockMapLive(build, T, t, b, e);
      assert RawWeight(build, T, t, U, e) > NEAR_ZERO;
    }
  }

  /** A pair of a rewritten block reads as its weight encoded against the block's greatest weight. */
  lemma DecodedAfterTerm(build: Build, T: Table, T': Table, t: nat, U: map<nat, real>, u: nat, d: nat) returns (max: real)
    requires TableOk(build, T) && TableOk(build, T') && t < METADATA_TERM && d < EXHAUSTED
    requires TermUpdated(build, T, T', t, U) && u in U && DocToBlock(u) == DocToBlock(d)
    requires forall e :: e in U ==> e < EXHAUSTED
    ensures RawWeight(build, T, t, U, d) > 0.0 ==>
              LiveWeight(build, T', t, d) == if Stored(build, RawWeight(build, T, t, U, d), max) > 0.0 then Stored(build, RawWeight(build, T, t, U, d), max) else 0.0
    ensures forall e :: 0 <= e < EXHAUSTED && DocToBlock(e) == DocToBlock(d) ==> RawWeight(build, T, t, U, e) <= max
    ensures max == 0.0 || exists e :: 0 <= e < EXHAUSTED && DocToBlock(e) == DocToBlock(d) && RawWeight(build, T, t, U, e) == max
  {
    hide TableOk, ToMap, LiveWeight, BlockMap, Stored;
    var b := DocToBlock(d);
    DocOfBlock(d);
    assert BlockUpdated(build, T, T', t, U, b);
    assert u in Restrict(U, b);
    var raw := BlockMap(build, T, t, b) + Restrict(U, b);
    max := GetBlock(T', t, b).max;
    BlockMapLive(build, T, t, b, d);
    BlockMapLive(build, T', t, b, d);
    forall e | 0 <= e < EXHAUSTED && DocToBlock(e) == b
      ensures RawWeight(build, T, t, U, e) <= max
    {
      BlockMapLive(build, T, t, b, e);
      assert e in raw ==> raw[e] <= max;
    }
    if max != 0.0 {
      var e :| e in raw && raw[e] == max;
      BlockMapLive(build, T, t, b, e);
      assert RawWeight(build, T, t, U, e) == max;
    }
  }
}
