/** The module-level state of app/services/faiss_setup.py (the document lists,
    the two chunk tables and whether each FAISS index is built) as class
    `KnowledgeBase`, the table preparation as its methods, and the handling of
    FAISS answers in the two searches. Embedding the query and the FAISS
    search itself are not modelled: a search takes the `(index, score)` rows
    FAISS returned for the query. */
module FaissSetup {
  import opened TextUtil
  import opened FaissChunks
  import opened ScoreSort

  /** A FAISS label: the position of a vector in the index, or -1 when the
      index holds fewer vectors than asked for. */
  type Label = i: int | -1 <= i

  /** One row of a FAISS answer: a label and its similarity, an integer
      standing for the float. */
  datatype Hit = Hit(index: Label, score: int)

  // ---------------------------------------------------------------------------
  // Reading a hit's position in a chunk table

  /** The guard as written, `if idx < len(table): table[idx]`: Python reads a
      negative position from the end of the list. Both searches return before
      reading an empty table, so that case reads nothing. */
  function ResolveAsWritten<R>(idx: Label, table: seq<R>): Option<R>
  {
    if table == [] then None
    else if idx < |table| then Some(table[if idx < 0 then |table| + idx else idx]) else None
  }

  /** FAISS's "no result" label -1 passes the guard as written and is read as a
      hit on the last row of the table. */
  lemma MissingHitReadsLastRow<R>(table: seq<R>)
    requires table != []
    ensures ResolveAsWritten(-1, table) == Some(table[|table| - 1])
  {
  }

  /** The evidently intended reading: only a real position is a hit. */
  function ResolveHit<R>(idx: Label, table: seq<R>): Option<R>
  {
    if 0 <= idx < |table| then Some(table[idx]) else None
  }

  /** The corrected reading agrees with the one as written on every real
      position and turns the -1 label into no hit. */
  lemma ResolveHitCorrects<R>(idx: Label, table: seq<R>)
    requires table != []
    ensures idx >= 0 ==> ResolveHit(idx, table) == ResolveAsWritten(idx, table)
    ensures idx == -1 ==> ResolveHit(idx, table) == None != ResolveAsWritten(idx, table)
  {
  }

  /** The loops' reading of a label: `idx < len(table)`, then Python's
      indexing, which counts a negative position from the end. */
  lemma ReadAsWritten<R>(idx: Label, table: seq<R>)
    requires table != []
    ensures idx < |table| ==> Resolve(AsWritten, idx, table) == Some(table[if idx < 0 then |table| + idx else idx])
    ensures idx >= |table| ==> Resolve(AsWritten, idx, table) == None
  {
  }

  /** Which reading of a label a search uses. The searches of the module
      state use the guard as written; every property below is stated for
      both. */
  datatype Guard = AsWritten | Corrected

  function Resolve<R>(g: Guard, idx: Label, table: seq<R>): Option<R>
  {
    match g
    case AsWritten => ResolveAsWritten(idx, table)
    case Corrected => ResolveHit(idx, table)
  }

  /** The hits with a real position: the answer without FAISS's padding. */
  function RealHits(hits: seq<Hit>): (r: seq<Hit>)
    ensures forall i :: 0 <= i < |r| ==> r[i].index >= 0
    ensures |r| <= |hits|
  {
    if hits == [] then []
    else
      var h := hits[|hits| - 1];
      RealHits(hits[..|hits| - 1]) + (if h.index >= 0 then [h] else [])
  }

  /** An answer without padding is its own real part. */
  lemma {:induction false} RealHitsOfReal(hits: seq<Hit>)
    requires forall i :: 0 <= i < |hits| ==> hits[i].index >= 0
    ensures RealHits(hits) == hits
    decreases |hits|
  {
    if hits != [] {
      var init := hits[..|hits| - 1];
      RealHitsOfReal(init);
      assert hits == init + [hits[|hits| - 1]];
    }
  }

  // ---------------------------------------------------------------------------
  // Medical search: one result per document, the first hit wins

  /** A document kept by the medical search, with the score of its first hit. */
  datatype Pick = Pick(docId: nat, score: int)

  function PickedDocs(ps: seq<Pick>): set<nat>
  {
    set p | p in ps :: p.docId
  }

  /** The document of the chunk a hit lands on. */
  function HitDoc(h: Hit, chunks: seq<MedicalChunk>, g: Guard): Option<nat>
  {
    match Resolve(g, h.index, chunks)
    case Some(c) => Some(c.docId)
    case None => None
  }

  /** The hits the result loop keeps, in hit order: those landing on a chunk
      of an existing document not seen before. */
  function MedicalPicks(hits: seq<Hit>, chunks: seq<MedicalChunk>, docCount: nat, g: Guard): (ps: seq<Pick>)
    ensures forall i :: 0 <= i < |ps| ==> ps[i].docId < docCount
    ensures forall i, j :: 0 <= i < j < |ps| ==> ps[i].docId != ps[j].docId
  {
    if hits == [] then []
    else
      var prev := MedicalPicks(hits[..|hits| - 1], chunks, docCount, g);
      var h := hits[|hits| - 1];
      match HitDoc(h, chunks, g)
      case None => prev
      case Some(d) =>
        if d !in PickedDocs(prev) && d < docCount then prev + [Pick(d, h.score)] else prev
  }

  /** A hit on an unseen existing document keeps that document with the
      hit's score. */
  lemma MedicalPicksKeeps(hits: seq<Hit>, chunks: seq<MedicalChunk>, docCount: nat, g: Guard, i: nat)
    requires i < |hits| && HitDoc(hits[i], chunks, g).Some?
    requires HitDoc(hits[i], chunks, g).value !in PickedDocs(MedicalPicks(hits[..i], chunks, docCount, g))
    requires HitDoc(hits[i], chunks, g).value < docCount
    ensures MedicalPicks(hits[..i + 1], chunks, docCount, g)
            == MedicalPicks(hits[..i], chunks, docCount, g) + [Pick(HitDoc(hits[i], chunks, g).value, hits[i].score)]
  {
    assert hits[..i + 1][..i] == hits[..i];
  }

  /** Any other hit changes nothing. */
  lemma MedicalPicksSkips(hits: seq<Hit>, chunks: seq<MedicalChunk>, docCount: nat, g: Guard, i: nat)
    requires i < |hits|
    requires HitDoc(hits[i], chunks, g).Some? ==>
      HitDoc(hits[i], chunks, g).value in PickedDocs(MedicalPicks(hits[..i], chunks, docCount, g))
      || HitDoc(hits[i], chunks, g).value >= docCount
    ensures MedicalPicks(hits[..i + 1], chunks, docCount, g) == MedicalPicks(hits[..i], chunks, docCount, g)
  {
    assert hits[..i + 1][..i] == hits[..i];
  }

  /** As written, a padded answer keeps the last chunk's document with the
      padding's score; corrected, it keeps nothing. */
  lemma MissingHitKeepsLastDoc(chunks: seq<MedicalChunk>, docCount: nat, s: int)
    requires chunks != [] && chunks[|chunks| - 1].docId < docCount
    ensures MedicalPicks([Hit(-1, s)], chunks, docCount, AsWritten) == [Pick(chunks[|chunks| - 1].docId, s)]
    ensures MedicalPicks([Hit(-1, s)], chunks, docCount, Corrected) == []
  {
    assert [Hit(-1, s)][..0] == [];
  }

  /** The corrected medical search is the one as written run on the real
      hits only. */
  lemma {:induction false} CorrectedPicksIgnoreMissing(hits: seq<Hit>, chunks: seq<MedicalChunk>, docCount: nat)
    ensures MedicalPicks(hits, chunks, docCount, Corrected) == MedicalPicks(RealHits(hits), chunks, docCount, AsWritten)
    decreases |hits|
  {
    if hits != [] {
      var init := hits[..|hits| - 1];
      var h := hits[|hits| - 1];
      CorrectedPicksIgnoreMissing(init, chunks, docCount);
      if h.index >= 0 {
        var r := RealHits(hits);
        assert r == RealHits(init) + [h];
        assert r[..|r| - 1] == RealHits(init) && r[|r| - 1] == h;
        assert HitDoc(h, chunks, Corrected) == HitDoc(h, chunks, AsWritten);
      } else {
        assert HitDoc(h, chunks, Corrected) == None;
        assert MedicalPicks(hits, chunks, docCount, Corrected) == MedicalPicks(init, chunks, docCount, Corrected);
        assert RealHits(hits) == RealHits(init) + [] == RealHits(init);
      }
    }
  }

  /** A kept document comes from a hit on it, and no earlier hit landed on it. */
  lemma {:induction false} PickIsFirstHit(hits: seq<Hit>, chunks: seq<MedicalChunk>, docCount: nat, g: Guard, i: nat)
    returns (j: nat)
    requires i < |MedicalPicks(hits, chunks, docCount, g)|
    ensures j < |hits|
    ensures var p := MedicalPicks(hits, chunks, docCount, g)[i];
      && HitDoc(hits[j], chunks, g) == Some(p.docId) && hits[j].score == p.score
      && forall j' :: 0 <= j' < j ==> HitDoc(hits[j'], chunks, g) != Some(p.docId)
    decreases |hits|
  {
    var init := hits[..|hits| - 1];
    var prev := MedicalPicks(init, chunks, docCount, g);
    var ps := MedicalPicks(hits, chunks, docCount, g);
    if i < |prev| {
      assert ps[i] == prev[i];
      j := PickIsFirstHit(init, chunks, docCount, g, i);
      assert hits[j] == init[j];
      forall j' | 0 <= j' < j
        ensures HitDoc(hits[j'], chunks, g) != Some(ps[i].docId)
      {
        assert hits[j'] == init[j'];
      }
    } else {
      j := |hits| - 1;
      var d := ps[i].docId;
      assert d !in PickedDocs(prev);
      forall j' | 0 <= j' < j
        ensures HitDoc(hits[j'], chunks, g) != Some(d)
      {
        assert hits[j'] == init[j'];
        if HitDoc(init[j'], chunks, g) == Some(d) {
          PickCoversHit(init, chunks, docCount, g, j');
        }
      }
    }
  }

  /** Every hit on a chunk of an existing document has its document kept. */
  lemma {:induction false} PickCoversHit(hits: seq<Hit>, chunks: seq<MedicalChunk>, docCount: nat, g: Guard, j: nat)
    requires j < |hits|
    requires HitDoc(hits[j], chunks, g).Some? && HitDoc(hits[j], chunks, g).value < docCount
    ensures HitDoc(hits[j], chunks, g).value in PickedDocs(MedicalPicks(hits, chunks, docCount, g))
    decreases |hits|
  {
    var init := hits[..|hits| - 1];
    var prev := MedicalPicks(init, chunks, docCount, g);
    var ps := MedicalPicks(hits, chunks, docCount, g);
    assert PickedDocs(prev) <= PickedDocs(ps);
    if j < |init| {
      assert hits[j] == init[j];
      PickCoversHit(init, chunks, docCount, g, j);
    }
  }

  /** `doc["score"] = ...` for every kept document, in hit order. */
  function Stamp(data: seq<MedicalDoc>, ps: seq<Pick>): (r: seq<MedicalDoc>)
    ensures |r| == |data|
  {
    if ps == [] then data
    else
      var d := Stamp(data, ps[..|ps| - 1]);
      var p := ps[|ps| - 1];
      if p.docId < |d| then d[p.docId := d[p.docId].(score := Some(p.score))] else d
  }

  /** Stamping leaves the documents that were not kept alone. */
  lemma {:induction false} StampElsewhere(data: seq<MedicalDoc>, ps: seq<Pick>, d: nat)
    requires d < |data| && d !in PickedDocs(ps)
    ensures Stamp(data, ps)[d] == data[d]
    decreases |ps|
  {
    if ps != [] {
      var init := ps[..|ps| - 1];
      assert PickedDocs(init) <= PickedDocs(ps);
      StampElsewhere(data, init, d);
    }
  }

  /** The kept documents with their scores, in hit order. */
  function ResultDocs(data: seq<MedicalDoc>, ps: seq<Pick>): seq<MedicalDoc>
    requires forall i :: 0 <= i < |ps| ==> ps[i].docId < |data|
  {
    if ps == [] then []
    else
      var p := ps[|ps| - 1];
      ResultDocs(data, ps[..|ps| - 1]) + [data[p.docId].(score := Some(p.score))]
  }

  /** Keeping one more document stamps it and adds it to the results. */
  lemma KeepOneMore(data: seq<MedicalDoc>, ps: seq<Pick>, p: Pick)
    requires p.docId < |data|
    requires forall i :: 0 <= i < |ps| ==> ps[i].docId < |data|
    ensures Stamp(data, ps + [p]) == Stamp(data, ps)[p.docId := Stamp(data, ps)[p.docId].(score := Some(p.score))]
    ensures ResultDocs(data, ps + [p]) == ResultDocs(data, ps) + [data[p.docId].(score := Some(p.score))]
  {
    assert (ps + [p])[..|ps|] == ps;
  }

  lemma PickedDocsAppend(ps: seq<Pick>, p: Pick)
    ensures PickedDocs(ps + [p]) == PickedDocs(ps) + {p.docId}
  {
    assert forall q :: q in ps + [p] <==> q in ps || q == p;
  }

  /** The result loop of `search_medical_knowledge` on the document list and
      the chunk table: it stamps every kept document's score into the list
      and collects the kept documents in hit order. The search only gets
      here with a non-empty table. */
  method KeepFirstHits(hits: seq<Hit>, chunks: seq<MedicalChunk>, data: seq<MedicalDoc>)
    returns (docs: seq<MedicalDoc>, results: seq<MedicalDoc>)
    requires chunks != []
    ensures docs == Stamp(data, MedicalPicks(hits, chunks, |data|, AsWritten))
    ensures results == ResultDocs(data, MedicalPicks(hits, chunks, |data|, AsWritten))
  {
    ghost var ps: seq<Pick> := [];
    docs := data;
    results := [];
    var seen: set<nat> := {};
    var i := 0;
    while i < |hits|
      invariant 0 <= i <= |hits|
      invariant ps == MedicalPicks(hits[..i], chunks, |data|, AsWritten)
      invariant |docs| == |data|
      invariant seen == PickedDocs(ps)
      invariant docs == Stamp(data, ps)
      invariant results == ResultDocs(data, ps)
    {
      var idx := hits[i].index;
      ReadAsWritten(idx, chunks);
      if idx < |chunks| {
        var docId: nat := chunks[if idx < 0 then |chunks| + idx else idx].docId;
        if docId !in seen && docId < |docs| {
          var p := Pick(docId, hits[i].score);
          MedicalPicksKeeps(hits, chunks, |data|, AsWritten, i);
          StampElsewhere(data, ps, docId);
          KeepOneMore(data, ps, p);
          PickedDocsAppend(ps, p);
          seen := seen + {docId};
          var doc := docs[docId].(score := Some(hits[i].score));
          docs := docs[docId := doc];
          results := results + [doc];
          ps := ps + [p];
        } else {
          MedicalPicksSkips(hits, chunks, |data|, AsWritten, i);
        }
      } else {
        MedicalPicksSkips(hits, chunks, |data|, AsWritten, i);
      }
      i := i + 1;
    }
    assert hits[..i] == hits;
  }

  /** The sort key of a medical result (every result carries a score). */
  function DocScore(d: MedicalDoc): int
  {
    if d.score.Some? then d.score.value else 0
  }

  /** The medical search result is ordered by non-increasing score, is a
      permutation of the kept documents, and keeps every existing document
      that was hit at least once. */
  lemma MedicalResultMeaning(hits: seq<Hit>, chunks: seq<MedicalChunk>, data: seq<MedicalDoc>, g: Guard)
    ensures var ps := MedicalPicks(hits, chunks, |data|, g);
      var r := SortDesc(ResultDocs(data, ps), DocScore);
      && NonIncreasing(r, DocScore)
      && multiset(r) == multiset(ResultDocs(data, ps))
      && (forall j :: 0 <= j < |hits| && HitDoc(hits[j], chunks, g).Some? && HitDoc(hits[j], chunks, g).value < |data|
            ==> HitDoc(hits[j], chunks, g).value in PickedDocs(ps))
  {
    var ps := MedicalPicks(hits, chunks, |data|, g);
    SortDescSorted(ResultDocs(data, ps), DocScore);
    forall j | 0 <= j < |hits| && HitDoc(hits[j], chunks, g).Some? && HitDoc(hits[j], chunks, g).value < |data|
      ensures HitDoc(hits[j], chunks, g).value in PickedDocs(ps)
    {
      PickCoversHit(hits, chunks, |data|, g, j);
    }
  }

  // ---------------------------------------------------------------------------
  // Trial search: best score per trial, top three

  /** A Python dict from trial id to score: its keys in insertion order and
      the mapping. */
  datatype ScoreTable = ScoreTable(order: seq<nat>, scores: map<nat, int>)

  ghost predicate WellFormed(t: ScoreTable)
  {
    && (forall i, j :: 0 <= i < j < |t.order| ==> t.order[i] != t.order[j])
    && (forall id :: id in t.scores <==> id in t.order)
  }

  /** `if trial_id not in trial_scores or current_score > trial_scores[trial_id]:
      trial_scores[trial_id] = current_score`. */
  function Record(t: ScoreTable, id: nat, s: int): ScoreTable
  {
    if id !in t.scores then ScoreTable(t.order + [id], t.scores[id := s])
    else if s > t.scores[id] then t.(scores := t.scores[id := s])
    else t
  }

  /** The trial of the chunk a hit lands on. */
  function HitTrial(h: Hit, chunks: seq<TrialChunk>, g: Guard): Option<nat>
  {
    match Resolve(g, h.index, chunks)
    case Some(c) => Some(c.trialId)
    case None => None
  }

  /** The score table after the first loop of `search_clinical_trials`. */
  function BestScores(hits: seq<Hit>, chunks: seq<TrialChunk>, g: Guard): ScoreTable
  {
    if hits == [] then ScoreTable([], map[])
    else
      var prev := BestScores(hits[..|hits| - 1], chunks, g);
      var h := hits[|hits| - 1];
      match HitTrial(h, chunks, g)
      case None => prev
      case Some(id) => Record(prev, id, h.score)
  }

  /** The table is a well-formed dict whose keys are exactly the trials hit,
      each mapped to a score no hit on it exceeds. */
  lemma {:induction false} BestScoresAreMaxima(hits: seq<Hit>, chunks: seq<TrialChunk>, g: Guard)
    ensures WellFormed(BestScores(hits, chunks, g))
    ensures forall j :: 0 <= j < |hits| && HitTrial(hits[j], chunks, g).Some? ==>
      && HitTrial(hits[j], chunks, g).value in BestScores(hits, chunks, g).scores
      && hits[j].score <= BestScores(hits, chunks, g).scores[HitTrial(hits[j], chunks, g).value]
    ensures forall id :: id in BestScores(hits, chunks, g).scores ==>
      exists j :: 0 <= j < |hits| && HitTrial(hits[j], chunks, g) == Some(id)
    decreases |hits|
  {
    if hits != [] {
      var init := hits[..|hits| - 1];
      BestScoresAreMaxima(init, chunks, g);
      forall j | 0 <= j < |init|
        ensures hits[j] == init[j]
      {
      }
    }
  }

  /** The score kept for a trial is the score of one of its hits. */
  lemma {:induction false} BestScoreAttained(hits: seq<Hit>, chunks: seq<TrialChunk>, g: Guard, id: nat) returns (j: nat)
    requires id in BestScores(hits, chunks, g).scores
    ensures j < |hits| && HitTrial(hits[j], chunks, g) == Some(id)
    ensures hits[j].score == BestScores(hits, chunks, g).scores[id]
    decreases |hits|
  {
    var init := hits[..|hits| - 1];
    var prev := BestScores(init, chunks, g);
    var h := hits[|hits| - 1];
    if HitTrial(h, chunks, g) == Some(id) && (id !in prev.scores || h.score > prev.scores[id]) {
      j := |hits| - 1;
    } else {
      j := BestScoreAttained(init, chunks, g, id);
      assert hits[j] == init[j];
    }
  }

  /** As written, a padded answer gives the last chunk's trial an entry with
      the padding's score; corrected, the table stays empty. */
  lemma MissingHitScoresLastTrial(chunks: seq<TrialChunk>, s: int)
    requires chunks != []
    ensures var id := chunks[|chunks| - 1].trialId;
      BestScores([Hit(-1, s)], chunks, AsWritten) == ScoreTable([id], map[id := s])
    ensures BestScores([Hit(-1, s)], chunks, Corrected) == ScoreTable([], map[])
  {
    assert [Hit(-1, s)][..0] == [];
  }

  /** The corrected score table is the one as written built from the real
      hits only. */
  lemma {:induction false} CorrectedScoresIgnoreMissing(hits: seq<Hit>, chunks: seq<TrialChunk>)
    ensures BestScores(hits, chunks, Corrected) == BestScores(RealHits(hits), chunks, AsWritten)
    decreases |hits|
  {
    if hits != [] {
      var init := hits[..|hits| - 1];
      var h := hits[|hits| - 1];
      CorrectedScoresIgnoreMissing(init, chunks);
      if h.index >= 0 {
        var r := RealHits(hits);
        assert r == RealHits(init) + [h];
        assert r[..|r| - 1] == RealHits(init) && r[|r| - 1] == h;
        assert HitTrial(h, chunks, Corrected) == HitTrial(h, chunks, AsWritten);
      } else {
        assert HitTrial(h, chunks, Corrected) == None;
        assert BestScores(hits, chunks, Corrected) == BestScores(init, chunks, Corrected);
        assert RealHits(hits) == RealHits(init) + [] == RealHits(init);
      }
    }
  }

  /** Without padding in the answer both guards give the same searches. */
  lemma GuardsAgreeOnRealHits(hits: seq<Hit>, medical: seq<MedicalChunk>, docCount: nat, trials: seq<TrialChunk>)
    requires forall i :: 0 <= i < |hits| ==> hits[i].index >= 0
    ensures MedicalPicks(hits, medical, docCount, AsWritten) == MedicalPicks(hits, medical, docCount, Corrected)
    ensures BestScores(hits, trials, AsWritten) == BestScores(hits, trials, Corrected)
  {
    RealHitsOfReal(hits);
    CorrectedPicksIgnoreMissing(hits, medical, docCount);
    CorrectedScoresIgnoreMissing(hits, trials);
  }

  /** A trial with its best score: `trial.copy()` with `"score"` set. */
  datatype ScoredTrial = ScoredTrial(trial: TrialRecord, score: int)

  function TrialScore(t: ScoredTrial): int
  {
    t.score
  }

  /** The second loop: every kept id becomes its trial with its score. */
  function TrialResults(t: ScoreTable, data: seq<TrialRecord>): seq<ScoredTrial>
    requires forall id :: id in t.order ==> id in t.scores
  {
    var ids := KeptIds(t.order, |data|);
    seq(|ids|, i requires 0 <= i < |ids| => ScoredTrial(data[ids[i]], t.scores[ids[i]]))
  }

  /** The ids of the second loop that name an existing trial, in dict order:
      exactly the ids of the table that are existing trials, and none comes
      twice when the table's keys are distinct. */
  function KeptIds(order: seq<nat>, trialCount: nat): (ids: seq<nat>)
    ensures forall i :: 0 <= i < |ids| ==> ids[i] < trialCount && ids[i] in order
    ensures forall id :: id in order && id < trialCount ==> id in ids
    ensures (forall i, j :: 0 <= i < j < |order| ==> order[i] != order[j]) ==>
              forall i, j :: 0 <= i < j < |ids| ==> ids[i] != ids[j]
  {
    if order == [] then []
    else
      var init := order[..|order| - 1];
      var last := order[|order| - 1];
      var prev := KeptIds(init, trialCount);
      assert forall i :: 0 <= i < |prev| ==> prev[i] in init && prev[i] in order;
      prev + (if last < trialCount then [last] else [])
  }

  /** The trial search result: the best three of the trials found, by
      non-increasing score, or all of them when fewer were found. The trials
      found are the existing trials that were hit, each once with the best
      score of its hits. */
  lemma TrialResultMeaning(hits: seq<Hit>, chunks: seq<TrialChunk>, data: seq<TrialRecord>, g: Guard)
    ensures var t := BestScores(hits, chunks, g);
      forall id :: id in t.order ==> id in t.scores
    ensures var t := BestScores(hits, chunks, g);
      var all := TrialResults(t, data);
      var r := Take(SortDesc(all, TrialScore), 3);
      && |r| == (if |all| <= 3 then |all| else 3)
      && NonIncreasing(r, TrialScore)
      && multiset(r) <= multiset(all)
      && (forall x :: x in multiset(all) - multiset(r) ==>
            forall i :: 0 <= i < |r| ==> TrialScore(x) <= TrialScore(r[i]))
    ensures var t := BestScores(hits, chunks, g);
      forall j :: 0 <= j < |hits| && HitTrial(hits[j], chunks, g).Some? && HitTrial(hits[j], chunks, g).value < |data| ==>
        var id := HitTrial(hits[j], chunks, g).value;
        id in t.scores && ScoredTrial(data[id], t.scores[id]) in TrialResults(t, data)
  {
    BestScoresAreMaxima(hits, chunks, g);
    var t := BestScores(hits, chunks, g);
    TakeTop(TrialResults(t, data), TrialScore, 3);
    TrialResultsComplete(t, data);
  }

  /** Every existing trial of the table is among the results, with its score. */
  lemma TrialResultsComplete(t: ScoreTable, data: seq<TrialRecord>)
    requires WellFormed(t)
    ensures forall id :: id in t.scores && id < |data| ==> ScoredTrial(data[id], t.scores[id]) in TrialResults(t, data)
  {
    var ids := KeptIds(t.order, |data|);
    var all := TrialResults(t, data);
    forall id | id in t.scores && id < |data|
      ensures ScoredTrial(data[id], t.scores[id]) in all
    {
      assert id in ids;
      var k :| 0 <= k < |ids| && ids[k] == id;
      assert all[k] == ScoredTrial(data[id], t.scores[id]);
    }
  }

  /** Each result of the second loop is an existing trial that was hit, with
      the best score among its hits, and no trial comes twice. */
  lemma TrialResultsAreBest(hits: seq<Hit>, chunks: seq<TrialChunk>, data: seq<TrialRecord>, g: Guard, i: nat)
    returns (id: nat)
    requires var t := BestScores(hits, chunks, g);
      (forall x :: x in t.order ==> x in t.scores) && i < |TrialResults(t, data)|
    ensures var t := BestScores(hits, chunks, g);
      && id < |data| && id in t.scores
      && TrialResults(t, data)[i] == ScoredTrial(data[id], t.scores[id])
      && (exists j :: 0 <= j < |hits| && HitTrial(hits[j], chunks, g) == Some(id) && hits[j].score == t.scores[id])
      && (forall j :: 0 <= j < |hits| && HitTrial(hits[j], chunks, g) == Some(id) ==> hits[j].score <= t.scores[id])
      && (forall i' :: 0 <= i' < |TrialResults(t, data)| && i' != i ==> KeptIds(t.order, |data|)[i'] != id)
  {
    var t := BestScores(hits, chunks, g);
    BestScoresAreMaxima(hits, chunks, g);
    id := KeptIds(t.order, |data|)[i];
    var j := BestScoreAttained(hits, chunks, g, id);
  }

  /** The first loop of `search_clinical_trials`: the best score of every
      trial hit, in a dict keyed in first-hit order. The search only gets
      here with a non-empty table. */
  method BestScoreLoop(hits: seq<Hit>, chunks: seq<TrialChunk>) returns (order: seq<nat>, scores: map<nat, int>)
    requires chunks != []
    ensures ScoreTable(order, scores) == BestScores(hits, chunks, AsWritten)
    ensures forall id :: id in order ==> id in scores
  {
    order := [];
    scores := map[];
    var i := 0;
    while i < |hits|
      invariant 0 <= i <= |hits|
      invariant ScoreTable(order, scores) == BestScores(hits[..i], chunks, AsWritten)
      invariant forall id :: id in order ==> id in scores
    {
      assert hits[..i + 1][..i] == hits[..i];
      var idx := hits[i].index;
      ReadAsWritten(idx, chunks);
      if idx < |chunks| {
        var trialId := chunks[if idx < 0 then |chunks| + idx else idx].trialId;
        var current := hits[i].score;
        if trialId !in scores || current > scores[trialId] {
          if trialId !in scores {
            order := order + [trialId];
          }
          scores := scores[trialId := current];
        }
      }
      i := i + 1;
    }
    assert hits[..i] == hits;
  }

  /** The second loop of `search_clinical_trials`: a copy of every existing
      trial in the dict, carrying its score. */
  method CopyScoredTrials(order: seq<nat>, scores: map<nat, int>, data: seq<TrialRecord>)
    returns (results: seq<ScoredTrial>)
    requires forall id :: id in order ==> id in scores
    ensures results == TrialResults(ScoreTable(order, scores), data)
  {
    results := [];
    var k := 0;
    while k < |order|
      invariant 0 <= k <= |order|
      invariant results == TrialResults(ScoreTable(order[..k], scores), data)
    {
      assert order[..k + 1][..k] == order[..k];
      var id := order[k];
      if id < |data| {
        results := results + [ScoredTrial(data[id], scores[id])];
      }
      k := k + 1;
    }
    assert order[..k] == order;
  }

  // ---------------------------------------------------------------------------
  // The module state

  class KnowledgeBase {
    /** `medical_faiss is not None` and `clinical_trial_faiss is not None`. */
    var medicalIndexBuilt: bool
    var trialIndexBuilt: bool
    var medicalData: seq<MedicalDoc>
    var clinicalTrialsData: seq<TrialRecord>
    var medicalChunks: seq<MedicalChunk>
    var clinicalTrialChunks: seq<TrialChunk>

    /** The state after loading the documents, before any table or index is built. */
    constructor (docs: seq<MedicalDoc>, trials: seq<TrialRecord>)
      ensures medicalData == docs && clinicalTrialsData == trials
      ensures medicalChunks == [] && clinicalTrialChunks == []
      ensures !medicalIndexBuilt && !trialIndexBuilt
    {
      medicalIndexBuilt := false;
      trialIndexBuilt := false;
      medicalData := docs;
      clinicalTrialsData := trials;
      medicalChunks := [];
      clinicalTrialChunks := [];
    }

    /** `prepare_medical_chunks`: rebuilds the medical table from scratch. */
    method PrepareMedicalChunks() returns (table: seq<MedicalChunk>)
      modifies this`medicalChunks
      ensures medicalChunks == MedicalTable(medicalData) && table == medicalChunks
    {
      medicalChunks := [];
      var i := 0;
      while i < |medicalData|
        invariant 0 <= i <= |medicalData|
        invariant medicalChunks == MedicalTable(medicalData[..i])
      {
        var content := medicalData[i].content;
        var docChunks := CreateChunksFromText(content, ChunkSize, ChunkOverlap);
        ghost var before := medicalChunks;
        var j := 0;
        while j < |docChunks|
          invariant 0 <= j <= |docChunks|
          invariant medicalChunks == before + DocEntries(i, content)[..j]
        {
          medicalChunks := medicalChunks + [MedicalChunk(docChunks[j], i, j, MedicalSource)];
          assert DocEntries(i, content)[..j + 1] == DocEntries(i, content)[..j] + [MedicalChunk(docChunks[j], i, j, MedicalSource)];
          j := j + 1;
        }
        assert DocEntries(i, content)[..j] == DocEntries(i, content);
        assert medicalData[..i + 1][..i] == medicalData[..i];
        i := i + 1;
      }
      assert medicalData[..i] == medicalData;
      table := medicalChunks;
    }

    /** `prepare_clinical_trial_chunks`: rebuilds the trial table from scratch. */
    method PrepareClinicalTrialChunks() returns (table: seq<TrialChunk>)
      modifies this`clinicalTrialChunks
      ensures clinicalTrialChunks == TrialTable(clinicalTrialsData) && table == clinicalTrialChunks
    {
      clinicalTrialChunks := [];
      var i := 0;
      while i < |clinicalTrialsData|
        invariant 0 <= i <= |clinicalTrialsData|
        invariant clinicalTrialChunks == TrialTable(clinicalTrialsData[..i])
      {
        var trial := clinicalTrialsData[i];
        var aspects := [("Title: " + trial.title, TitleAspect),
                        ("Condition: " + trial.condition, ConditionAspect),
                        ("Intervention: " + trial.intervention, InterventionAspect),
                        ("Eligibility: " + trial.eligibility, EligibilityAspect),
                        (FullText(trial), FullAspect)];
        ghost var before := clinicalTrialChunks;
        var j := 0;
        while j < |aspects|
          invariant 0 <= j <= |aspects|
          invariant clinicalTrialChunks == before + TrialEntries(i, trial)[..j]
        {
          var entry := TrialChunk(aspects[j].0, aspects[j].1, i, j, TrialSource);
          assert TrialEntries(i, trial)[..j + 1] == TrialEntries(i, trial)[..j] + [entry];
          clinicalTrialChunks := clinicalTrialChunks + [entry];
          j := j + 1;
        }
        assert TrialEntries(i, trial)[..j] == TrialEntries(i, trial);
        assert clinicalTrialsData[..i + 1][..i] == clinicalTrialsData[..i];
        i := i + 1;
      }
      assert clinicalTrialsData[..i] == clinicalTrialsData;
      table := clinicalTrialChunks;
    }

    /** `search_medical_knowledge` given the FAISS answer for the query: stamps
        the score of each kept document into the document list and returns
        the kept documents by non-increasing score. */
    method SearchMedicalKnowledge(hits: seq<Hit>) returns (results: seq<MedicalDoc>)
      modifies this`medicalData
      ensures !medicalIndexBuilt || medicalChunks == [] ==> results == [] && medicalData == old(medicalData)
      ensures medicalIndexBuilt && medicalChunks != [] ==>
        var ps := MedicalPicks(hits, medicalChunks, |old(medicalData)|, AsWritten);
        && medicalData == Stamp(old(medicalData), ps)
        && results == SortDesc(ResultDocs(old(medicalData), ps), DocScore)
    {
      if !medicalIndexBuilt || medicalChunks == [] {
        return [];
      }
      var docs;
      docs, results := KeepFirstHits(hits, medicalChunks, medicalData);
      medicalData := docs;
      results := SortDesc(results, DocScore);
    }

    /** `search_clinical_trials` given the FAISS answer for the query. */
    method SearchClinicalTrials(hits: seq<Hit>) returns (results: seq<ScoredTrial>)
      ensures !trialIndexBuilt || clinicalTrialChunks == [] ==> results == []
      ensures trialIndexBuilt && clinicalTrialChunks != [] ==>
        var t := BestScores(hits, clinicalTrialChunks, AsWritten);
        && (forall id :: id in t.order ==> id in t.scores)
        && results == Take(SortDesc(TrialResults(t, clinicalTrialsData), TrialScore), 3)
    {
      if !trialIndexBuilt || clinicalTrialChunks == [] {
        return [];
      }
      var order, scores := BestScoreLoop(hits, clinicalTrialChunks);
      results := CopyScoredTrials(order, scores, clinicalTrialsData);
      results := SortDesc(results, TrialScore);
      results := Take(results, 3);
    }
  }
}
