/** Sliding-window chunking of documents and the flat chunk tables the two
    vector indices are built from (app/services/faiss_setup.py): the medical
    table (several windows per document) and the clinical-trial table (five
    aspect texts per trial). */
module FaissChunks {
  import opened TextUtil

  /** The defaults of `create_chunks_from_text`. */
  const ChunkSize: nat := 200
  const ChunkOverlap: nat := 50

  // ---------------------------------------------------------------------------
  // Sliding windows

  /** The windows of `text` starting at `start`, `start + step`, ... while the
      start is inside the text, each `size` characters long or cut at the end. */
  function WindowsFrom(text: string, size: nat, step: nat, start: nat): seq<string>
    requires step > 0
    decreases |text| - start
  {
    if start >= |text| then []
    else [text[start..Min(start + size, |text|)]] + WindowsFrom(text, size, step, start + step)
  }

  /** `create_chunks_from_text(text, size, overlap)`: the text itself when it
      fits in one chunk, else windows `size - overlap` characters apart. */
  function SlidingChunks(text: string, size: nat, overlap: nat): seq<string>
    requires overlap < size
  {
    if |text| <= size then [text] else WindowsFrom(text, size, size - overlap, 0)
  }

  /** The splitting loop, with its early `break` once the next start is past
      the end. */
  method CreateChunksFromText(text: string, chunkSize: nat, overlap: nat) returns (chunks: seq<string>)
    requires overlap < chunkSize
    ensures chunks == SlidingChunks(text, chunkSize, overlap)
  {
    if |text| <= chunkSize {
      return [text];
    }
    ghost var step := chunkSize - overlap;
    chunks := [];
    var start := 0;
    while start < |text|
      invariant chunks + WindowsFrom(text, chunkSize, step, start) == WindowsFrom(text, chunkSize, step, 0)
      decreases |text| - start
    {
      var end := start + chunkSize;
      if end > |text| {
        end := |text|;
      }
      ghost var rest := WindowsFrom(text, chunkSize, step, start + step);
      assert WindowsFrom(text, chunkSize, step, start) == [text[start..end]] + rest;
      assert (chunks + [text[start..end]]) + rest == chunks + ([text[start..end]] + rest);
      chunks := chunks + [text[start..end]];
      start := start + (chunkSize - overlap);
      assert chunks + WindowsFrom(text, chunkSize, step, start) == WindowsFrom(text, chunkSize, step, 0);
      if start >= |text| {
        assert WindowsFrom(text, chunkSize, step, start) == [];
        assert chunks == chunks + [];
        break;
      }
    }
    assert WindowsFrom(text, chunkSize, step, start) == [];
    assert chunks == chunks + [];
  }

  /** `start` after `k` rounds of the splitting loop, which adds
      `chunk_size - overlap` each round. */
  function LoopStart(k: nat, chunkSize: nat, overlap: nat): int
  {
    if k == 0 then 0 else LoopStart(k - 1, chunkSize, overlap) + (chunkSize - overlap)
  }

  /** When the overlap is not below the chunk size the start never moves
      forward: on a text longer than one chunk the loop test
      `start < len(text)` holds after every round and the `break` never
      fires, so the function does not return. */
  lemma {:induction false} StalledLoopNeverEnds(text: string, chunkSize: nat, overlap: nat, k: nat)
    requires chunkSize <= overlap && |text| > chunkSize
    ensures LoopStart(k, chunkSize, overlap) <= 0 < |text|
    decreases k
  {
    if k > 0 {
      StalledLoopNeverEnds(text, chunkSize, overlap, k - 1);
    }
  }

  /** With the overlap below the chunk size every round moves the start
      forward, so after `len(text)` rounds it is past the end. */
  lemma {:induction false} LoopStartAdvances(k: nat, chunkSize: nat, overlap: nat)
    requires overlap < chunkSize
    ensures LoopStart(k, chunkSize, overlap) >= k
    decreases k
  {
    if k > 0 {
      LoopStartAdvances(k - 1, chunkSize, overlap);
    }
  }

  /** The i-th window begins i steps after `start`. */
  lemma {:induction false} WindowAt(text: string, size: nat, step: nat, start: nat, i: nat)
    requires step > 0
    requires i < |WindowsFrom(text, size, step, start)|
    ensures start + i * step < |text|
    ensures WindowsFrom(text, size, step, start)[i] == text[start + i * step..Min(start + i * step + size, |text|)]
    decreases i
  {
    if i > 0 {
      WindowAt(text, size, step, start + step, i - 1);
      assert start + step + (i - 1) * step == start + i * step;
    }
  }

  /** The number of windows is the least `n` with `n * step` reaching past the
      text: Python's `math.ceil((|text| - start) / step)`. */
  lemma {:induction false} WindowCount(text: string, size: nat, step: nat, start: nat)
    requires step > 0 && start < |text|
    ensures var n := |WindowsFrom(text, size, step, start)|;
      n > 0 && (n - 1) * step < |text| - start <= n * step
    decreases |text| - start
  {
    var n := |WindowsFrom(text, size, step, start)|;
    if start + step < |text| {
      WindowCount(text, size, step, start + step);
      var m := n - 1;
      assert m * step + step == n * step;
      assert (m - 1) * step + step == (n - 1) * step;
    }
  }

  /** The i-th chunk is the window `[i * step, i * step + size)` cut at the end
      of the text, where `step = size - overlap`. */
  lemma ChunkAt(text: string, size: nat, overlap: nat, i: nat)
    requires overlap < size < |text|
    requires i < |SlidingChunks(text, size, overlap)|
    ensures i * (size - overlap) < |text|
    ensures SlidingChunks(text, size, overlap)[i]
            == text[i * (size - overlap)..Min(i * (size - overlap) + size, |text|)]
  {
    WindowAt(text, size, size - overlap, 0, i);
  }

  /** A text longer than one chunk gives `ceil(|text| / (size - overlap))`
      chunks: the least count whose windows reach the end of the text. */
  lemma ChunkCount(text: string, size: nat, overlap: nat)
    requires overlap < size < |text|
    ensures var n := |SlidingChunks(text, size, overlap)|;
      (n - 1) * (size - overlap) < |text| <= n * (size - overlap)
  {
    WindowCount(text, size, size - overlap, 0);
  }

  /** No window is longer than `size`. */
  lemma {:induction false} WindowBounded(text: string, size: nat, step: nat, start: nat, i: nat)
    requires step > 0
    requires i < |WindowsFrom(text, size, step, start)|
    ensures |WindowsFrom(text, size, step, start)[i]| <= size
    decreases i
  {
    if i > 0 {
      WindowBounded(text, size, step, start + step, i - 1);
    }
  }

  /** No chunk is longer than the chunk size. */
  lemma ChunkBounded(text: string, size: nat, overlap: nat, i: nat)
    requires overlap < size
    requires i < |SlidingChunks(text, size, overlap)|
    ensures |SlidingChunks(text, size, overlap)[i]| <= size
  {
    if |text| > size {
      WindowBounded(text, size, size - overlap, 0, i);
    }
  }

  /** The whole text comes back as the only chunk exactly when it fits in one,
      the empty text included. */
  lemma SingleChunkIff(text: string, size: nat, overlap: nat)
    requires overlap < size
    ensures SlidingChunks(text, size, overlap) == [text] <==> |text| <= size
  {
    if |text| > size {
      WindowAt(text, size, size - overlap, 0, 0);
      assert |SlidingChunks(text, size, overlap)[0]| == size;
    }
  }

  /** Python `c[n:]`. */
  function DropPrefix(c: string, n: nat): string
  {
    c[Min(n, |c|)..]
  }

  function JoinTails(chunks: seq<string>, overlap: nat): string
  {
    if chunks == [] then [] else DropPrefix(chunks[0], overlap) + JoinTails(chunks[1..], overlap)
  }

  /** The first chunk followed by every later chunk without its first `overlap`
      characters. */
  function Rebuild(chunks: seq<string>, overlap: nat): string
  {
    if chunks == [] then [] else chunks[0] + JoinTails(chunks[1..], overlap)
  }

  /** The windows from `start` on, each without its first `overlap`
      characters, join up to the text from `start + overlap` on. */
  lemma {:induction false} TailsOfWindows(text: string, size: nat, overlap: nat, start: nat)
    requires overlap < size
    ensures JoinTails(WindowsFrom(text, size, size - overlap, start), overlap)
            == text[Min(start + overlap, |text|)..]
    decreases |text| - start
  {
    var step := size - overlap;
    var ws := WindowsFrom(text, size, step, start);
    if start < |text| {
      var end := Min(start + size, |text|);
      var from := Min(start + overlap, |text|);
      var w := text[start..end];
      var rest := WindowsFrom(text, size, step, start + step);
      assert ws == [w] + rest;
      assert ws[0] == w && ws[1..] == rest;
      assert JoinTails(ws, overlap) == DropPrefix(w, overlap) + JoinTails(rest, overlap);
      assert DropPrefix(w, overlap) == text[from..end];
      TailsOfWindows(text, size, overlap, start + step);
      assert start + step + overlap == start + size;
      assert JoinTails(rest, overlap) == text[end..];
      SliceConcat(text, from, end);
    }
  }

  /** Overlapping chunks lose nothing: dropping the overlap from every chunk
      after the first and concatenating gives the text back. */
  lemma RebuildChunks(text: string, size: nat, overlap: nat)
    requires overlap < size
    ensures Rebuild(SlidingChunks(text, size, overlap), overlap) == text
  {
    var cs := SlidingChunks(text, size, overlap);
    if |text| <= size {
      assert cs == [text];
      assert cs[1..] == [];
    } else {
      var step := size - overlap;
      var rest := WindowsFrom(text, size, step, step);
      assert cs == [text[0..size]] + rest;
      assert cs[1..] == rest;
      TailsOfWindows(text, size, overlap, step);
      assert JoinTails(rest, overlap) == text[size..];
      assert text[0..size] + text[size..] == text;
    }
  }

  // ---------------------------------------------------------------------------
  // The medical chunk table

  /** A medical document; `score` is absent until a search stamps it. */
  datatype MedicalDoc = MedicalDoc(content: string, score: Option<int>)

  datatype MedicalChunk = MedicalChunk(text: string, docId: nat, chunkId: nat, source: string)

  const MedicalSource := "medical_data"

  function DocChunks(content: string): seq<string>
  {
    SlidingChunks(content, ChunkSize, ChunkOverlap)
  }

  /** The table rows of document `i`: its chunks in order, numbered from 0. */
  function DocEntries(i: nat, content: string): seq<MedicalChunk>
  {
    var cs := DocChunks(content);
    seq(|cs|, j requires 0 <= j < |cs| => MedicalChunk(cs[j], i, j, MedicalSource))
  }

  /** `prepare_medical_chunks`: the rows of every document, document by document. */
  function MedicalTable(docs: seq<MedicalDoc>): seq<MedicalChunk>
  {
    if docs == [] then []
    else MedicalTable(docs[..|docs| - 1]) + DocEntries(|docs| - 1, docs[|docs| - 1].content)
  }

  /** The number of chunks of all documents together. */
  function TotalChunks(docs: seq<MedicalDoc>): nat
  {
    if docs == [] then 0 else TotalChunks(docs[..|docs| - 1]) + |DocChunks(docs[|docs| - 1].content)|
  }

  /** Row `k` is chunk `j` of document `i`, where `k` counts the chunks of the
      documents before `i` plus `j`; every row points back to its document. */
  lemma {:induction false} MedicalTableRefersBack(docs: seq<MedicalDoc>, k: nat)
    requires k < |MedicalTable(docs)|
    ensures |MedicalTable(docs)| == TotalChunks(docs)
    ensures var e := MedicalTable(docs)[k];
      && e.docId < |docs|
      && e.chunkId < |DocChunks(docs[e.docId].content)|
      && e.text == DocChunks(docs[e.docId].content)[e.chunkId]
      && k == TotalChunks(docs[..e.docId]) + e.chunkId
      && e.source == MedicalSource
    decreases |docs|
  {
    var init := docs[..|docs| - 1];
    var prev := MedicalTable(init);
    MedicalTableSize(init);
    if k < |prev| {
      MedicalTableRefersBack(init, k);
      var e := prev[k];
      assert init[..e.docId] == docs[..e.docId];
    } else {
      assert docs[..|docs| - 1] == init;
    }
  }

  lemma {:induction false} MedicalTableSize(docs: seq<MedicalDoc>)
    ensures |MedicalTable(docs)| == TotalChunks(docs)
    decreases |docs|
  {
    if docs != [] {
      MedicalTableSize(docs[..|docs| - 1]);
    }
  }

  // ---------------------------------------------------------------------------
  // The clinical-trial chunk table

  datatype TrialRecord = TrialRecord(title: string, condition: string, intervention: string, eligibility: string)

  datatype Aspect = TitleAspect | ConditionAspect | InterventionAspect | EligibilityAspect | FullAspect

  datatype TrialChunk = TrialChunk(text: string, aspect: Aspect, trialId: nat, chunkId: nat, source: string)

  const TrialSource := "clinical_trial"

  /** The "full" aspect text of a trial. */
  function FullText(t: TrialRecord): string
  {
    "Title: " + t.title + ". Condition: " + t.condition + ". This trial studies " + t.intervention
    + " for patients with " + t.condition + ". Eligibility criteria: " + t.eligibility
  }

  /** The five rows of trial `i`. */
  function TrialEntries(i: nat, t: TrialRecord): seq<TrialChunk>
  {
    [ TrialChunk("Title: " + t.title, TitleAspect, i, 0, TrialSource),
      TrialChunk("Condition: " + t.condition, ConditionAspect, i, 1, TrialSource),
      TrialChunk("Intervention: " + t.intervention, InterventionAspect, i, 2, TrialSource),
      TrialChunk("Eligibility: " + t.eligibility, EligibilityAspect, i, 3, TrialSource),
      TrialChunk(FullText(t), FullAspect, i, 4, TrialSource) ]
  }

  /** `prepare_clinical_trial_chunks`: five rows per trial, trial by trial. */
  function TrialTable(trials: seq<TrialRecord>): seq<TrialChunk>
  {
    if trials == [] then []
    else TrialTable(trials[..|trials| - 1]) + TrialEntries(|trials| - 1, trials[|trials| - 1])
  }

  /** The table has five rows per trial and row `5 * i + j` is aspect `j` of
      trial `i`, pointing back to it with `trialId == i` and `chunkId == j`. */
  lemma {:induction false} TrialTableLayout(trials: seq<TrialRecord>, i: nat, j: nat)
    requires i < |trials| && j < 5
    ensures |TrialTable(trials)| == 5 * |trials|
    ensures TrialTable(trials)[5 * i + j] == TrialEntries(i, trials[i])[j]
    ensures TrialTable(trials)[5 * i + j].trialId == i && TrialTable(trials)[5 * i + j].chunkId == j
    decreases |trials|
  {
    var init := trials[..|trials| - 1];
    TrialTableSize(init);
    if i < |init| {
      TrialTableLayout(init, i, j);
    }
  }

  lemma {:induction false} TrialTableSize(trials: seq<TrialRecord>)
    ensures |TrialTable(trials)| == 5 * |trials|
    decreases |trials|
  {
    if trials != [] {
      TrialTableSize(trials[..|trials| - 1]);
    }
  }
}
