# MedFlow core in Dafny

MedFlow is a medical assistant. A Next.js chat page collects symptoms and
history and posts them to a FastAPI backend. The backend retrieves medical
documents and clinical trials from two FAISS indices and asks an LLM for an
answer. This project models the sequential logic of four core files and
proves what each promises:

- `FrontEnd/app/page.tsx`: the chat engine. Class `Conversation.HomePage`
  holds the page's React state: transcript, stage, intake answers, records,
  trials, busy flag. Its handlers are methods. A request is split in two:
  `MakeApiCall` sends it and records it as in flight, and `CompleteApiCall`
  folds the `Success(answer, trials)` or `Failure` outcome back in.
- `app/services/faiss_setup.py`: module `FaissChunks` models the sliding-window
  chunker and the two chunk tables. Module `FaissSetup` models what the two
  searches do with the rows FAISS returns: one result per document, the best
  score per trial, a stable sort and the top three. Its class `KnowledgeBase`
  holds the module globals. The searches read FAISS's labels through the
  guard as written, `-1` included. Every property of the searches is
  stated for that guard and for the corrected one, selected by a `Guard`
  argument. Module `ScoreSort` models Python's stable
  descending `sort`.
- `app/services/llm_service.py`: module `LlmService` covers:
  - trial-request detection;
  - condition and medical-term extraction;
  - query expansion;
  - the three-step search cascade, with the search as a parameter;
  - prompt construction.
- `FrontEnd/components/disease-carousel.tsx`: module `DiseaseCarousel` covers
  drag and pagination index arithmetic, the wrapped window of visible cards,
  z-order, and the two ways a card selects its disease: a click on a card's
  wrapper selects only the centre card and only outside a drag, while the
  centre card's "Get research" button selects it whatever the drag state.

Module `TextUtil` holds the shared string vocabulary:
- ASCII lower-casing;
- substring search;
- JavaScript and Python trimming;
- joining, prefix and suffix.

## Model

| member | source | states |
|---|---|---|
| Conversation.BuildPayload | FrontEnd/app/page.tsx:232-245 | the JSON body `makeApiCall` posts for `(symptoms, history)` |
| Conversation.PayloadMeaning | FrontEnd/app/page.tsx:232-245 | history is passed through; `medical_records` is present exactly when the flag is set and the content is non-empty; with records attached the symptoms gain the risk suffix unless they already contain the marker; without records the symptoms are unchanged |
| Conversation.MarkerInSuffix | FrontEnd/app/page.tsx:242-243 | the appended suffix contains the marker phrase the guard looks for |
| Conversation.PayloadRebuildIsStable | FrontEnd/app/page.tsx:242-243 | building a payload again from a built payload's symptoms never adds the suffix a second time |
| Conversation.PayloadAppendsSuffixOnce | FrontEnd/app/page.tsx:240-245 | with records and no marker, the symptoms become exactly `symptoms + suffix` and the records travel |
| Conversation.InquiryCoreStarts | FrontEnd/app/page.tsx:97-105 | the inquiry template starts with a non-blank character, so trimming keeps its opening |
| Conversation.TrialInquiryShapeTypical | FrontEnd/app/page.tsx:97-117 | without records the trimmed inquiry is the trial description followed by the typical-chances clause |
| Conversation.TrialInquiryShapeRecords | FrontEnd/app/page.tsx:97-117 | with non-blank records it is the description, the records clause and the record content without its trailing blanks |
| Conversation.TrialInquiryShapeBlankRecords | FrontEnd/app/page.tsx:108-117 | with blank record content the clause's heading ends the message |
| Conversation.TrialInquiryStartsWithCore | FrontEnd/app/page.tsx:97-117 | every trimmed inquiry begins with the opening and the trial description |
| Conversation.InquiryCoreMentions | FrontEnd/app/page.tsx:97-105 | the template contains the title, condition, intervention, eligibility and the success question |
| Conversation.TrialInquiryMentionsTrial | FrontEnd/app/page.tsx:97-117 | the inquiry contains the title, condition, intervention and eligibility and asks "What are the key factors to make this a success?" |
| Conversation.HomePage.constructor | FrontEnd/app/page.tsx:35-45 | the initial state: empty transcript, stage initial, nothing loaded or in flight |
| Conversation.HomePage.HandleRecordsUploaded | FrontEnd/app/page.tsx:64-77 | sets the content and flag together; appends one notification only to a non-empty transcript; the stage is unchanged |
| Conversation.HomePage.HandleRecordsRemoved | FrontEnd/app/page.tsx:79-92 | clears the content and flag together; appends one notification only to a non-empty transcript; the stage is unchanged |
| Conversation.HomePage.StartConversation | FrontEnd/app/page.tsx:137-160 | the transcript becomes the symptoms question, plus the records note when records are loaded; the stage becomes asking_symptoms |
| Conversation.HomePage.MakeApiCall | FrontEnd/app/page.tsx:227-255 | the page becomes busy and exactly one request carrying `BuildPayload(...)` is added to those in flight; nothing else changes |
| Conversation.HomePage.HandleSendMessage | FrontEnd/app/page.tsx:162-225 | a blank text or a busy page changes nothing and sends nothing; from asking_symptoms: one user message, the symptoms stored, stage asking_history, the history question; from asking_history: the history stored, stage analyzing, one "Analyzing" message, a call with `(userSymptoms, text)`; any other stage: a call with `(text, "")`, stage unchanged |
| Conversation.HomePage.AnswerSymptoms | FrontEnd/app/page.tsx:174-186 | the asking_symptoms branch as a whole new state |
| Conversation.HomePage.AnswerHistory | FrontEnd/app/page.tsx:187-202 | the asking_history branch as a whole new state, and the payload it sends |
| Conversation.HomePage.SendFollowUp | FrontEnd/app/page.tsx:203-216 | the branch of every other stage, including analyzing: the text is sent as symptoms with empty history and the stage stays |
| Conversation.HomePage.HandleDiseaseSelect | FrontEnd/app/page.tsx:303-329 | in initial it only starts the conversation; otherwise it appends the "I'd like to know more about" user message and the analyzing message and sends that text with empty history |
| Conversation.HomePage.HandleViewTrialDetails | FrontEnd/app/page.tsx:95-134 | appends the trimmed inquiry and the analyzing message, and sends the untrimmed inquiry as symptoms with empty history |
| Conversation.HomePage.PostInquiry | FrontEnd/app/page.tsx:115-130 | the two messages the trial inquiry appends |
| Conversation.HomePage.CompleteApiCall | FrontEnd/app/page.tsx:263-300 | exactly one bot message and the page no longer busy for that request; success: the answer text, the trial list replaced (showTrials iff non-empty), stage followup; failure: the fixed error text, trials and stage untouched |
| FaissChunks.StalledLoopNeverEnds | app/services/faiss_setup.py:63-74 | with `chunk_size <= overlap` and a text longer than one chunk, `start` stays at or below 0 after every round, so the loop never exits |
| FaissChunks.LoopStartAdvances | app/services/faiss_setup.py:63-74 | with `overlap < chunk_size` the start after `k` rounds is at least `k`, so the loop exits |
| FaissChunks.CreateChunksFromText | app/services/faiss_setup.py:58-76 | the loop with its early `break` yields exactly the sliding-window chunks |
| FaissChunks.WindowAt | app/services/faiss_setup.py:64-71 | the i-th window starts i steps after the first and is cut at the end of the text |
| FaissChunks.WindowCount | app/services/faiss_setup.py:65-74 | the loop runs until the first step that reaches past the text |
| FaissChunks.ChunkAt | app/services/faiss_setup.py:63-71 | chunk i is `text[i*(size-overlap) : min(i*(size-overlap)+size, len)]` |
| FaissChunks.ChunkCount | app/services/faiss_setup.py:65-76 | a text longer than one chunk gives `ceil(len / (size-overlap))` chunks |
| FaissChunks.WindowBounded | app/services/faiss_setup.py:66-70 | every window is at most the chunk size long |
| FaissChunks.ChunkBounded | app/services/faiss_setup.py:66-70 | no chunk is longer than the chunk size |
| FaissChunks.SingleChunkIff | app/services/faiss_setup.py:60-61 | the result is `[text]` exactly when the text fits in one chunk, the empty text included |
| FaissChunks.TailsOfWindows | app/services/faiss_setup.py:63-76 | the windows' tails past the overlap join up to the rest of the text |
| FaissChunks.RebuildChunks | app/services/faiss_setup.py:63-76 | the first chunk followed by every later chunk minus its first `overlap` characters rebuilds the text |
| FaissChunks.MedicalTableRefersBack | app/services/faiss_setup.py:82-98 | every row is chunk `j` of document `i`, numbered from 0 in document order, and carries that chunk's text |
| FaissChunks.MedicalTableSize | app/services/faiss_setup.py:82-98 | the table length is the sum of the per-document chunk counts |
| FaissChunks.TrialTableLayout | app/services/faiss_setup.py:104-132 | row `5i+j` is aspect `j` (title, condition, intervention, eligibility, full) of trial `i`, with `trial_id = i` and `chunk_id = j` |
| FaissChunks.TrialTableSize | app/services/faiss_setup.py:104-132 | five rows per trial |
| ScoreSort.Take | app/services/faiss_setup.py:348 | `s[:n]` is the prefix of `s` of length `min(n, len(s))` |
| ScoreSort.TakeTop | app/services/faiss_setup.py:345-348 | the first `n` of the descending sort are the top `n`: `min(n, len)` of the elements, a sub-multiset, non-increasing, and no element left out has a higher key than any kept |
| ScoreSort.InsertPermutes | app/services/faiss_setup.py:302 | one insertion step adds exactly the inserted element |
| ScoreSort.InsertSorted | app/services/faiss_setup.py:302 | one insertion step keeps the order |
| ScoreSort.InsertWithKey | app/services/faiss_setup.py:302 | an inserted element goes in front of the elements with its own key |
| ScoreSort.SortDescSorted | app/services/faiss_setup.py:302 | the sort gives a non-increasing permutation of its input |
| ScoreSort.SortDescStable | app/services/faiss_setup.py:345 | for every key, the elements carrying it keep their input order |
| FaissSetup.MissingHitReadsLastRow | app/services/faiss_setup.py:289-290 | as written, FAISS's -1 label passes the guard and reads the last row |
| FaissSetup.ResolveHitCorrects | app/services/faiss_setup.py:289-290 | the corrected reading agrees on every real position and turns -1 into no hit |
| FaissSetup.ReadAsWritten | app/services/faiss_setup.py:289-290 | a label below the table length reads the row Python's indexing picks, counting a negative label from the end; any other label reads nothing |
| FaissSetup.RealHitsOfReal | app/services/faiss_setup.py:283 | an answer without -1 labels is its own real part |
| FaissSetup.MedicalPicks | app/services/faiss_setup.py:286-299 | under either guard, the kept documents exist and none is kept twice |
| FaissSetup.MedicalPicksKeeps | app/services/faiss_setup.py:288-299 | under either guard, a hit whose label reads a chunk of an existing document not yet kept appends that document with the hit's score; as written this includes a -1 label reading the last chunk |
| FaissSetup.MedicalPicksSkips | app/services/faiss_setup.py:288-299 | under either guard, a hit whose label reads no chunk, or a chunk of a kept or missing document, changes nothing |
| FaissSetup.MissingHitKeepsLastDoc | app/services/faiss_setup.py:288-299 | the answer `[-1]` keeps the last chunk's document with the padding's score as written, and nothing when corrected |
| FaissSetup.CorrectedPicksIgnoreMissing | app/services/faiss_setup.py:288-299 | the corrected medical search equals the search as written run on the hits without -1 labels |
| FaissSetup.PickedDocsAppend | app/services/faiss_setup.py:295 | keeping one more document adds its id to the seen set |
| FaissSetup.KeepFirstHits | app/services/faiss_setup.py:286-299 | the loop, with the guard `idx < len` and Python's negative indexing, leaves the documents stamped with the first-hit scores of the kept ones and returns the kept documents in hit order, as `MedicalPicks` with the guard as written gives them |
| FaissSetup.PickIsFirstHit | app/services/faiss_setup.py:294-298 | under either guard, a kept document carries the score of its first hit, and no earlier hit landed on it |
| FaissSetup.PickCoversHit | app/services/faiss_setup.py:294-299 | under either guard, every hit on an existing document has that document kept |
| FaissSetup.Stamp | app/services/faiss_setup.py:298 | stamping scores keeps the number of documents |
| FaissSetup.StampElsewhere | app/services/faiss_setup.py:298 | documents that were not kept are left alone |
| FaissSetup.KeepOneMore | app/services/faiss_setup.py:295-299 | keeping one more document stamps its score and appends it to the results |
| FaissSetup.MedicalResultMeaning | app/services/faiss_setup.py:286-305 | under either guard, the result is ordered by non-increasing score, is a permutation of the kept documents, and includes every existing document a hit reads |
| FaissSetup.BestScoresAreMaxima | app/services/faiss_setup.py:325-334 | under either guard, the score dict has distinct keys, exactly the trials the hits read, and no hit's score exceeds its trial's entry |
| FaissSetup.BestScoreAttained | app/services/faiss_setup.py:331-334 | under either guard, a trial's entry is the score of one of the hits that read it |
| FaissSetup.MissingHitScoresLastTrial | app/services/faiss_setup.py:326-334 | the answer `[-1]` gives the last chunk's trial an entry with the padding's score as written, and an empty dict when corrected |
| FaissSetup.CorrectedScoresIgnoreMissing | app/services/faiss_setup.py:326-334 | the corrected score dict equals the one as written built from the hits without -1 labels |
| FaissSetup.GuardsAgreeOnRealHits | app/services/faiss_setup.py:288-334 | when no label is -1 both guards give the same kept documents and the same score dict |
| FaissSetup.BestScoreLoop | app/services/faiss_setup.py:325-334 | the loop, with the guard `idx < len` and Python's negative indexing, builds the dict `BestScores` with the guard as written, keys in insertion order, each with a value |
| FaissSetup.CopyScoredTrials | app/services/faiss_setup.py:337-342 | the loop over the dict copies each existing trial with its score, in key order |
| FaissSetup.KeptIds | app/services/faiss_setup.py:338-339 | the second loop keeps exactly the dict's ids that are existing trials, none twice |
| FaissSetup.TrialResultsComplete | app/services/faiss_setup.py:337-341 | every existing trial in the dict becomes a result carrying its dict score |
| FaissSetup.TrialResultMeaning | app/services/faiss_setup.py:337-348 | under either guard, the top three of the second loop's results: `min(3, n)` of them, by non-increasing score, none of the others scoring higher; and every existing trial a hit reads is among those results with its best score |
| FaissSetup.TrialResultsAreBest | app/services/faiss_setup.py:325-342 | under either guard, each result is the copy of an existing trial a hit read, with the best score among those hits, and no trial comes twice |
| FaissSetup.KnowledgeBase.constructor | app/services/faiss_setup.py:9-14 | documents loaded, tables empty, no index built |
| FaissSetup.KnowledgeBase.PrepareMedicalChunks | app/services/faiss_setup.py:78-98 | the medical table is rebuilt from scratch as `MedicalTable(docs)` and returned |
| FaissSetup.KnowledgeBase.PrepareClinicalTrialChunks | app/services/faiss_setup.py:100-132 | the trial table is rebuilt from scratch as `TrialTable(trials)` and returned |
| FaissSetup.KnowledgeBase.SearchMedicalKnowledge | app/services/faiss_setup.py:268-305 | [] and nothing changed when no index or no chunks; otherwise the documents kept under the guard as written get their first hit's score stamped in place and are returned sorted |
| FaissSetup.KnowledgeBase.SearchClinicalTrials | app/services/faiss_setup.py:307-348 | [] when no index or no chunks; otherwise the top three of the best-score results under the guard as written, sorted |
| TextUtil.Lower | app/services/llm_service.py:27 | lower-casing keeps the length and maps each character on its own |
| TextUtil.LowerIdempotent | app/services/llm_service.py:27 | lowering twice is lowering once |
| TextUtil.Find | app/services/llm_service.py:54-55 | `str.find`: an occurrence with none before it, or -1 when there is none |
| TextUtil.TrimClean | FrontEnd/app/page.tsx:117 | a trimmed text neither starts nor ends with a blank |
| TextUtil.BlankIffAllSpace | FrontEnd/app/page.tsx:163 | a text trims to "" exactly when every character is a blank |
| TextUtil.Join | app/services/llm_service.py:92 | `" ".join` of no parts is empty and of one part is that part |
| TextUtil.JoinCons | app/services/llm_service.py:92 | joining a first part before at least one more gives that part, the separator, then the join of the rest, so parts are separated by exactly one separator each, in order |
| LlmService.FirstContained | app/services/llm_service.py:27-30 | the first listed word the text contains, or none when it contains none |
| LlmService.TermsForStep | app/services/llm_service.py:73-80 | one more pattern adds its context exactly when it occurs |
| LlmService.ExtractMedicalTerms | app/services/llm_service.py:61-83 | the loop computes `MedicalTerms(query)` |
| LlmService.TermsForCount | app/services/llm_service.py:72-80 | at most one term per pattern |
| LlmService.TermsForEmptyIff | app/services/llm_service.py:72-83 | no terms exactly when no pattern occurs in the lowered query |
| LlmService.ContextStripped | app/services/llm_service.py:76-79 | the window of up to 20 characters either side of a match, once stripped, neither starts nor ends with a blank |
| LlmService.TermsForClean | app/services/llm_service.py:72-80 | every term neither starts nor ends with a blank |
| LlmService.AnyContainedIff | app/services/llm_service.py:27-30 | the keyword scan finds a word exactly when some listed word occurs |
| LlmService.MedicalTermsMeaning | app/services/llm_service.py:64-83 | at most 20 terms; none exactly when no pattern occurs in the lowered query; each is stripped |
| LlmService.CheckForClinicalTrialRequest | app/services/llm_service.py:17-38 | the keyword loop with its early return computes `IsClinicalTrialRequest(query)` |
| LlmService.TrialRequestIgnoresCase | app/services/llm_service.py:27-35 | the answer is the same for a query and its lowered form |
| LlmService.TrialRequestMeaning | app/services/llm_service.py:20-38 | any listed keyword makes it a request; otherwise it is one iff a medical term exists and a treatment word occurs |
| LlmService.ConditionWindowMeaning | app/services/llm_service.py:53-56 | the window around an occurrence contains the condition, is at most 20 characters longer, and is lowercase |
| LlmService.ExtractConditionFromQuery | app/services/llm_service.py:40-59 | the loop with its early return computes `ExtractCondition(query)` |
| LlmService.FirstWindowMeaning | app/services/llm_service.py:54-56 | `p = find(c)` is the first occurrence of `c`, the window is `s[max(0, p-10) : min(len, p+len(c)+10)]`, contains `c`, is at most 20 characters longer and lower-case when `s` is |
| LlmService.ExtractConditionMeaning | app/services/llm_service.py:43-59 | the query unchanged when no listed condition occurs in the lowered query; otherwise `c` is the first listed condition that occurs, no earlier one occurs, `p` is its first occurrence, and the result is the window at `p`, lower-case, containing `c` and at most 20 characters longer |
| LlmService.ExpandQueryMeaning | app/services/llm_service.py:85-93 | the query is always a prefix; unchanged iff there are no terms; otherwise a space follows it |
| LlmService.Words | app/services/llm_service.py:113 | every word is a non-empty run of word characters; `WordsMeaning` gives the full characterisation |
| LlmService.WordsMeaning | app/services/llm_service.py:113 | the words are exactly the maximal runs of word characters, in order: none iff the text has no word character, each bounded by a non-word character or the text's edge, runs disjoint and ordered, every word character in one |
| LlmService.LongWords | app/services/llm_service.py:114 | exactly the words longer than 3 are kept |
| LlmService.CascadeCallsMeaning | app/services/llm_service.py:95-120 | one to three searches, every one but the last finding nothing: first the expanded query with `2*max_trials`; the joined terms exactly as the second search when the first is empty and terms exist, and otherwise only the long words may follow; a found first search ends the cascade; without long words at most two searches; a third search is the long words; when the last search found nothing and long words exist, that last search is the long words, so the long words are tried exactly when the search before them found nothing |
| LlmService.FindClinicalTrials | app/services/llm_service.py:95-120 | the searches made are `CascadeCalls` of the expanded query, the medical terms and the long words of the lowered query; the result is the first `max_trials` of the last search, so at most `max_trials` |
| LlmService.ConstructPrompt | app/services/llm_service.py:185-213 | the `+=` chain computes `Prompt(query, docs, trials)` |
| LlmService.AppendDocLines | app/services/llm_service.py:191-193 | the loop over the documents appends exactly `AddDocLines(start, docs)` |
| LlmService.AppendTrialBlocks | app/services/llm_service.py:197-206 | the loop over the trials appends exactly `AddTrialBlocks(start, trials)` |
| LlmService.AddDocLinesExtends | app/services/llm_service.py:192-193 | the document lines only extend the prompt |
| LlmService.AddTrialBlocksExtends | app/services/llm_service.py:199-206 | the trial blocks only extend the prompt |
| LlmService.DocLineMentions | app/services/llm_service.py:193 | a document line carries the document's content |
| LlmService.TrialBlockMentions | app/services/llm_service.py:200-203 | a trial block carries the title, condition, intervention and eligibility |
| LlmService.PromptLayers | app/services/llm_service.py:187-211 | each section only extends what came before |
| LlmService.PromptShape | app/services/llm_service.py:187-211 | starts with "Question: {query}\n\n"; with context, the medical heading and line "1. …" follow the question; with trials, the trials heading and the first title follow the context section (or the question); without trials the prompt is the context section plus the instruction; ends with the instruction plus the trial sentence iff trials are given |
| LlmService.PromptMentions | app/services/llm_service.py:190-206 | every document's content and every trial's four fields appear in the prompt |
| LlmService.DocLinesNumbered | app/services/llm_service.py:191-193 | the context section is the documents' lines numbered from 1, in order |
| DiseaseCarousel.DiseaseIds | FrontEnd/components/disease-carousel.tsx:9-45 | seven diseases with ids 1 to 7, none listed twice |
| DiseaseCarousel.DragTargetMeaning | FrontEnd/components/disease-carousel.tsx:80-86 | the index stays in range and moves exactly when the offset is beyond ±50, so exactly ±50 keeps it |
| DiseaseCarousel.DragsCancel | FrontEnd/components/disease-carousel.tsx:81-85 | a left drag and a right drag undo each other in either order |
| DiseaseCarousel.CardsAroundLayout | FrontEnd/components/disease-carousel.tsx:95-108 | `count` cards at positions `-half..` in increasing order; position `p` shows entry `(current + p) mod n` |
| DiseaseCarousel.CardsAroundCentre | FrontEnd/components/disease-carousel.tsx:97-135 | the middle card is the current entry and has the highest z-index |
| DiseaseCarousel.CardsAroundDistinct | FrontEnd/components/disease-carousel.tsx:99-106 | no entry is shown twice when the window is no wider than a list without repeats |
| DiseaseCarousel.VisibleCardsMeaning | FrontEnd/components/disease-carousel.tsx:90-111 | 3 cards on mobile and 5 otherwise at positions `-half..half`; position `p` is `diseases[(currentIndex + p) mod 7]`; the centre is the current disease and is drawn on top |
| DiseaseCarousel.VisibleCardsDistinct | FrontEnd/components/disease-carousel.tsx:99-106 | no disease is shown twice |
| DiseaseCarousel.Carousel.constructor | FrontEnd/components/disease-carousel.tsx:52-54 | first slide, not mobile, not dragging |
| DiseaseCarousel.Carousel.CheckMobile | FrontEnd/components/disease-carousel.tsx:62-73 | mobile exactly when the width is below 768 |
| DiseaseCarousel.Carousel.HandleDragStart | FrontEnd/components/disease-carousel.tsx:124 | a drag is in progress |
| DiseaseCarousel.Carousel.HandleDragEnd | FrontEnd/components/disease-carousel.tsx:76-87 | dragging stops and the index becomes `DragTarget(old index, offset)`, still in range |
| DiseaseCarousel.Carousel.GoToSlide | FrontEnd/components/disease-carousel.tsx:187-190 | a pagination dot sets the index to its own, in range |
| DiseaseCarousel.Carousel.ClickCard | FrontEnd/components/disease-carousel.tsx:171-175 | a click on a card's wrapper selects a disease iff the card is the centre one and no drag is in progress, and then it is the current disease's name |
| DiseaseCarousel.Carousel.ClickGetResearch | FrontEnd/components/disease-card.tsx:42-56 | the "Get research" button exists only on the active (centre) card, and pressing it selects the current disease's name whether or not a drag is in progress |

## Left out

- Rendering, animation and styling. This covers the JSX of the page and the
  chat, trial and disease cards, and the carousel's scale, opacity and x/y
  offsets. These are presentation only and use fractional values.
- `setTimeout` delays, scrolling and focus. The delayed callbacks run right
  after their handler, so only the order of appended messages is modelled.
- `isExpanded`, `newMessage` and the input box. The text sent is a parameter.
- `fetch`, `response.json()` and the `console.log` calls in `makeApiCall`.
  These are network I/O; the outcome is an input.
- The medical record uploader component. It is file I/O; the engine only
  receives the content string.
- Message-id uniqueness. Ids come from a captured `messages.length`, can
  collide, and are modelled as written.
- Embedding, FAISS index building and search, `normalize_vectors`, JSON
  loading, `build_indices`, `get_indices_status`. These are I/O and floating
  point; a search takes the `(index, score)` rows FAISS returned.
- `process_medical_query` and `ensure_indices_built`. These are the LLM call
  and import-time globals.
- The FastAPI routers, app wiring, settings and the live-HTTP test script.
  These are HTTP plumbing.
- The server-side handling of `medical_records`. The request schema has no
  such field.
- Scores are integers standing for FAISS's floats.
- The disease descriptions in the carousel data are display text. The model
  keeps only each disease's id and name.
- The carousel's resize listener and its cleanup. `CheckMobile` models the
  comparison it runs.
- Reading an empty chunk table. Python raises `IndexError` for `-1` there,
  but both searches return before reading an empty table
  (app/services/faiss_setup.py:272, 311), so the model reads nothing.
- The score a medical search writes into a shared document dict is modelled
  on a sequence of values that the search replaces. Aliasing between that
  list and the returned results is not captured.
- `TextUtil.Lower`: ASCII case folding only. Python's `lower()` and
  JavaScript's `toLowerCase()` also fold non-ASCII letters.
- `LlmService.Words`: `\w` is taken as ASCII letters, digits and `_`.
  Python's default Unicode `\w` matches more characters.
- `LlmService.ConstructPrompt`: the `:.2f` score formatting is a function
  parameter `formatScore`. `'score' in trial` is taken as always true,
  because every trial from the trial search carries a score.
- `ScoreSort.SortDescStable`: stability is stated per key, as equal-key
  subsequences. It is not stated as a single permutation that preserves
  order.

The code differs from its specification in these places. The model follows
the code:

- A failed call does not reset the stage (FrontEnd/app/page.tsx:287-297).
- A send in the analyzing stage is not blocked. It takes the follow-up
  branch; only `isLoading` blocks sends.
- The "results" stage is declared but never entered.
  `HomePage.Valid` keeps it out.
- A follow-up send, a disease selection and a trial inquiry do not enter
  the analyzing stage: the stage stays where it was, usually followup
  (FrontEnd/app/page.tsx:203-216, 303-329, 95-134).
- The trial inquiry shown in the transcript is trimmed. The text sent to
  the server is the untrimmed template (FrontEnd/app/page.tsx:117, 132).

## Findings

The searches of `KnowledgeBase` keep the guards as written. The corrected
guard is the `Corrected` value of `Guard`, and every property of the
searches is proved for it as well.

| source | as written | input that shows it | evidently intended | confidence | as-written member | corrected member |
|---|---|---|---|---|---|---|
| app/services/faiss_setup.py:289 | `if idx < len(medical_chunks)` accepts FAISS's -1 "no result" label, and Python's negative indexing then reads the last chunk | an index holding fewer vectors than `k`, so FAISS pads its answer with `-1`: that row is counted as a hit on the last chunk's document with a meaningless score | only `0 <= idx < len(chunks)` is a hit | not executed | FaissSetup.MissingHitKeepsLastDoc | FaissSetup.CorrectedPicksIgnoreMissing |
| app/services/faiss_setup.py:327 | `if idx < len(clinical_trial_chunks)` accepts the -1 label and reads the last chunk's trial | an index holding fewer vectors than `k`: the last chunk's trial gets a dict entry, and can reach the top three, with the padding's score | only `0 <= idx < len(chunks)` is a hit | not executed | FaissSetup.MissingHitScoresLastTrial | FaissSetup.CorrectedScoresIgnoreMissing |
| app/services/faiss_setup.py:71 | `start += (chunk_size - overlap)` never moves forward when `chunk_size <= overlap`, and the loop only ends once `start` reaches the end | `create_chunks_from_text("x" * 300, 100, 100)`: the loop does not return. Every caller passes the defaults 200 and 50, so the application never does this | the overlap is below the chunk size | not executed | FaissChunks.StalledLoopNeverEnds | FaissChunks.LoopStartAdvances |
