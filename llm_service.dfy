/** Query analysis and prompt building of app/services/llm_service.py:
    detecting a request for clinical trials, cutting a condition window out
    of the query, collecting medical-term contexts, expanding the query, the
    three-step trial search and the prompt text. Case folding is ASCII and
    every pattern is a plain literal, so a regular-expression search is a
    substring search. */
module LlmService {
  import opened TextUtil
  import opened FaissChunks
  import opened FaissSetup
  import opened ScoreSort

  // ---------------------------------------------------------------------------
  // Word lists

  const TrialKeywords: seq<string> := [
    "clinical trial", "clinical trials", "trials", "trial", "study", "studies",
    "research study", "research trial", "participating", "participate in",
    "enroll in", "treatment option", "experimental treatment"]

  const TreatmentWords: seq<string> := ["treatment", "medication", "therapy", "options"]

  const Conditions: seq<string> := [
    "diabetes", "hypertension", "blood pressure", "cancer", "arthritis",
    "asthma", "heart disease", "obesity", "depression", "anxiety",
    "alzheimer", "parkinson", "stroke", "copd", "allergies"]

  const ConditionPatterns: seq<string> := Conditions + [
    "pain", "infection", "disease", "disorder", "syndrome"]

  /** The position in `words` of the first word occurring in `s`, as the
      early-return loops over a word list find it. */
  function FirstContained(s: string, words: seq<string>): (r: Option<nat>)
    ensures r.Some? ==> r.value < |words| && Contains(s, words[r.value])
    ensures forall i :: 0 <= i < |words| && (r.None? || i < r.value) ==> !Contains(s, words[i])
  {
    if words == [] then None
    else if Contains(s, words[0]) then Some(0)
    else match FirstContained(s, words[1..])
      case None => None
      case Some(k) => Some(k + 1)
  }

  /** The position a loop stops at is the first contained word. */
  lemma FirstContainedAt(s: string, words: seq<string>, i: nat)
    requires i < |words| && Contains(s, words[i])
    requires forall j :: 0 <= j < i ==> !Contains(s, words[j])
    ensures FirstContained(s, words) == Some(i)
  {
  }

  /** A loop that finds nothing leaves nothing to find. */
  lemma FirstContainedNone(s: string, words: seq<string>)
    requires forall j :: 0 <= j < |words| ==> !Contains(s, words[j])
    ensures FirstContained(s, words) == None
  {
  }

  predicate AnyContained(s: string, words: seq<string>)
  {
    FirstContained(s, words).Some?
  }

  // ---------------------------------------------------------------------------
  // Medical-term contexts

  /** The stripped window of `query` from 20 characters before a match of
      length `len` at `m` to 20 characters after it. */
  function ContextAround(query: string, m: nat, len: nat): string
    requires m + len <= |query|
  {
    Trim(query[Max(0, m - 20)..Min(|query|, m + len + 20)], IsPySpace)
  }

  /** The context of the first match of `pattern` in the lowered query. */
  function TermContext(query: string, pattern: string): string
    requires Contains(Lower(query), pattern)
  {
    ContextAround(query, Find(Lower(query), pattern), |pattern|)
  }

  /** One context per pattern that occurs, in pattern order. */
  function TermsFor(query: string, patterns: seq<string>): seq<string>
  {
    if patterns == [] then []
    else
      var last := patterns[|patterns| - 1];
      TermsFor(query, patterns[..|patterns| - 1])
      + (if Contains(Lower(query), last) then [TermContext(query, last)] else [])
  }

  /** The terms `extract_medical_terms(query)` returns. */
  function MedicalTerms(query: string): seq<string>
  {
    TermsFor(query, ConditionPatterns)
  }

  lemma TermsForStep(query: string, patterns: seq<string>, i: nat)
    requires i < |patterns|
    ensures TermsFor(query, patterns[..i + 1]) == TermsFor(query, patterns[..i])
      + (if Contains(Lower(query), patterns[i]) then [TermContext(query, patterns[i])] else [])
  {
    assert patterns[..i + 1][..i] == patterns[..i];
  }

  /** `extract_medical_terms(query)`: one stripped context per condition
      pattern found in the lowered query. */
  method ExtractMedicalTerms(query: string) returns (terms: seq<string>)
    ensures terms == MedicalTerms(query)
  {
    var medicalPatterns := ConditionPatterns;
    terms := [];
    var queryLower := Lower(query);
    var i := 0;
    while i < |medicalPatterns|
      invariant 0 <= i <= |medicalPatterns|
      invariant terms == TermsFor(query, medicalPatterns[..i])
    {
      var pattern := medicalPatterns[i];
      var m := Find(queryLower, pattern);
      if m >= 0 {
        var context := ContextAround(query, m, |pattern|);
        terms := terms + [context];
      }
      TermsForStep(query, medicalPatterns, i);
      i := i + 1;
    }
    assert medicalPatterns[..i] == medicalPatterns;
  }

  /** Some listed word occurs exactly when a first one is found. */
  lemma AnyContainedIff(s: string, words: seq<string>)
    ensures AnyContained(s, words) <==> exists i :: 0 <= i < |words| && Contains(s, words[i])
  {
    if AnyContained(s, words) {
      var k := FirstContained(s, words).value;
      assert 0 <= k < |words| && Contains(s, words[k]);
    }
  }

  /** At most one context per pattern. */
  lemma {:induction false} TermsForCount(query: string, patterns: seq<string>)
    ensures |TermsFor(query, patterns)| <= |patterns|
    decreases |patterns|
  {
    if patterns != [] {
      TermsForCount(query, patterns[..|patterns| - 1]);
    }
  }

  /** No context at all exactly when no pattern occurs in the lowered query. */
  lemma {:induction false} TermsForEmptyIff(query: string, patterns: seq<string>)
    ensures TermsFor(query, patterns) == [] <==>
      forall i :: 0 <= i < |patterns| ==> !Contains(Lower(query), patterns[i])
    decreases |patterns|
  {
    if patterns != [] {
      var init := patterns[..|patterns| - 1];
      TermsForEmptyIff(query, init);
      assert forall i :: 0 <= i < |init| ==> init[i] == patterns[i];
    }
  }

  /** Neither starts nor ends with a blank, as `str.strip()` leaves a text. */
  predicate Stripped(t: string)
  {
    t == [] || (!IsPySpace(t[0]) && !IsPySpace(t[|t| - 1]))
  }

  lemma ContextStripped(query: string, m: nat, len: nat)
    requires m + len <= |query|
    ensures Stripped(ContextAround(query, m, len))
  {
    TrimClean(query[Max(0, m - 20)..Min(|query|, m + len + 20)], IsPySpace);
  }

  /** No context starts or ends with a blank. */
  lemma {:induction false} TermsForClean(query: string, patterns: seq<string>)
    ensures forall k :: 0 <= k < |TermsFor(query, patterns)| ==> Stripped(TermsFor(query, patterns)[k])
    decreases |patterns|
  {
    if patterns != [] {
      var init := patterns[..|patterns| - 1];
      var last := patterns[|patterns| - 1];
      var prev := TermsFor(query, init);
      TermsForClean(query, init);
      if Contains(Lower(query), last) {
        var t := TermContext(query, last);
        ContextStripped(query, Find(Lower(query), last), |last|);
        assert TermsFor(query, patterns) == prev + [t];
      } else {
        assert TermsFor(query, patterns) == prev;
      }
    }
  }

  /** At most twenty terms, each without surrounding blanks; none exactly when
      no condition pattern occurs in the lowered query. */
  lemma MedicalTermsMeaning(query: string)
    ensures |MedicalTerms(query)| <= 20
    ensures MedicalTerms(query) == [] <==> !AnyContained(Lower(query), ConditionPatterns)
    ensures forall k :: 0 <= k < |MedicalTerms(query)| ==> Stripped(MedicalTerms(query)[k])
  {
    TermsForCount(query, ConditionPatterns);
    TermsForEmptyIff(query, ConditionPatterns);
    AnyContainedIff(Lower(query), ConditionPatterns);
    TermsForClean(query, ConditionPatterns);
  }

  // ---------------------------------------------------------------------------
  // Trial-request detection and the condition window

  /** `check_for_clinical_trial_request`: a trial keyword in the lowered
      query, or a medical term together with a treatment word. */
  predicate IsClinicalTrialRequest(query: string)
  {
    var queryLower := Lower(query);
    AnyContained(queryLower, TrialKeywords)
    || (MedicalTerms(query) != [] && AnyContained(queryLower, TreatmentWords))
  }

  /** The keyword loop with its early return, then the implicit request. */
  method CheckForClinicalTrialRequest(query: string) returns (isRequest: bool)
    ensures isRequest == IsClinicalTrialRequest(query)
  {
    var trialKeywords := TrialKeywords;
    var queryLower := Lower(query);
    var i := 0;
    while i < |trialKeywords|
      invariant 0 <= i <= |trialKeywords|
      invariant forall j :: 0 <= j < i ==> !Contains(queryLower, trialKeywords[j])
    {
      if Contains(queryLower, trialKeywords[i]) {
        return true;
      }
      i := i + 1;
    }
    var medicalTerms := ExtractMedicalTerms(query);
    isRequest := medicalTerms != [] && AnyContained(queryLower, TreatmentWords);
  }

  /** The answer does not depend on letter case. */
  lemma TrialRequestIgnoresCase(query: string)
    ensures IsClinicalTrialRequest(query) == IsClinicalTrialRequest(Lower(query))
  {
    LowerIdempotent(query);
    MedicalTermsMeaning(query);
    MedicalTermsMeaning(Lower(query));
  }

  /** Any listed keyword anywhere in the query, in any letter case, makes it a
      trial request; without one, it is a request exactly when a condition
      pattern and a treatment word both occur. */
  lemma TrialRequestMeaning(query: string)
    ensures (exists i :: 0 <= i < |TrialKeywords| && Contains(Lower(query), TrialKeywords[i]))
            ==> IsClinicalTrialRequest(query)
    ensures !AnyContained(Lower(query), TrialKeywords) ==>
      (IsClinicalTrialRequest(query) <==>
        AnyContained(Lower(query), ConditionPatterns) && AnyContained(Lower(query), TreatmentWords))
  {
    MedicalTermsMeaning(query);
  }

  /** The window of `s` from 10 characters before an occurrence of
      `condition` at `p` to 10 characters after it. */
  function ConditionWindow(s: string, condition: string, p: nat): string
    requires p + |condition| <= |s|
  {
    s[Max(0, p - 10)..Min(|s|, p + |condition| + 10)]
  }

  /** The window holds the condition, is at most 20 characters longer, and
      is lower-case when `s` is. */
  lemma ConditionWindowMeaning(s: string, condition: string, p: nat)
    requires OccursAt(s, condition, p)
    ensures Contains(ConditionWindow(s, condition, p), condition)
    ensures |ConditionWindow(s, condition, p)| <= |condition| + 20
    ensures IsLower(s) ==> IsLower(ConditionWindow(s, condition, p))
  {
    var a := Max(0, p - 10);
    var b := Min(|s|, p + |condition| + 10);
    var w := ConditionWindow(s, condition, p);
    assert w == s[a..b];
    assert a <= p && p + |condition| <= b;
    assert OccursAt(w, condition, p - a) by {
      SliceOfSlice(s, a, b, p - a, p - a + |condition|);
    }
    ContainsAt(w, condition, p - a);
    if IsLower(s) {
      assert forall i :: 0 <= i < |w| ==> w[i] == s[a + i];
    }
  }

  /** `extract_condition_from_query`: the window around the first listed
      condition found in the lowered query, or the query itself. */
  function ExtractCondition(query: string): string
  {
    var queryLower := Lower(query);
    match FirstContained(queryLower, Conditions)
    case None => query
    case Some(k) => ConditionWindow(queryLower, Conditions[k], Find(queryLower, Conditions[k]))
  }

  /** The loop over the listed conditions with its early return. */
  method ExtractConditionFromQuery(query: string) returns (condition: string)
    ensures condition == ExtractCondition(query)
  {
    var conditions := Conditions;
    var queryLower := Lower(query);
    var i := 0;
    while i < |conditions|
      invariant 0 <= i <= |conditions|
      invariant forall j :: 0 <= j < i ==> !Contains(queryLower, conditions[j])
    {
      var c := conditions[i];
      if Contains(queryLower, c) {
        FirstContainedAt(queryLower, conditions, i);
        return ConditionWindow(queryLower, c, Find(queryLower, c));
      }
      i := i + 1;
    }
    FirstContainedNone(queryLower, conditions);
    return query;
  }

  /** The window at the first occurrence of `c` in `s`: `p` is that
      occurrence, the window runs from 10 characters before it to 10
      characters after `c`, and it has the properties of any window. */
  lemma FirstWindowMeaning(s: string, c: string)
    requires Contains(s, c)
    ensures var p := Find(s, c);
      var w := ConditionWindow(s, c, p);
      && 0 <= p && OccursAt(s, c, p)
      && (forall q :: 0 <= q < p ==> !OccursAt(s, c, q))
      && w == s[Max(0, p - 10)..Min(|s|, p + |c| + 10)]
      && (IsLower(s) ==> IsLower(w))
      && Contains(w, c)
      && |w| <= |c| + 20
  {
    ConditionWindowMeaning(s, c, Find(s, c));
  }

  /** Without a listed condition the query comes back unchanged. Otherwise
      `c` is the first listed condition that occurs in the lowered query, `p`
      its first occurrence, and the result is the lowered query from 10
      characters before `p` to 10 characters after the condition, cut at the
      ends; it is lower-case, contains `c` and is at most 20 characters
      longer. */
  lemma ExtractConditionMeaning(query: string)
    ensures !AnyContained(Lower(query), Conditions) ==> ExtractCondition(query) == query
    ensures AnyContained(Lower(query), Conditions) ==>
      var ql := Lower(query);
      var k := FirstContained(ql, Conditions).value;
      var c := Conditions[k];
      var p := Find(ql, c);
      var r := ExtractCondition(query);
      && (forall k' :: 0 <= k' < k ==> !Contains(ql, Conditions[k']))
      && 0 <= p && OccursAt(ql, c, p)
      && (forall q :: 0 <= q < p ==> !OccursAt(ql, c, q))
      && r == ConditionWindow(ql, c, p)
      && IsLower(r)
      && Contains(r, c)
      && |r| <= |c| + 20
  {
    var ql := Lower(query);
    if AnyContained(ql, Conditions) {
      var k := FirstContained(ql, Conditions).value;
      var c := Conditions[k];
      LowerIsLower(query);
      FirstWindowMeaning(ql, c);
      assert ExtractCondition(query) == ConditionWindow(ql, c, Find(ql, c));
    }
  }

  // ---------------------------------------------------------------------------
  // Query expansion and the trial search cascade

  /** `expand_query_with_medical_terms`. */
  function ExpandQuery(query: string): string
  {
    var terms := MedicalTerms(query);
    if terms == [] then query else query + " " + Join(" ", terms)
  }

  /** The query is always kept at the front, and it is changed exactly when
      there are medical terms. */
  lemma ExpandQueryMeaning(query: string)
    ensures IsPrefix(query, ExpandQuery(query))
    ensures ExpandQuery(query) == query <==> MedicalTerms(query) == []
    ensures MedicalTerms(query) != [] ==> ExpandQuery(query)[|query|] == ' '
  {
    var e := ExpandQuery(query);
    if MedicalTerms(query) != [] {
      assert e == query + (" " + Join(" ", MedicalTerms(query)));
      assert |e| > |query|;
    }
  }

  predicate IsWordChar(c: char)
  {
    ('a' <= c <= 'z') || ('A' <= c <= 'Z') || ('0' <= c <= '9') || c == '_'
  }

  /** The length of the run of word characters `s` starts with. */
  function WordRun(s: string): (n: nat)
    ensures n <= |s|
    ensures forall i :: 0 <= i < n ==> IsWordChar(s[i])
    ensures n < |s| ==> !IsWordChar(s[n])
  {
    if s == [] || !IsWordChar(s[0]) then 0 else 1 + WordRun(s[1..])
  }

  /** `re.findall(r'\b\w+\b', s)`: the maximal runs of word characters. */
  function Words(s: string): (ws: seq<string>)
    ensures forall k :: 0 <= k < |ws| ==> |ws[k]| > 0
    ensures forall k, i :: 0 <= k < |ws| && 0 <= i < |ws[k]| ==> IsWordChar(ws[k][i])
    decreases |s|
  {
    if s == [] then []
    else if !IsWordChar(s[0]) then Words(s[1..])
    else
      var n := WordRun(s);
      [s[..n]] + Words(s[n..])
  }

  /** `ws` are the maximal runs of word characters of `s[from..]`, in order:
      word `k` is `s[a[k]..b[k]]`, starts with a word character, has a
      non-word character or an end on either side, the runs are separated,
      and every word character from `from` on lies in one of them. */
  ghost predicate SpansOf(s: string, from: nat, ws: seq<string>, a: seq<nat>, b: seq<nat>)
  {
    && from <= |s| && |a| == |ws| && |b| == |ws|
    && (forall k :: 0 <= k < |ws| ==> SpanAt(s, from, ws[k], a[k], b[k]))
    && (forall k, k' :: 0 <= k < k' < |ws| ==> b[k] < a[k'])
    && (forall i :: from <= i && IsWordAt(s, i) ==> exists k :: 0 <= k < |ws| && a[k] <= i < b[k])
  }

  /** `w` is the run of word characters `s[a..b]`, at or after `from`, with a
      non-word character or an end on either side. */
  ghost predicate SpanAt(s: string, from: nat, w: string, a: nat, b: nat)
  {
    && from <= a < b <= |s| && w == s[a..b] && IsWordChar(s[a])
    && (a == from || !IsWordChar(s[a - 1]))
    && (b == |s| || !IsWordChar(s[b]))
  }

  predicate IsWordAt(s: string, i: int)
  {
    0 <= i < |s| && IsWordChar(s[i])
  }

  /** A non-word character in front of the text adds no word. */
  lemma SkipSpan(s: string, from: nat, ws: seq<string>, a: seq<nat>, b: seq<nat>)
    requires from < |s| && !IsWordChar(s[from])
    requires SpansOf(s, from + 1, ws, a, b)
    ensures SpansOf(s, from, ws, a, b)
  {
  }

  /** A run of word characters `s[from..e]`, ended by a non-word character or
      the end of the text, in front of the text adds that run as a word. */
  lemma PrependSpan(s: string, from: nat, e: nat, ws: seq<string>, a: seq<nat>, b: seq<nat>)
    requires from < e <= |s|
    requires forall i :: from <= i < e ==> IsWordChar(s[i])
    requires e == |s| || !IsWordChar(s[e])
    requires SpansOf(s, e, ws, a, b)
    ensures SpansOf(s, from, [s[from..e]] + ws, [from] + a, [e] + b)
  {
    var ws2, a2, b2 := [s[from..e]] + ws, [from] + a, [e] + b;
    forall k | 0 <= k < |ws|
      ensures e < a[k]
    {
      assert e <= a[k] < |s| && IsWordChar(s[a[k]]);
    }
    forall k | 0 <= k < |ws2|
      ensures SpanAt(s, from, ws2[k], a2[k], b2[k])
    {
      ConsIndex(s[from..e], ws, k);
      ConsIndex(from, a, k);
      ConsIndex(e, b, k);
      if k > 0 {
        assert SpanAt(s, e, ws[k - 1], a[k - 1], b[k - 1]);
      }
    }
    forall k, k' | 0 <= k < k' < |ws2|
      ensures b2[k] < a2[k']
    {
      ConsIndex(e, b, k);
      ConsIndex(from, a, k');
      if k > 0 {
        assert b[k - 1] < a[k' - 1];
      }
    }
    forall i | from <= i && IsWordAt(s, i)
      ensures exists k :: 0 <= k < |ws2| && a2[k] <= i < b2[k]
    {
      if i < e {
        assert a2[0] <= i < b2[0];
      } else {
        var k :| 0 <= k < |ws| && a[k] <= i < b[k];
        assert a2[k + 1] <= i < b2[k + 1];
      }
    }
  }

  /** The words of `s[from..]`, with the positions they are cut from. */
  lemma {:induction false} WordSpansFrom(s: string, from: nat) returns (a: seq<nat>, b: seq<nat>)
    requires from <= |s|
    ensures SpansOf(s, from, Words(s[from..]), a, b)
    decreases |s| - from
  {
    var t := s[from..];
    if from == |s| {
      a, b := [], [];
    } else if !IsWordChar(s[from]) {
      assert t[1..] == s[from + 1..];
      a, b := WordSpansFrom(s, from + 1);
      SkipSpan(s, from, Words(t), a, b);
    } else {
      var n := WordRun(t);
      var e := from + n;
      assert t[..n] == s[from..e] && t[n..] == s[e..];
      assert forall i :: from <= i < e ==> s[i] == t[i - from];
      var a', b' := WordSpansFrom(s, e);
      assert Words(t) == [s[from..e]] + Words(s[e..]);
      PrependSpan(s, from, e, Words(s[e..]), a', b');
      a, b := [from] + a', [e] + b';
    }
  }

  /** `re.findall(r'\b\w+\b', s)` gives exactly the maximal runs of word
      characters, in order: there are none exactly when `s` has no word
      character, word `k` is `s[a[k]..b[k]]`, made of word characters only,
      with a non-word character or the text's edge on either side, the runs
      come in order without touching, and every word character of `s` is in
      one of them. */
  lemma WordsMeaning(s: string) returns (a: seq<nat>, b: seq<nat>)
    ensures Words(s) == [] <==> forall i :: 0 <= i < |s| ==> !IsWordChar(s[i])
    ensures var ws := Words(s);
      && |a| == |ws| && |b| == |ws|
      && (forall k :: 0 <= k < |ws| ==> a[k] < b[k] <= |s| && ws[k] == s[a[k]..b[k]])
      && (forall k, i :: 0 <= k < |ws| && a[k] <= i < b[k] ==> IsWordChar(s[i]))
      && (forall k :: 0 <= k < |ws| ==> (a[k] == 0 || !IsWordChar(s[a[k] - 1])) && (b[k] == |s| || !IsWordChar(s[b[k]])))
      && (forall k, k' :: 0 <= k < k' < |ws| ==> b[k] < a[k'])
      && (forall i :: 0 <= i < |s| && IsWordChar(s[i]) ==> exists k :: 0 <= k < |ws| && a[k] <= i < b[k])
  {
    assert s[0..] == s;
    a, b := WordSpansFrom(s, 0);
    var ws := Words(s);
    forall k, i | 0 <= k < |ws| && a[k] <= i < b[k]
      ensures IsWordChar(s[i])
    {
      assert s[i] == ws[k][i - a[k]];
    }
    forall i | 0 <= i < |s| && IsWordChar(s[i])
      ensures exists k :: 0 <= k < |ws| && a[k] <= i < b[k]
    {
      assert IsWordAt(s, i);
    }
    if ws != [] {
      assert IsWordChar(s[a[0]]);
    }
  }

  /** `[w for w in words if len(w) > 3]`. */
  function LongWords(words: seq<string>): (r: seq<string>)
    ensures forall k :: 0 <= k < |r| ==> |r[k]| > 3 && r[k] in words
    ensures forall k :: 0 <= k < |words| && |words[k]| > 3 ==> words[k] in r
    ensures |r| <= |words|
  {
    if words == [] then []
    else (if |words[0]| > 3 then [words[0]] else []) + LongWords(words[1..])
  }

  /** One call of the trial search: the query text and the `k` asked for. */
  datatype SearchCall = SearchCall(text: string, k: nat)

  /** The searches of the cascade, in order, given the expanded query, the
      medical terms and the long words of the query: the expanded query
      first; the joined terms when that found nothing and there are terms;
      the joined long words when still nothing was found and there are any. */
  function CascadeCalls(expanded: string, terms: seq<string>, broad: seq<string>, maxTrials: nat,
                        search: (string, nat) -> seq<ScoredTrial>): seq<SearchCall>
  {
    var first := [SearchCall(expanded, maxTrials * 2)];
    var afterTerms :=
      if search(expanded, maxTrials * 2) == [] && terms != []
      then first + [SearchCall(Join(" ", terms), maxTrials)]
      else first;
    var last := afterTerms[|afterTerms| - 1];
    if search(last.text, last.k) == [] && broad != []
    then afterTerms + [SearchCall(Join(" ", broad), maxTrials)]
    else afterTerms
  }

  /** The cascade makes one to three searches and stops at the first that
      finds something: the expanded query with twice the limit, then the
      joined terms when the first found nothing and there are terms (and
      otherwise at most the joined long words), then the joined long words
      only when everything before found nothing and there are long words. */
  lemma CascadeCallsMeaning(expanded: string, terms: seq<string>, broad: seq<string>, maxTrials: nat,
                            search: (string, nat) -> seq<ScoredTrial>)
    ensures var calls := CascadeCalls(expanded, terms, broad, maxTrials, search);
      && 1 <= |calls| <= 3
      && calls[0] == SearchCall(expanded, maxTrials * 2)
      && (forall i :: 0 <= i < |calls| - 1 ==> search(calls[i].text, calls[i].k) == [])
      && (search(expanded, maxTrials * 2) == [] && terms != [] ==>
            |calls| >= 2 && calls[1] == SearchCall(Join(" ", terms), maxTrials))
      && (search(expanded, maxTrials * 2) != [] || terms == [] ==>
            |calls| == 1 || calls[1..] == [SearchCall(Join(" ", broad), maxTrials)])
      && (search(expanded, maxTrials * 2) != [] ==> |calls| == 1)
      && (broad == [] ==> |calls| <= 2)
      && (|calls| == 3 ==> calls[2] == SearchCall(Join(" ", broad), maxTrials))
      && (var last := calls[|calls| - 1];
          search(last.text, last.k) == [] && broad != [] ==> last == SearchCall(Join(" ", broad), maxTrials))
  {
  }

  /** `find_clinical_trials(query, max_trials)` with the trial search given as
      `search`; `calls` lists the searches made, in order. */
  method FindClinicalTrials(query: string, maxTrials: nat, search: (string, nat) -> seq<ScoredTrial>)
    returns (trials: seq<ScoredTrial>, calls: seq<SearchCall>)
    ensures calls == CascadeCalls(ExpandQuery(query), MedicalTerms(query), LongWords(Words(Lower(query))),
                                  maxTrials, search)
    ensures calls != [] && trials == Take(search(calls[|calls| - 1].text, calls[|calls| - 1].k), maxTrials)
    ensures |trials| <= maxTrials
  {
    var conditions := ExtractMedicalTerms(query);
    var expandedQuery := ExpandQuery(query);
    calls := [SearchCall(expandedQuery, maxTrials * 2)];
    trials := search(expandedQuery, maxTrials * 2);
    if trials == [] && conditions != [] {
      var conditionQuery := Join(" ", conditions);
      calls := calls + [SearchCall(conditionQuery, maxTrials)];
      trials := search(conditionQuery, maxTrials);
    }
    ghost var last := calls[|calls| - 1];
    assert trials == search(last.text, last.k);
    if trials == [] {
      var words := Words(Lower(query));
      var medicalWords := LongWords(words);
      if medicalWords != [] {
        var broaderQuery := Join(" ", medicalWords);
        calls := calls + [SearchCall(broaderQuery, maxTrials)];
        trials := search(broaderQuery, maxTrials);
      }
    }
    trials := Take(trials, maxTrials);
  }

  // ---------------------------------------------------------------------------
  // The prompt
  //
  // The prompt is specified the way `construct_prompt` builds it: each
  // function below appends one formatted string, or one list of them, to the
  // text built so far.

  function Header(query: string): string
  {
    "Question: " + query + "\n\n"
  }

  const ContextHeading := "Relevant medical information:\n"
  const TrialsHeading := "Relevant clinical trials:\n"
  const Instruction := "\nPlease provide a helpful and informative answer to the question "
    + "based on the provided information. "
  const TrialSentence := "Include relevant information about the clinical trials "
    + "if appropriate for the question."

  /** The line of the `n`-th medical document. */
  function DocLine(n: nat, d: MedicalDoc): string
  {
    NatToString(n) + ". " + d.content + "\n"
  }

  /** `p` followed by the lines of `docs`, numbered from 1. */
  function AddDocLines(p: string, docs: seq<MedicalDoc>): string
  {
    if docs == [] then p
    else AddDocLines(p, docs[..|docs| - 1]) + DocLine(|docs|, docs[|docs| - 1])
  }

  function TitleLine(n: nat, t: TrialRecord): string
  {
    NatToString(n) + ". Title: " + t.title + "\n"
  }

  function ConditionLine(t: TrialRecord): string { "   Condition: " + t.condition + "\n" }

  function InterventionLine(t: TrialRecord): string { "   Intervention: " + t.intervention + "\n" }

  function EligibilityLine(t: TrialRecord): string { "   Eligibility: " + t.eligibility + "\n" }

  /** The score line; `formatScore` renders the score as `:.2f` does. */
  function ScoreLine(score: int, formatScore: int -> string): string
  {
    "   Relevance Score: " + formatScore(score) + "\n"
  }

  /** `p` followed by the six lines of the `n`-th trial. */
  function AddTrialBlock(p: string, n: nat, t: ScoredTrial, formatScore: int -> string): string
  {
    p + TitleLine(n, t.trial) + ConditionLine(t.trial) + InterventionLine(t.trial)
    + EligibilityLine(t.trial) + ScoreLine(t.score, formatScore) + "\n"
  }

  /** `p` followed by the blocks of `trials`, numbered from 1. */
  function AddTrialBlocks(p: string, trials: seq<ScoredTrial>, formatScore: int -> string): string
  {
    if trials == [] then p
    else AddTrialBlock(AddTrialBlocks(p, trials[..|trials| - 1], formatScore),
                       |trials|, trials[|trials| - 1], formatScore)
  }

  function AddContext(p: string, docs: seq<MedicalDoc>): string
  {
    if docs == [] then p else AddDocLines(p + ContextHeading, docs) + "\n"
  }

  function AddTrials(p: string, trials: seq<ScoredTrial>, formatScore: int -> string): string
  {
    if trials == [] then p else AddTrialBlocks(p + TrialsHeading, trials, formatScore)
  }

  function AddClosing(p: string, withTrials: bool): string
  {
    if withTrials then p + Instruction + TrialSentence else p + Instruction
  }

  /** `construct_prompt(query, medical_context, clinical_trials)`, with an
      absent trial list given as the empty one. */
  function Prompt(query: string, docs: seq<MedicalDoc>, trials: seq<ScoredTrial>, formatScore: int -> string): string
  {
    AddClosing(AddTrials(AddContext(Header(query), docs), trials, formatScore), trials != [])
  }

  /** The loop of `construct_prompt` over the medical context: one numbered
      line per document appended to `start`. */
  method AppendDocLines(start: string, docs: seq<MedicalDoc>) returns (prompt: string)
    ensures prompt == AddDocLines(start, docs)
  {
    prompt := start;
    var i := 0;
    while i < |docs|
      invariant 0 <= i <= |docs|
      invariant prompt == AddDocLines(start, docs[..i])
    {
      prompt := prompt + (NatToString(i + 1) + ". " + docs[i].content + "\n");
      assert docs[..i + 1][..i] == docs[..i];
      i := i + 1;
    }
    assert docs[..i] == docs;
  }

  /** The loop of `construct_prompt` over the trials: one numbered block of
      six lines per trial appended to `start`. */
  method AppendTrialBlocks(start: string, trials: seq<ScoredTrial>, formatScore: int -> string)
    returns (prompt: string)
    ensures prompt == AddTrialBlocks(start, trials, formatScore)
  {
    prompt := start;
    var i := 0;
    while i < |trials|
      invariant 0 <= i <= |trials|
      invariant prompt == AddTrialBlocks(start, trials[..i], formatScore)
    {
      var trial := trials[i].trial;
      prompt := prompt + (NatToString(i + 1) + ". Title: " + trial.title + "\n");
      prompt := prompt + ("   Condition: " + trial.condition + "\n");
      prompt := prompt + ("   Intervention: " + trial.intervention + "\n");
      prompt := prompt + ("   Eligibility: " + trial.eligibility + "\n");
      prompt := prompt + ("   Relevance Score: " + formatScore(trials[i].score) + "\n");
      prompt := prompt + "\n";
      assert trials[..i + 1][..i] == trials[..i];
      i := i + 1;
    }
    assert trials[..i] == trials;
  }

  /** The `+=` building of `construct_prompt`. */
  method ConstructPrompt(query: string, docs: seq<MedicalDoc>, trials: seq<ScoredTrial>, formatScore: int -> string)
    returns (prompt: string)
    ensures prompt == Prompt(query, docs, trials, formatScore)
  {
    prompt := "Question: " + query + "\n\n";
    if |docs| > 0 {
      prompt := prompt + ContextHeading;
      prompt := AppendDocLines(prompt, docs);
      prompt := prompt + "\n";
    }
    if |trials| > 0 {
      prompt := prompt + TrialsHeading;
      prompt := AppendTrialBlocks(prompt, trials, formatScore);
    }
    prompt := prompt + Instruction;
    if |trials| > 0 {
      prompt := prompt + TrialSentence;
    }
  }

  /** Each step only appends. */
  lemma {:induction false} AddDocLinesExtends(p: string, docs: seq<MedicalDoc>, k: nat)
    requires k <= |docs|
    ensures IsPrefix(AddDocLines(p, docs[..k]), AddDocLines(p, docs))
    decreases |docs|
  {
    if k < |docs| {
      var init := docs[..|docs| - 1];
      assert init[..k] == docs[..k];
      AddDocLinesExtends(p, init, k);
      PrefixTrans(AddDocLines(p, docs[..k]), AddDocLines(p, init), AddDocLines(p, docs));
    } else {
      assert docs[..k] == docs;
    }
  }

  lemma {:induction false} AddTrialBlocksExtends(p: string, trials: seq<ScoredTrial>, formatScore: int -> string, k: nat)
    requires k <= |trials|
    ensures IsPrefix(AddTrialBlocks(p, trials[..k], formatScore), AddTrialBlocks(p, trials, formatScore))
    decreases |trials|
  {
    if k < |trials| {
      var init := trials[..|trials| - 1];
      assert init[..k] == trials[..k];
      AddTrialBlocksExtends(p, init, formatScore, k);
      var b := AddTrialBlocks(p, init, formatScore);
      TrialBlockMentions(b, |trials|, trials[|trials| - 1], formatScore);
      PrefixTrans(AddTrialBlocks(p, trials[..k], formatScore), b, AddTrialBlocks(p, trials, formatScore));
    } else {
      assert trials[..k] == trials;
    }
  }

  /** Six appends in a row are one append of the six strings joined. */
  lemma AppendBlock(p: string, a: string, b: string, c: string, d: string, e: string, f: string)
    ensures p + a + b + c + d + e + f == p + (a + b + c + d + e + f)
    ensures IsPrefix(p, p + a + b + c + d + e + f)
  {
    ConcatAssoc(p, a, b);
    ConcatAssoc(p, a + b, c);
    ConcatAssoc(p, a + b + c, d);
    ConcatAssoc(p, a + b + c + d, e);
    ConcatAssoc(p, a + b + c + d + e, f);
  }

  /** A document's content is in its line. */
  lemma DocLineMentions(n: nat, d: MedicalDoc)
    ensures Contains(DocLine(n, d), d.content)
  {
    ContainsSelf(d.content);
    ContainsExtend(NatToString(n) + ". ", d.content, d.content);
    ContainsExtend(NatToString(n) + ". " + d.content, "\n", d.content);
  }

  lemma FieldMentions(tag: string, field: string)
    ensures Contains(tag + field + "\n", field)
  {
    ContainsSelf(field);
    ContainsExtend(tag, field, field);
    ContainsExtend(tag + field, "\n", field);
  }

  /** A trial's block keeps what came before it and holds the trial's title,
      condition, intervention and eligibility. */
  lemma TrialBlockMentions(p: string, n: nat, t: ScoredTrial, formatScore: int -> string)
    ensures var r := AddTrialBlock(p, n, t, formatScore);
      && IsPrefix(p, r)
      && Contains(r, t.trial.title) && Contains(r, t.trial.condition)
      && Contains(r, t.trial.intervention) && Contains(r, t.trial.eligibility)
  {
    var a := TitleLine(n, t.trial);
    var b := ConditionLine(t.trial);
    var c := InterventionLine(t.trial);
    var d := EligibilityLine(t.trial);
    var e := ScoreLine(t.score, formatScore);
    var x := a + b + c + d + e + "\n";
    AppendBlock(p, a, b, c, d, e, "\n");
    FieldMentions(NatToString(n) + ". Title: ", t.trial.title);
    FieldMentions("   Condition: ", t.trial.condition);
    FieldMentions("   Intervention: ", t.trial.intervention);
    FieldMentions("   Eligibility: ", t.trial.eligibility);
    var fields := [t.trial.title, t.trial.condition, t.trial.intervention, t.trial.eligibility];
    forall f | f in fields
      ensures Contains(AddTrialBlock(p, n, t, formatScore), f)
    {
      ContainsExtend(a, b, f);
      ContainsExtend(a + b, c, f);
      ContainsExtend(a + b + c, d, f);
      ContainsExtend(a + b + c + d, e, f);
      ContainsExtend(a + b + c + d + e, "\n", f);
      ContainsExtend(p, x, f);
    }
    assert fields[0] in fields && fields[1] in fields && fields[2] in fields && fields[3] in fields;
  }

  /** Each section only appends to the text before it. */
  lemma PromptLayers(query: string, docs: seq<MedicalDoc>, trials: seq<ScoredTrial>, formatScore: int -> string)
    ensures IsPrefix(Header(query), AddContext(Header(query), docs))
    ensures IsPrefix(AddContext(Header(query), docs), AddTrials(AddContext(Header(query), docs), trials, formatScore))
    ensures IsPrefix(AddTrials(AddContext(Header(query), docs), trials, formatScore), Prompt(query, docs, trials, formatScore))
  {
    var h := Header(query);
    if docs != [] {
      AddDocLinesExtends(h + ContextHeading, docs, 0);
      PrefixTrans(h, h + ContextHeading, AddDocLines(h + ContextHeading, docs));
      PrefixTrans(h, AddDocLines(h + ContextHeading, docs), AddContext(h, docs));
    }
    var c := AddContext(h, docs);
    if trials != [] {
      AddTrialBlocksExtends(c + TrialsHeading, trials, formatScore, 0);
      PrefixTrans(c, c + TrialsHeading, AddTrials(c, trials, formatScore));
    }
    var t := AddTrials(c, trials, formatScore);
    if trials != [] {
      PrefixTrans(t, t + Instruction, Prompt(query, docs, trials, formatScore));
    }
  }

  /** The prompt opens with the question and closes with the instruction,
      followed by the sentence about clinical trials exactly when trials are
      given. The medical section, opened by its heading and the line of the
      first document, comes right after the question exactly when there is
      context; the trials section, opened by its heading and the first
      trial's title, comes right after it (or after the question) exactly
      when there are trials. With nothing retrieved the prompt is the question
      and the instruction alone. */
  lemma PromptShape(query: string, docs: seq<MedicalDoc>, trials: seq<ScoredTrial>, formatScore: int -> string)
    ensures IsPrefix(Header(query), Prompt(query, docs, trials, formatScore))
    ensures trials != [] ==> IsSuffix(Instruction + TrialSentence, Prompt(query, docs, trials, formatScore))
    ensures trials == [] ==> IsSuffix(Instruction, Prompt(query, docs, trials, formatScore))
    ensures docs != [] ==>
      IsPrefix(Header(query) + ContextHeading + DocLine(1, docs[0]), Prompt(query, docs, trials, formatScore))
    ensures trials != [] ==>
      IsPrefix(AddContext(Header(query), docs) + TrialsHeading + TitleLine(1, trials[0].trial),
               Prompt(query, docs, trials, formatScore))
    ensures docs == [] ==> AddContext(Header(query), docs) == Header(query)
    ensures trials == [] ==> Prompt(query, docs, trials, formatScore) == AddContext(Header(query), docs) + Instruction
    ensures docs == [] && trials == [] ==> Prompt(query, docs, trials, formatScore) == Header(query) + Instruction
  {
    PromptLayers(query, docs, trials, formatScore);
    var h := Header(query);
    var c := AddContext(h, docs);
    var t := AddTrials(c, trials, formatScore);
    var r := Prompt(query, docs, trials, formatScore);
    PrefixTrans(h, c, t);
    PrefixTrans(h, t, r);
    if trials != [] {
      ConcatAssoc(t, Instruction, TrialSentence);
      SuffixOfAppend(t, Instruction + TrialSentence);
    } else {
      SuffixOfAppend(t, Instruction);
    }
    if docs != [] {
      FirstDocLine(h + ContextHeading, docs);
      PrefixOfAppend(AddDocLines(h + ContextHeading, docs), "\n");
      PrefixTrans(h + ContextHeading + DocLine(1, docs[0]), AddDocLines(h + ContextHeading, docs), c);
      PrefixTrans(h + ContextHeading + DocLine(1, docs[0]), c, t);
      PrefixTrans(h + ContextHeading + DocLine(1, docs[0]), t, r);
    }
    if trials != [] {
      FirstTrialTitle(c + TrialsHeading, trials, formatScore);
      PrefixTrans(c + TrialsHeading + TitleLine(1, trials[0].trial), t, r);
    }
  }

  /** The first document's line comes first. */
  lemma FirstDocLine(p: string, docs: seq<MedicalDoc>)
    requires docs != []
    ensures IsPrefix(p + DocLine(1, docs[0]), AddDocLines(p, docs))
  {
    assert docs[..1][..0] == [];
    assert AddDocLines(p, docs[..1]) == p + DocLine(1, docs[0]);
    AddDocLinesExtends(p, docs, 1);
  }

  /** A trial's block opens with its title line. */
  lemma TitleOpensBlock(p: string, n: nat, t: ScoredTrial, formatScore: int -> string)
    ensures IsPrefix(p + TitleLine(n, t.trial), AddTrialBlock(p, n, t, formatScore))
  {
    var x := p + TitleLine(n, t.trial);
    var b := x + ConditionLine(t.trial);
    var c := b + InterventionLine(t.trial);
    var d := c + EligibilityLine(t.trial);
    var e := d + ScoreLine(t.score, formatScore);
    PrefixOfAppend(x, ConditionLine(t.trial));
    PrefixOfAppend(b, InterventionLine(t.trial));
    PrefixOfAppend(c, EligibilityLine(t.trial));
    PrefixOfAppend(d, ScoreLine(t.score, formatScore));
    PrefixOfAppend(e, "\n");
    PrefixTrans(x, b, c);
    PrefixTrans(x, c, d);
    PrefixTrans(x, d, e);
    PrefixTrans(x, e, e + "\n");
  }

  /** The first trial's title line comes first. */
  lemma FirstTrialTitle(p: string, trials: seq<ScoredTrial>, formatScore: int -> string)
    requires trials != []
    ensures IsPrefix(p + TitleLine(1, trials[0].trial), AddTrialBlocks(p, trials, formatScore))
  {
    var one := trials[..1];
    assert one[..0] == [] && one[0] == trials[0];
    var block := AddTrialBlocks(p, one, formatScore);
    assert block == AddTrialBlock(AddTrialBlocks(p, one[..0], formatScore), 1, one[0], formatScore);
    TitleOpensBlock(p, 1, trials[0], formatScore);
    AddTrialBlocksExtends(p, trials, formatScore, 1);
    PrefixTrans(p + TitleLine(1, trials[0].trial), block, AddTrialBlocks(p, trials, formatScore));
  }

  /** Nothing retrieved is dropped: every document's content and every
      trial's title, condition, intervention and eligibility appear in the
      prompt. */
  lemma PromptMentions(query: string, docs: seq<MedicalDoc>, trials: seq<ScoredTrial>, formatScore: int -> string)
    ensures forall k :: 0 <= k < |docs| ==> Contains(Prompt(query, docs, trials, formatScore), docs[k].content)
    ensures forall k :: 0 <= k < |trials| ==>
      var r := Prompt(query, docs, trials, formatScore);
      && Contains(r, trials[k].trial.title) && Contains(r, trials[k].trial.condition)
      && Contains(r, trials[k].trial.intervention) && Contains(r, trials[k].trial.eligibility)
  {
    PromptLayers(query, docs, trials, formatScore);
    var h := Header(query);
    var c := AddContext(h, docs);
    var t := AddTrials(c, trials, formatScore);
    var r := Prompt(query, docs, trials, formatScore);
    PrefixTrans(c, t, r);
    forall k | 0 <= k < |docs|
      ensures Contains(r, docs[k].content)
    {
      var start := h + ContextHeading;
      var upTo := AddDocLines(start, docs[..k + 1]);
      assert docs[..k + 1][..k] == docs[..k];
      DocLineMentions(k + 1, docs[k]);
      ContainsExtend(AddDocLines(start, docs[..k]), DocLine(k + 1, docs[k]), docs[k].content);
      AddDocLinesExtends(start, docs, k + 1);
      PrefixTrans(upTo, AddDocLines(start, docs), c);
      PrefixTrans(upTo, c, r);
      ContainsViaPrefix(upTo, r, docs[k].content);
    }
    forall k | 0 <= k < |trials|
      ensures Contains(r, trials[k].trial.title) && Contains(r, trials[k].trial.condition)
      ensures Contains(r, trials[k].trial.intervention) && Contains(r, trials[k].trial.eligibility)
    {
      var start := c + TrialsHeading;
      var upTo := AddTrialBlocks(start, trials[..k + 1], formatScore);
      assert trials[..k + 1][..k] == trials[..k];
      TrialBlockMentions(AddTrialBlocks(start, trials[..k], formatScore), k + 1, trials[k], formatScore);
      AddTrialBlocksExtends(start, trials, formatScore, k + 1);
      PrefixTrans(upTo, t, r);
      ContainsViaPrefix(upTo, r, trials[k].trial.title);
      ContainsViaPrefix(upTo, r, trials[k].trial.condition);
      ContainsViaPrefix(upTo, r, trials[k].trial.intervention);
      ContainsViaPrefix(upTo, r, trials[k].trial.eligibility);
    }
  }

  /** The medical lines are numbered from 1 in the order of the context. */
  lemma {:induction false} DocLinesNumbered(p: string, docs: seq<MedicalDoc>)
    ensures AddDocLines(p, docs) == p + Concat(seq(|docs|, i requires 0 <= i < |docs| => DocLine(i + 1, docs[i])))
    decreases |docs|
  {
    var lines := seq(|docs|, i requires 0 <= i < |docs| => DocLine(i + 1, docs[i]));
    if docs != [] {
      var init := docs[..|docs| - 1];
      DocLinesNumbered(p, init);
      assert lines[..|lines| - 1] == seq(|init|, i requires 0 <= i < |init| => DocLine(i + 1, init[i]));
      ConcatAssoc(p, Concat(lines[..|lines| - 1]), lines[|lines| - 1]);
    }
  }
}
