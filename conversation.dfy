/** The chat conversation engine of the MedFlow home page
    (FrontEnd/app/page.tsx): the React state of the page is the set of fields
    of class `HomePage`, each event handler is a method, and the HTTP call to
    the analysis endpoint is split into its two halves: the handler that
    issues the request (recorded in `inFlight`) and `CompleteApiCall`, which
    folds the outcome of one outstanding request back into the state.
    Delayed (setTimeout) callbacks run right after the handler that set them. */
module Conversation {
  import opened TextUtil

  datatype Stage = Initial | AskingSymptoms | AskingHistory | Analyzing | Results | Followup

  datatype Sender = User | Bot

  /** One transcript entry; `id` is computed from a captured transcript length
      and is not guaranteed to be unique. */
  datatype Message = Message(id: int, text: string, sender: Sender)

  datatype Trial = Trial(title: string, condition: string, intervention: string, eligibility: string)

  /** The JSON body posted to the analysis endpoint. */
  datatype Payload = Payload(symptoms: string, history: string, medicalRecords: Option<string>)

  /** What the `fetch` of one request came to: a parsed 2xx response, or a
      non-ok status / thrown exception. */
  datatype Outcome = Success(answer: string, trials: seq<Trial>) | Failure

  /** A request that has been sent and not yet answered, with the transcript
      length its handler captured (the reply's id is that length plus 3). */
  datatype PendingCall = PendingCall(payload: Payload, idBase: int)

  /** A snapshot of every field of the page, used to state whole new states. */
  datatype PageState = PageState(
    messages: seq<Message>,
    conversationStage: Stage,
    userSymptoms: string,
    userHistory: string,
    medicalRecords: string,
    hasMedicalRecords: bool,
    clinicalTrials: seq<Trial>,
    showTrials: bool,
    isLoading: bool,
    inFlight: seq<PendingCall>)

  // ---------------------------------------------------------------------------
  // Fixed texts

  const SymptomsQuestion := "What are your symptoms?"
  const HistoryQuestion := "What is your medical history?"
  const RecordsAcknowledgement := "I see you've uploaded your medical records. These will be considered in my analysis and risk assessment."
  const UploadNotice := "\U{2705} Medical records uploaded successfully. These will be included in the analysis and risk assessment."
  const RemovalNotice := "Medical records have been removed from the analysis."
  const ErrorText := "I'm sorry, there was an error processing your request. Please try again later."

  /** The phrase whose presence marks symptoms that already carry the risk request. */
  const RiskMarker := "keep in mind these health parameter"
  const RiskSuffix := "\n\n" + RiskMarker + " of the patient and suggest if the patient is at risk"

  function WithRecordsNote(hasRecords: bool, note: string): string
  {
    if hasRecords then note else ""
  }

  function AnalyzingHistoryText(hasRecords: bool): string
  {
    "Analyzing your symptoms and medical history" + WithRecordsNote(hasRecords, ", along with your uploaded records") + "..."
  }

  function AnalyzingNewInfoText(hasRecords: bool): string
  {
    "Analyzing your new information" + WithRecordsNote(hasRecords, " with your medical records") + "..."
  }

  function AnalyzingRequestText(hasRecords: bool): string
  {
    "Analyzing your request" + WithRecordsNote(hasRecords, " with your medical records") + "..."
  }

  function AnalyzingTrialText(hasRecords: bool): string
  {
    "Analyzing the clinical trial details" + WithRecordsNote(hasRecords, " with your medical records") + "..."
  }

  function DiseaseQuery(diseaseName: string): string
  {
    "I'd like to know more about " + diseaseName
  }

  // ---------------------------------------------------------------------------
  // Request payload

  /** Records are attached when the flag is set and the content is a non-empty
      string (a truthy JavaScript string). */
  predicate RecordsAttached(hasRecords: bool, records: string)
  {
    hasRecords && records != ""
  }

  /** The payload `makeApiCall` posts for `(symptoms, history)`. */
  function BuildPayload(symptoms: string, history: string, hasRecords: bool, records: string): Payload
  {
    if RecordsAttached(hasRecords, records) && !Contains(symptoms, RiskMarker) then
      Payload(symptoms + RiskSuffix, history, Some(records))
    else if RecordsAttached(hasRecords, records) then
      Payload(symptoms, history, Some(records))
    else
      Payload(symptoms, history, None)
  }

  /** The history is passed through; records travel exactly when attached, and
      then the symptoms always carry the risk marker; otherwise, or when the
      marker is already there, the symptoms are untouched; the typed symptoms
      always stay a prefix. */
  lemma PayloadMeaning(symptoms: string, history: string, hasRecords: bool, records: string)
    ensures var p := BuildPayload(symptoms, history, hasRecords, records);
      && p.history == history
      && (p.medicalRecords.Some? <==> RecordsAttached(hasRecords, records))
      && (p.medicalRecords.Some? ==> p.medicalRecords.value == records && Contains(p.symptoms, RiskMarker))
      && (!RecordsAttached(hasRecords, records) || Contains(symptoms, RiskMarker) ==> p.symptoms == symptoms)
      && IsPrefix(symptoms, p.symptoms)
  {
    if RecordsAttached(hasRecords, records) && !Contains(symptoms, RiskMarker) {
      MarkerInSuffix(symptoms);
    }
  }

  lemma MarkerInSuffix(symptoms: string)
    ensures Contains(symptoms + RiskSuffix, RiskMarker)
  {
    var rest := " of the patient and suggest if the patient is at risk";
    ContainsSelf(RiskMarker);
    ContainsExtend("\n\n", RiskMarker, RiskMarker);
    ContainsExtend("\n\n" + RiskMarker, rest, RiskMarker);
    ContainsExtend(symptoms, RiskSuffix, RiskMarker);
  }

  /** Building a payload again from the symptoms of a built payload changes
      nothing: the risk suffix is never appended twice. */
  lemma PayloadRebuildIsStable(symptoms: string, history: string, hasRecords: bool, records: string)
    ensures BuildPayload(BuildPayload(symptoms, history, hasRecords, records).symptoms, history, hasRecords, records)
            == BuildPayload(symptoms, history, hasRecords, records)
  {
    if RecordsAttached(hasRecords, records) && !Contains(symptoms, RiskMarker) {
      MarkerInSuffix(symptoms);
    }
  }

  /** With records attached and no marker yet, the symptoms gain exactly the suffix. */
  lemma PayloadAppendsSuffixOnce(symptoms: string, history: string, records: string)
    requires records != "" && !Contains(symptoms, RiskMarker)
    ensures BuildPayload(symptoms, history, true, records).symptoms == symptoms + RiskSuffix
    ensures BuildPayload(symptoms, history, true, records).medicalRecords == Some(records)
  {
  }

  // ---------------------------------------------------------------------------
  // Trial inquiry text

  const InquiryOpening := "I'm interested in this clinical trial:" + "\n\n**Title**: "
  const ConditionLabel := "\n**Condition**: "
  const InterventionLabel := "\n**Intervention**: "
  const EligibilityLabel := "\n**Eligibility**: "

  /** The pieces of the trial description, in the order the template lists them. */
  function InquiryParts(t: Trial): seq<string>
  {
    [t.title, ConditionLabel, t.condition, InterventionLabel, t.intervention,
     EligibilityLabel, t.eligibility, "\n\n", SuccessQuestion]
  }

  function InquiryDetails(t: Trial): string
  {
    Concat(InquiryParts(t))
  }

  function InquiryCore(t: Trial): string
  {
    InquiryOpening + InquiryDetails(t)
  }

  const SuccessQuestion := "What are the key factors to make this a success?"
  const RecordsHeading := "\n\nBased on my health records below, what are my chances of success with this clinical trial?"
    + "\n\n**My Health Records**:"
  const RecordsClause := RecordsHeading + "\n"
  const TypicalClause := "\n\nWhat are the typical chances of success " + "for patients in this trial?"

  /** The inquiry text exactly as the template literal builds it, before trimming;
      this untrimmed text is what is sent as the symptoms. */
  function TrialInquiryRaw(t: Trial, hasRecords: bool, records: string): string
  {
    "\n" + InquiryCore(t)
    + (if RecordsAttached(hasRecords, records) then RecordsClause + records else TypicalClause)
  }

  /** The user message shown for an inquiry: the raw text trimmed. */
  function TrialInquiryMessage(t: Trial, hasRecords: bool, records: string): string
  {
    Trim(TrialInquiryRaw(t, hasRecords, records), IsJsSpace)
  }

  lemma InquiryCoreStarts(t: Trial)
    ensures |InquiryCore(t)| > 0 && InquiryCore(t)[0] == 'I'
  {
    assert InquiryOpening[0] == 'I';
  }

  /** Without records, trimming only drops the leading newline. */
  lemma TrialInquiryShapeTypical(t: Trial, hasRecords: bool, records: string)
    requires !RecordsAttached(hasRecords, records)
    ensures TrialInquiryMessage(t, hasRecords, records) == InquiryCore(t) + TypicalClause
  {
    var core := InquiryCore(t);
    var body := core + TypicalClause;
    InquiryCoreStarts(t);
    assert body[|body| - 1] == '?';
    ConcatAssoc("\n", core, TypicalClause);
    assert body + [] == body;
    TrimFramed("\n", body, [], IsJsSpace);
  }

  /** With records, trimming also drops the trailing blanks of the record content. */
  lemma TrialInquiryShapeRecords(t: Trial, hasRecords: bool, records: string)
    requires RecordsAttached(hasRecords, records) && !AllSpace(records, IsJsSpace)
    ensures TrialInquiryMessage(t, hasRecords, records) == InquiryCore(t) + RecordsClause + TrimEnd(records, IsJsSpace)
  {
    var core := InquiryCore(t);
    var body := core + RecordsHeading;
    InquiryCoreStarts(t);
    assert body[|body| - 1] == ':';
    ConcatAssoc("\n", core, RecordsClause + records);
    ConcatAssoc(RecordsHeading, "\n", records);
    ConcatAssoc(core, RecordsHeading, "\n" + records);
    TrimFramed("\n", body, "\n" + records, IsJsSpace);
    TrimEndConcat("\n", records, IsJsSpace);
    var r := TrimEnd(records, IsJsSpace);
    ConcatAssoc(core, RecordsHeading, "\n" + r);
    ConcatAssoc(RecordsHeading, "\n", r);
    ConcatAssoc(core, RecordsClause, r);
  }

  /** Blank record content disappears together with the clause's last newline. */
  lemma TrialInquiryShapeBlankRecords(t: Trial, hasRecords: bool, records: string)
    requires RecordsAttached(hasRecords, records) && AllSpace(records, IsJsSpace)
    ensures TrialInquiryMessage(t, hasRecords, records) == InquiryCore(t) + RecordsHeading
  {
    var body := InquiryCore(t) + RecordsHeading;
    InquiryCoreStarts(t);
    assert body[|body| - 1] == ':';
    assert TrialInquiryRaw(t, hasRecords, records) == "\n" + (body + ("\n" + records));
    TrimFramed("\n", body, "\n" + records, IsJsSpace);
    TrimEndConcat("\n", records, IsJsSpace);
    TrimEndAllSpace("\n", IsJsSpace);
  }

  /** The trimmed inquiry always begins with the opening and the trial description. */
  lemma TrialInquiryStartsWithCore(t: Trial, hasRecords: bool, records: string)
    ensures IsPrefix(InquiryCore(t), TrialInquiryMessage(t, hasRecords, records))
  {
    var core := InquiryCore(t);
    if !RecordsAttached(hasRecords, records) {
      TrialInquiryShapeTypical(t, hasRecords, records);
      assert (core + TypicalClause)[..|core|] == core;
    } else if AllSpace(records, IsJsSpace) {
      TrialInquiryShapeBlankRecords(t, hasRecords, records);
      assert (core + RecordsHeading)[..|core|] == core;
    } else {
      TrialInquiryShapeRecords(t, hasRecords, records);
      var r := TrimEnd(records, IsJsSpace);
      ConcatAssoc(core, RecordsClause, r);
      assert (core + (RecordsClause + r))[..|core|] == core;
    }
  }

  /** The opening and description name every field of the trial and ask the
      success question. */
  lemma InquiryCoreMentions(t: Trial)
    ensures var c := InquiryCore(t);
      Contains(c, t.title) && Contains(c, t.condition) && Contains(c, t.intervention)
      && Contains(c, t.eligibility) && Contains(c, SuccessQuestion)
  {
    var parts := InquiryParts(t);
    forall k | 0 <= k < |parts|
      ensures Contains(InquiryCore(t), parts[k])
    {
      ConcatContainsPart(parts, k);
      ContainsExtend(InquiryOpening, InquiryDetails(t), parts[k]);
    }
    assert parts[0] == t.title && parts[2] == t.condition && parts[4] == t.intervention;
    assert parts[6] == t.eligibility && parts[8] == SuccessQuestion;
  }

  /** The inquiry names every field of the trial and asks the success question. */
  lemma TrialInquiryMentionsTrial(t: Trial, hasRecords: bool, records: string)
    ensures var m := TrialInquiryMessage(t, hasRecords, records);
      Contains(m, t.title) && Contains(m, t.condition) && Contains(m, t.intervention)
      && Contains(m, t.eligibility) && Contains(m, SuccessQuestion)
  {
    var m := TrialInquiryMessage(t, hasRecords, records);
    var c := InquiryCore(t);
    TrialInquiryStartsWithCore(t, hasRecords, records);
    InquiryCoreMentions(t);
    ContainsViaPrefix(c, m, t.title);
    ContainsViaPrefix(c, m, t.condition);
    ContainsViaPrefix(c, m, t.intervention);
    ContainsViaPrefix(c, m, t.eligibility);
    ContainsViaPrefix(c, m, SuccessQuestion);
  }

  // ---------------------------------------------------------------------------
  // The page component

  class HomePage {
    var messages: seq<Message>
    var conversationStage: Stage
    var userSymptoms: string
    var userHistory: string
    var medicalRecords: string
    var hasMedicalRecords: bool
    var clinicalTrials: seq<Trial>
    var showTrials: bool
    var isLoading: bool
    /** Requests whose `fetch` has not settled yet. */
    var inFlight: seq<PendingCall>

    function State(): PageState
      reads this
    {
      PageState(messages, conversationStage, userSymptoms, userHistory, medicalRecords,
                hasMedicalRecords, clinicalTrials, showTrials, isLoading, inFlight)
    }

    /** What every handler keeps: "results" is never entered, the busy flag is
        only up while a request is outstanding, the trial panel is shown exactly
        when there are trials, and cleared records leave no content behind. */
    ghost predicate Valid()
      reads this
    {
      && conversationStage != Results
      && (isLoading ==> inFlight != [])
      && (showTrials <==> clinicalTrials != [])
      && (!hasMedicalRecords ==> medicalRecords == "")
    }

    constructor ()
      ensures Valid()
      ensures State() == PageState([], Initial, "", "", "", false, [], false, false, [])
    {
      messages := [];
      conversationStage := Initial;
      userSymptoms := "";
      userHistory := "";
      medicalRecords := "";
      hasMedicalRecords := false;
      clinicalTrials := [];
      showTrials := false;
      isLoading := false;
      inFlight := [];
    }

    method HandleRecordsUploaded(records: string)
      requires Valid()
      modifies this
      ensures Valid()
      ensures State() == old(State()).(
        medicalRecords := records,
        hasMedicalRecords := true,
        messages := old(messages) + if old(messages) != [] then [Message(|old(messages)| + 1, UploadNotice, Bot)] else [])
    {
      medicalRecords := records;
      hasMedicalRecords := true;
      if |messages| > 0 {
        messages := messages + [Message(|messages| + 1, UploadNotice, Bot)];
      }
    }

    method HandleRecordsRemoved()
      requires Valid()
      modifies this
      ensures Valid()
      ensures State() == old(State()).(
        medicalRecords := "",
        hasMedicalRecords := false,
        messages := old(messages) + if old(messages) != [] then [Message(|old(messages)| + 1, RemovalNotice, Bot)] else [])
    {
      medicalRecords := "";
      hasMedicalRecords := false;
      if |messages| > 0 {
        messages := messages + [Message(|messages| + 1, RemovalNotice, Bot)];
      }
    }

    /** Replaces the transcript with the symptoms question (and the records
        acknowledgement when records are present). */
    method StartConversation()
      requires Valid()
      modifies this
      ensures Valid()
      ensures State() == old(State()).(
        conversationStage := AskingSymptoms,
        messages := [Message(1, SymptomsQuestion, Bot)]
                    + if old(hasMedicalRecords) then [Message(2, RecordsAcknowledgement, Bot)] else [])
    {
      conversationStage := AskingSymptoms;
      messages := [Message(1, SymptomsQuestion, Bot)];
      if hasMedicalRecords {
        messages := messages + [Message(2, RecordsAcknowledgement, Bot)];
      }
    }

    /** Marks the page busy and sends the payload for `(symptoms, history)`. */
    method MakeApiCall(symptoms: string, history: string, idBase: int) returns (p: Payload)
      requires Valid()
      modifies this
      ensures Valid()
      ensures p == BuildPayload(symptoms, history, old(hasMedicalRecords), old(medicalRecords))
      ensures State() == old(State()).(isLoading := true, inFlight := old(inFlight) + [PendingCall(p, idBase)])
    {
      isLoading := true;
      p := BuildPayload(symptoms, history, hasMedicalRecords, medicalRecords);
      inFlight := inFlight + [PendingCall(p, idBase)];
    }

    /** The send button / Enter key with input box content `text`. */
    method HandleSendMessage(text: string) returns (sent: Option<Payload>)
      requires Valid()
      modifies this
      ensures Valid()
      ensures IsBlank(text, IsJsSpace) || old(isLoading) ==> sent == None && State() == old(State())
      ensures !IsBlank(text, IsJsSpace) && !old(isLoading) && old(conversationStage) == AskingSymptoms ==>
        && sent == None
        && State() == old(State()).(
             messages := old(messages) + [Message(|old(messages)| + 1, text, User),
                                          Message(|old(messages)| + 2, HistoryQuestion, Bot)],
             userSymptoms := text,
             conversationStage := AskingHistory)
      ensures !IsBlank(text, IsJsSpace) && !old(isLoading) && old(conversationStage) == AskingHistory ==>
        && sent == Some(BuildPayload(old(userSymptoms), text, old(hasMedicalRecords), old(medicalRecords)))
        && State() == old(State()).(
             messages := old(messages) + [Message(|old(messages)| + 1, text, User),
                                          Message(|old(messages)| + 2, AnalyzingHistoryText(old(hasMedicalRecords)), Bot)],
             userHistory := text,
             conversationStage := Analyzing,
             isLoading := true,
             inFlight := old(inFlight) + [PendingCall(sent.value, |old(messages)|)])
      ensures !IsBlank(text, IsJsSpace) && !old(isLoading)
              && old(conversationStage) != AskingSymptoms && old(conversationStage) != AskingHistory ==>
        && sent == Some(BuildPayload(text, "", old(hasMedicalRecords), old(medicalRecords)))
        && State() == old(State()).(
             messages := old(messages) + [Message(|old(messages)| + 1, text, User),
                                          Message(|old(messages)| + 2, AnalyzingNewInfoText(old(hasMedicalRecords)), Bot)],
             isLoading := true,
             inFlight := old(inFlight) + [PendingCall(sent.value, |old(messages)|)])
    {
      if IsBlank(text, IsJsSpace) || isLoading {
        return None;
      }
      if conversationStage == AskingSymptoms {
        AnswerSymptoms(text);
        sent := None;
      } else if conversationStage == AskingHistory {
        var p := AnswerHistory(text);
        sent := Some(p);
      } else {
        var p := SendFollowUp(text);
        sent := Some(p);
      }
    }

    method AnswerSymptoms(text: string)
      requires Valid()
      modifies this
      ensures Valid()
      ensures State() == old(State()).(
        messages := old(messages) + [Message(|old(messages)| + 1, text, User),
                                     Message(|old(messages)| + 2, HistoryQuestion, Bot)],
        userSymptoms := text,
        conversationStage := AskingHistory)
    {
      var n := |messages|;
      messages := messages + [Message(n + 1, text, User)];
      userSymptoms := text;
      conversationStage := AskingHistory;
      messages := messages + [Message(n + 2, HistoryQuestion, Bot)];
    }

    method AnswerHistory(text: string) returns (p: Payload)
      requires Valid()
      requires conversationStage == AskingHistory
      modifies this
      ensures Valid()
      ensures p == BuildPayload(old(userSymptoms), text, old(hasMedicalRecords), old(medicalRecords))
      ensures State() == old(State()).(
        messages := old(messages) + [Message(|old(messages)| + 1, text, User),
                                     Message(|old(messages)| + 2, AnalyzingHistoryText(old(hasMedicalRecords)), Bot)],
        userHistory := text,
        conversationStage := Analyzing,
        isLoading := true,
        inFlight := old(inFlight) + [PendingCall(p, |old(messages)|)])
    {
      ghost var before := State();
      var n := |messages|;
      var symptoms := userSymptoms;
      messages := messages + [Message(n + 1, text, User)];
      userHistory := text;
      conversationStage := Analyzing;
      messages := messages + [Message(n + 2, AnalyzingHistoryText(hasMedicalRecords), Bot)];
      assert State() == before.(messages := messages, userHistory := text, conversationStage := Analyzing);
      p := MakeApiCall(symptoms, text, n);
    }

    method SendFollowUp(text: string) returns (p: Payload)
      requires Valid()
      modifies this
      ensures Valid()
      ensures p == BuildPayload(text, "", old(hasMedicalRecords), old(medicalRecords))
      ensures State() == old(State()).(
        messages := old(messages) + [Message(|old(messages)| + 1, text, User),
                                     Message(|old(messages)| + 2, AnalyzingNewInfoText(old(hasMedicalRecords)), Bot)],
        isLoading := true,
        inFlight := old(inFlight) + [PendingCall(p, |old(messages)|)])
    {
      var n := |messages|;
      messages := messages + [Message(n + 1, text, User)];
      messages := messages + [Message(n + 2, AnalyzingNewInfoText(hasMedicalRecords), Bot)];
      p := MakeApiCall(text, "", n);
    }

    /** A click on the centre card of the disease carousel. */
    method HandleDiseaseSelect(diseaseName: string) returns (sent: Option<Payload>)
      requires Valid()
      modifies this
      ensures Valid()
      ensures old(conversationStage) == Initial ==>
        && sent == None
        && State() == old(State()).(
             conversationStage := AskingSymptoms,
             messages := [Message(1, SymptomsQuestion, Bot)]
                         + if old(hasMedicalRecords) then [Message(2, RecordsAcknowledgement, Bot)] else [])
      ensures old(conversationStage) != Initial ==>
        && sent == Some(BuildPayload(DiseaseQuery(diseaseName), "", old(hasMedicalRecords), old(medicalRecords)))
        && State() == old(State()).(
             messages := old(messages) + [Message(|old(messages)| + 1, DiseaseQuery(diseaseName), User),
                                          Message(|old(messages)| + 2, AnalyzingRequestText(old(hasMedicalRecords)), Bot)],
             isLoading := true,
             inFlight := old(inFlight) + [PendingCall(sent.value, |old(messages)|)])
    {
      if conversationStage == Initial {
        StartConversation();
        sent := None;
      } else {
        ghost var before := State();
        var n := |messages|;
        messages := messages + [Message(n + 1, DiseaseQuery(diseaseName), User)];
        messages := messages + [Message(n + 2, AnalyzingRequestText(hasMedicalRecords), Bot)];
        assert State() == before.(messages := messages);
        var p := MakeApiCall(DiseaseQuery(diseaseName), "", n);
        sent := Some(p);
      }
    }

    /** "View details" on a clinical trial card. */
    method HandleViewTrialDetails(t: Trial) returns (sent: Payload)
      requires Valid()
      modifies this
      ensures Valid()
      ensures sent == BuildPayload(TrialInquiryRaw(t, old(hasMedicalRecords), old(medicalRecords)), "",
                                   old(hasMedicalRecords), old(medicalRecords))
      ensures State() == old(State()).(
        messages := old(messages) + [Message(|old(messages)| + 1, TrialInquiryMessage(t, old(hasMedicalRecords), old(medicalRecords)), User),
                                     Message(|old(messages)| + 2, AnalyzingTrialText(old(hasMedicalRecords)), Bot)],
        isLoading := true,
        inFlight := old(inFlight) + [PendingCall(sent, |old(messages)|)])
    {
      var raw := TrialInquiryRaw(t, hasMedicalRecords, medicalRecords);
      var n := |messages|;
      PostInquiry(t);
      sent := MakeApiCall(raw, "", n);
    }

    /** The two messages `handleViewTrialDetails` appends: the trimmed inquiry
        as a user message, then the analyzing notice. */
    method PostInquiry(t: Trial)
      requires Valid()
      modifies this`messages
      ensures Valid()
      ensures messages == old(messages)
        + [Message(|old(messages)| + 1, TrialInquiryMessage(t, hasMedicalRecords, medicalRecords), User),
           Message(|old(messages)| + 2, AnalyzingTrialText(hasMedicalRecords), Bot)]
    {
      var n := |messages|;
      messages := messages + [Message(n + 1, TrialInquiryMessage(t, hasMedicalRecords, medicalRecords), User),
                              Message(n + 2, AnalyzingTrialText(hasMedicalRecords), Bot)];
    }

    /** The settling of the `k`-th outstanding request: exactly one bot message
        is appended and the busy flag drops; only a success moves the
        conversation to "followup" and replaces the trial list. */
    method CompleteApiCall(k: nat, outcome: Outcome)
      requires Valid()
      requires k < |inFlight|
      modifies this
      ensures Valid()
      ensures outcome.Success? ==>
        State() == old(State()).(
          messages := old(messages) + [Message(old(inFlight)[k].idBase + 3, outcome.answer, Bot)],
          clinicalTrials := outcome.trials,
          showTrials := outcome.trials != [],
          conversationStage := Followup,
          isLoading := false,
          inFlight := old(inFlight)[..k] + old(inFlight)[k + 1..])
      ensures outcome.Failure? ==>
        State() == old(State()).(
          messages := old(messages) + [Message(old(inFlight)[k].idBase + 3, ErrorText, Bot)],
          isLoading := false,
          inFlight := old(inFlight)[..k] + old(inFlight)[k + 1..])
    {
      var call := inFlight[k];
      inFlight := inFlight[..k] + inFlight[k + 1..];
      match outcome {
        case Success(answer, trials) =>
          if |trials| > 0 {
            clinicalTrials := trials;
            showTrials := true;
          } else {
            clinicalTrials := [];
            showTrials := false;
          }
          messages := messages + [Message(call.idBase + 3, answer, Bot)];
          conversationStage := Followup;
        case Failure =>
          messages := messages + [Message(call.idBase + 3, ErrorText, Bot)];
      }
      isLoading := false;
    }
  }
}
