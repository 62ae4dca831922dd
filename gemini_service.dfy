/** The client side of the AI service (services/geminiService.ts): the local crisis
    keyword check, the windows of history each request sends, and the values the client
    falls back to when a request fails. The HTTP requests themselves are not modelled:
    a failed or missing reply is `None`. */
module GeminiService {
  import opened Wrappers
  import opened Strings
  import opened Types

  /** The phrases that mark a message as a possible crisis. */
  const CrisisKeywords: seq<string> :=
    ["suicide", "kill myself", "end my life", "want to die", "hurt myself", "self-harm", "cut myself"]

  /** Some keyword of `keywords` occurs in `text`. */
  predicate AnyContains(text: string, keywords: seq<string>)
  {
    exists i :: 0 <= i < |keywords| && Contains(text, keywords[i])
  }

  /** `detectCrisis`: false for the empty text, otherwise whether the lower-cased text
      contains one of the keywords. */
  predicate DetectCrisis(text: string)
  {
    text != [] && AnyContains(Lower(text), CrisisKeywords)
  }

  /** The check is insensitive to (ASCII) case. */
  lemma DetectCrisisIgnoresCase(text: string)
    ensures DetectCrisis(Lower(text)) == DetectCrisis(text)
  {
    LowerIdempotent(text);
  }

  /** A crisis phrase stays detected whatever is written around it. */
  lemma DetectCrisisInContext(before: string, text: string, after: string)
    requires DetectCrisis(text)
    ensures DetectCrisis(before + text + after)
  {
    var i :| 0 <= i < |CrisisKeywords| && Contains(Lower(text), CrisisKeywords[i]);
    LowerAppend(before + text, after);
    LowerAppend(before, text);
    ContainsExtend(Lower(text), CrisisKeywords[i], Lower(before), Lower(after));
  }

  /** `detectCrisis` holds exactly for a non-empty text one of whose positions starts a
      keyword once the text is lower-cased. */
  lemma DetectCrisisIff(text: string)
    ensures DetectCrisis(text) <==>
            text != [] && exists i, p: nat :: 0 <= i < |CrisisKeywords| && OccursAt(Lower(text), CrisisKeywords[i], p)
  {
    forall i | 0 <= i < |CrisisKeywords| {
      ContainsIff(Lower(text), CrisisKeywords[i]);
    }
  }

  /** `analyzeSentiment` on failure: score 0, Neutral, no emotions and no keywords. */
  const SentimentFallback: SentimentAnalysis := SentimentAnalysis(0, NeutralLabel, [], [])

  /** The parsed reply of `analyzeSentiment`, or the fallback. */
  function SentimentOrFallback(reply: Option<SentimentAnalysis>): (r: SentimentAnalysis)
    ensures reply.None? ==> r.score == 0 && r.polarity == NeutralLabel && r.emotions == [] && r.keywords == []
    ensures reply.Some? ==> r == reply.value
  {
    match reply
    case Some(s) => s
    case None => SentimentFallback
  }

  /** `generateTaskBreakdown`: the reply's description, or "" when the request fails or the
      description is missing. */
  function TaskBreakdown(description: Option<string>): (r: string)
    ensures description.None? ==> r == ""
    ensures description.Some? ==> r == description.value
  {
    match description
    case Some(d) => d
    case None => ""
  }

  /** The text `generateClinicalSummary` resolves to when the request fails. */
  const SummaryFailureText: string := "Unable to generate AI summary at this time."

  /** The questions `generateAssessmentQuestions` resolves to when the request fails. */
  const FallbackQuestions: seq<string> := [
    "How have you been sleeping lately?",
    "What is occupying most of your mental space today?",
    "What is one small thing you can do for yourself right now?"
  ]

  /** The reply to the questions request, or the three fixed questions. */
  function QuestionsOrFallback(reply: Option<seq<string>>): (r: seq<string>)
    ensures reply.None? ==> |r| == 3 && r == FallbackQuestions
    ensures reply.Some? ==> r == reply.value
  {
    match reply
    case Some(q) => q
    case None => FallbackQuestions
  }

  /** The assessment result; only `currentVibe` of the fallback is modelled word for word. */
  datatype Assessment = Assessment(currentVibe: string, emotionalPatterns: string,
                                   keyInsights: seq<string>, recommendations: seq<string>)

  const FallbackAssessment: Assessment := Assessment(
    "Quiet and Reflective",
    "I'm unable to analyze your patterns fully right now, but taking a moment to breathe is always a good step.",
    ["You are taking steps to track your wellness.", "Consistency is key to understanding yourself."],
    ["Take three deep breaths.", "Drink a glass of water.", "Step outside for a moment."])

  function AssessmentOrFallback(reply: Option<Assessment>): (r: Assessment)
    ensures reply.None? ==> r.currentVibe == "Quiet and Reflective" && |r.keyInsights| == 2 && |r.recommendations| == 3
    ensures reply.Some? ==> r == reply.value
  {
    match reply
    case Some(a) => a
    case None => FallbackAssessment
  }

  /** How many characters of a journal the clinical summary sends. */
  const SummaryClip: nat := 150

  /** `content.substring(0, 150) + "..."`: the content cut to 150 UTF-16 code units (all of
      a shorter content), always followed by "...". A cut that would split a surrogate pair
      keeps 149 units. */
  function ClipContent(content: string): (r: string)
    ensures |r| >= 3 && r[..|r| - 3] <= content && r[|r| - 3..] == "..."
    ensures Utf16Length(r[..|r| - 3]) <= SummaryClip
    ensures Utf16Length(content) <= SummaryClip ==> r[..|r| - 3] == content
    ensures Utf16Length(content) > SummaryClip ==> SummaryClip - 1 <= Utf16Length(r[..|r| - 3])
  {
    var kept := Utf16Prefix(content, SummaryClip);
    Utf16PrefixCut(content, SummaryClip);
    assert (kept + "...")[..|kept|] == kept;
    kept + "..."
  }

  /** A journal as the clinical summary sends it: its date text and clipped content. */
  datatype DatedJournal = DatedJournal(date: string, content: string)

  function DatedJournals(journals: seq<JournalEntry>, date: int -> string): (r: seq<DatedJournal>)
    ensures |r| == |journals|
    ensures forall i :: 0 <= i < |journals| ==>
              r[i] == DatedJournal(date(journals[i].timestamp), ClipContent(journals[i].content))
  {
    if journals == [] then []
    else [DatedJournal(date(journals[0].timestamp), ClipContent(journals[0].content))] +
         DatedJournals(journals[1..], date)
  }

  /** The clinical summary request: the last 20 moods and the last 5 journals, each clipped.
      `date` renders a timestamp as the locale date. */
  datatype SummaryRequest = SummaryRequest(moods: seq<MoodEntry>, journals: seq<DatedJournal>,
                                           tasks: seq<Task>, userName: string)

  function ClinicalSummaryRequest(moods: seq<MoodEntry>, journals: seq<JournalEntry>, tasks: seq<Task>,
                                  userName: string, date: int -> string): (r: SummaryRequest)
    ensures r.moods == LastN(moods, 20) && |r.journals| == |LastN(journals, 5)| <= 5
    ensures forall i :: 0 <= i < |r.journals| ==>
              r.journals[i].content == ClipContent(LastN(journals, 5)[i].content)
    ensures r.tasks == tasks && r.userName == userName
  {
    SummaryRequest(LastN(moods, 20), DatedJournals(LastN(journals, 5), date), tasks, userName)
  }

  function Contents(journals: seq<JournalEntry>): (r: seq<string>)
    ensures |r| == |journals|
    ensures forall i :: 0 <= i < |journals| ==> r[i] == journals[i].content
  {
    if journals == [] then [] else [journals[0].content] + Contents(journals[1..])
  }

  /** The assessment-questions request: the last 5 moods and the contents of the last 3 journals. */
  datatype QuestionsRequest = QuestionsRequest(moods: seq<MoodEntry>, journals: seq<string>, tasks: seq<Task>)

  function AssessmentQuestionsRequest(moods: seq<MoodEntry>, journals: seq<JournalEntry>, tasks: seq<Task>)
    : (r: QuestionsRequest)
    ensures r.moods == LastN(moods, 5) && |r.journals| == |LastN(journals, 3)| <= 3
    ensures forall i :: 0 <= i < |r.journals| ==> r.journals[i] == journals[|journals| - |r.journals| + i].content
    ensures r.tasks == tasks
  {
    QuestionsRequest(LastN(moods, 5), Contents(LastN(journals, 3)), tasks)
  }

  /** A journal reduced to its title and content. */
  datatype TitledJournal = TitledJournal(title: string, content: string)

  function TitledJournals(journals: seq<JournalEntry>): (r: seq<TitledJournal>)
    ensures |r| == |journals|
    ensures forall i :: 0 <= i < |journals| ==> r[i] == TitledJournal(journals[i].title, journals[i].content)
  {
    if journals == [] then []
    else [TitledJournal(journals[0].title, journals[0].content)] + TitledJournals(journals[1..])
  }

  /** One answered question of the self-assessment. */
  datatype QaPair = QaPair(question: string, answer: string)

  /** The wellness-assessment request: the last 10 moods and the last 5 journals reduced to
      title and content. */
  datatype WellnessRequest = WellnessRequest(moods: seq<MoodEntry>, journals: seq<TitledJournal>,
                                             tasks: seq<Task>, qaPairs: seq<QaPair>)

  function WellnessAssessmentRequest(moods: seq<MoodEntry>, journals: seq<JournalEntry>, tasks: seq<Task>,
                                     qaPairs: seq<QaPair>): (r: WellnessRequest)
    ensures r.moods == LastN(moods, 10) && |r.journals| == |LastN(journals, 5)| <= 5
    ensures forall i :: 0 <= i < |r.journals| ==>
              r.journals[i] == TitledJournal(journals[|journals| - |r.journals| + i].title,
                                             journals[|journals| - |r.journals| + i].content)
    ensures r.tasks == tasks && r.qaPairs == qaPairs
  {
    WellnessRequest(LastN(moods, 10), TitledJournals(LastN(journals, 5)), tasks, qaPairs)
  }
}
