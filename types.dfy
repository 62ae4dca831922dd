/** Records shared by the whole app (types.ts), as immutable values. */
module Types {
  import opened Wrappers
  import opened Strings
  import opened Sorting

  /** The six moods a user can log, in the order the app declares them. */
  datatype MoodType = Happy | Calm | Neutral | Sad | Anxious | Angry

  const AllMoods: seq<MoodType> := [Happy, Calm, Neutral, Sad, Anxious, Angry]

  function MoodName(m: MoodType): (r: string)
    ensures |r| > 0
  {
    match m
    case Happy => "Happy"
    case Calm => "Calm"
    case Neutral => "Neutral"
    case Sad => "Sad"
    case Anxious => "Anxious"
    case Angry => "Angry"
  }

  datatype SleepQuality = Excellent | Good | Fair | Poor

  function QualityName(q: SleepQuality): string
  {
    match q
    case Excellent => "Excellent"
    case Good => "Good"
    case Fair => "Fair"
    case Poor => "Poor"
  }

  datatype Role = User | Model | System

  /** The label the sentiment analyser attaches. The analyser's reply is parsed JSON,
      so anything else it sends is kept as `Unrecognised`. */
  datatype SentimentLabel = Positive | NeutralLabel | Negative | Unrecognised(text: string)

  /** `score` is the analyser's floating-point score, kept as an opaque integer; `polarity` is its `label`. */
  datatype SentimentAnalysis = SentimentAnalysis(
    score: int, polarity: SentimentLabel, emotions: seq<string>, keywords: seq<string>)

  datatype MoodEntry = MoodEntry(id: string, mood: MoodType, note: string, timestamp: int)

  /** `dueDate` is the due instant in milliseconds; `None` stands for a missing or empty date string. */
  datatype Task = Task(
    id: string, title: string, completed: bool, category: string,
    dueDate: Option<int>, reflection: Option<string>, description: Option<string>)

  /** An empty `id` stands for a missing (falsy) id. */
  datatype ChatMessage = ChatMessage(
    id: string, role: Role, text: string, timestamp: int, sentiment: Option<SentimentAnalysis>)

  datatype JournalEntry = JournalEntry(
    id: string, title: string, content: string, timestamp: int,
    tags: seq<string>, sentiment: Option<SentimentAnalysis>)

  datatype BreathingSession = BreathingSession(id: string, timestamp: int, durationSeconds: nat)

  /** Task ids are `String(Date.now())` at creation, so `Number(id)` is the creation instant. */
  predicate NumericIds(tasks: seq<Task>)
  {
    forall i :: 0 <= i < |tasks| ==> AllDigits(tasks[i].id)
  }

  /** `Number(task.id)` for a digit-string id. */
  function CreatedAt(t: Task): nat
    requires AllDigits(t.id)
  {
    DigitsValue(t.id)
  }

  /** The sort key of `(a, b) => Number(a.id) - Number(b.id)`; ids outside `NumericIds`
      (whose `Number` is NaN) are out of scope and get key 0. */
  function IdKey(t: Task): ExtInt
  {
    if AllDigits(t.id) then Fin(CreatedAt(t)) else Fin(0)
  }

  /** `halfHours` is the slept time in half-hour steps (the app offers 0.5 h increments). */
  datatype SleepEntry = SleepEntry(id: string, timestamp: int, halfHours: nat, quality: SleepQuality)

  /** The last `n` elements of `s`, or all of it when it is shorter (JavaScript `slice(-n)`). */
  function LastN<T>(s: seq<T>, n: nat): (r: seq<T>)
    ensures |r| == if |s| < n then |s| else n
    ensures r == s[|s| - |r|..]
  {
    if |s| <= n then s else s[|s| - n..]
  }
}
