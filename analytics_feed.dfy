/** The activity feed of the analytics page (pages/AnalyticsPage.tsx, `activities` and
    the filter, slice and "Load Previous" logic under it): every record of six kinds
    becomes one tagged item with fixed title and subtitle rules, chat messages count
    once per session, and the merged list is sorted newest first. */
module ActivityFeed {
  import opened Wrappers
  import opened Types
  import opened Strings
  import opened Sorting
  import opened ChatSessionizer

  datatype ActivityKind = MoodKind | JournalKind | ChatKind | BreathingKind | TaskKind | SleepKind

  /** The record an item was built from (`data`). */
  datatype ActivityData =
    | MoodData(mood: MoodEntry)
    | JournalData(journal: JournalEntry)
    | BreathingData(breathing: BreathingSession)
    | ChatData(session: seq<ChatMessage>)
    | TaskData(task: Task)
    | SleepData(sleep: SleepEntry)

  /** One feed row; the icon and colour classes are presentation and are not modelled. */
  datatype ActivityItem = ActivityItem(
    id: string, kind: ActivityKind, timestamp: int, title: string, subtitle: string, data: ActivityData)

  /** What the page receives (`sleepHistory` defaults to the empty list). */
  datatype PageData = PageData(
    moodHistory: seq<MoodEntry>, journalHistory: seq<JournalEntry>, chatHistory: seq<ChatMessage>,
    breathingHistory: seq<BreathingSession>, tasks: seq<Task>, sleepHistory: seq<SleepEntry>)

  /** Journal previews keep this many UTF-16 code units of the content. */
  const PreviewLength: nat := 60

  /** "Load Previous" shows this many more items; it is also the initial page size. */
  const PageStep: nat := 20

  function MoodItem(m: MoodEntry): (r: ActivityItem)
    ensures r.kind == MoodKind && r.data == MoodData(m)
  {
    ActivityItem("m-" + m.id, MoodKind, m.timestamp, "Mood Logged: " + MoodName(m.mood), m.note, MoodData(m))
  }

  /** `content.length > 60 ? content.substring(0, 60) + '...' : content`, with `length` and
      `substring` counting UTF-16 code units. */
  function JournalPreview(content: string): string
  {
    if Utf16Length(content) > PreviewLength then Utf16Prefix(content, PreviewLength) + "..."
    else content
  }

  function JournalItem(j: JournalEntry): (r: ActivityItem)
    ensures r.kind == JournalKind && r.timestamp == j.timestamp && r.data == JournalData(j)
    ensures r.title != "" && (j.title != "" ==> r.title == j.title)
    ensures Utf16Length(j.content) <= PreviewLength ==> r.subtitle == j.content
  {
    ActivityItem("j-" + j.id, JournalKind, j.timestamp,
      if j.title == "" then "Journal Entry" else j.title, JournalPreview(j.content), JournalData(j))
  }

  function BreathingSubtitle(seconds: nat): string
  {
    NatToString(seconds / 60) + "m " + NatToString(seconds % 60) + "s session"
  }

  function BreathingItem(b: BreathingSession): (r: ActivityItem)
    ensures r.kind == BreathingKind && r.data == BreathingData(b)
  {
    ActivityItem("b-" + b.id, BreathingKind, b.timestamp, "Breathing Focus",
      BreathingSubtitle(b.durationSeconds), BreathingData(b))
  }

  /** `session.find(m => m.role === 'user')`. */
  function FirstUserMessage(session: seq<ChatMessage>): (r: Option<ChatMessage>)
    ensures r.None? <==> forall i :: 0 <= i < |session| ==> session[i].role != User
    ensures r.Some? ==>
              exists i :: 0 <= i < |session| && session[i] == r.value && r.value.role == User &&
                          (forall j :: 0 <= j < i ==> session[j].role != User)
  {
    if session == [] then None
    else if session[0].role == User then Some(session[0])
    else
      var r := FirstUserMessage(session[1..]);
      assert r.Some? ==>
               exists i :: 1 <= i < |session| && session[i] == r.value &&
                           (forall j :: 0 <= j < i ==> session[j].role != User) by {
        if r.Some? {
          var i :| 0 <= i < |session[1..]| && session[1..][i] == r.value &&
                   forall j :: 0 <= j < i ==> session[1..][j].role != User;
          assert session[i + 1] == r.value;
          assert forall j :: 0 <= j < i + 1 ==> session[j].role != User by {
            forall j | 0 <= j < i + 1 ensures session[j].role != User {
              if j > 0 { assert session[j] == session[1..][j - 1]; }
            }
          }
        }
      }
      r
  }

  function ChatPreview(session: seq<ChatMessage>): string
  {
    match FirstUserMessage(session)
    case Some(m) => "\"" + m.text + "\""
    case None => "Session started"
  }

  function ChatSubtitle(session: seq<ChatMessage>): string
  {
    NatToString(|session|) + " messages \U{2022} " + ChatPreview(session)
  }

  /** A chat session's item carries the id of its first message and the time of its last. */
  function ChatItem(session: seq<ChatMessage>): (r: ActivityItem)
    requires |session| > 0
    ensures r.kind == ChatKind && r.data == ChatData(session)
  {
    ActivityItem("session-" + session[0].id, ChatKind, Last(session).timestamp, "Voice/Chat Session",
      ChatSubtitle(session), ChatData(session))
  }

  /** A task's item is dated by `Number(task.id)`, its creation instant. */
  function TaskItem(t: Task): (r: ActivityItem)
    requires AllDigits(t.id)
    ensures r.kind == TaskKind && r.data == TaskData(t)
  {
    ActivityItem("t-" + t.id, TaskKind, CreatedAt(t), "Task Created: " + t.title, t.category, TaskData(t))
  }

  /** `${hours}` for a multiple of one half: "7", "7.5". */
  function HoursText(halfHours: nat): string
  {
    NatToString(halfHours / 2) + (if halfHours % 2 == 1 then ".5" else "")
  }

  function SleepItem(s: SleepEntry): (r: ActivityItem)
    ensures r.kind == SleepKind && r.data == SleepData(s)
  {
    ActivityItem("s-" + s.id, SleepKind, s.timestamp, "Sleep Tracked: " + HoursText(s.halfHours) + "h",
      QualityName(s.quality) + " Quality", SleepData(s))
  }

  function MoodItems(ms: seq<MoodEntry>): (r: seq<ActivityItem>)
    ensures |r| == |ms| && forall i :: 0 <= i < |ms| ==> r[i] == MoodItem(ms[i])
  {
    if ms == [] then [] else [MoodItem(ms[0])] + MoodItems(ms[1..])
  }

  function JournalItems(js: seq<JournalEntry>): (r: seq<ActivityItem>)
    ensures |r| == |js| && forall i :: 0 <= i < |js| ==> r[i] == JournalItem(js[i])
  {
    if js == [] then [] else [JournalItem(js[0])] + JournalItems(js[1..])
  }

  function BreathingItems(bs: seq<BreathingSession>): (r: seq<ActivityItem>)
    ensures |r| == |bs| && forall i :: 0 <= i < |bs| ==> r[i] == BreathingItem(bs[i])
  {
    if bs == [] then [] else [BreathingItem(bs[0])] + BreathingItems(bs[1..])
  }

  function SessionItems(ss: seq<seq<ChatMessage>>): (r: seq<ActivityItem>)
    requires NonEmptySessions(ss)
    ensures |r| == |ss| && forall i :: 0 <= i < |ss| ==> r[i] == ChatItem(ss[i])
  {
    if ss == [] then [] else [ChatItem(ss[0])] + SessionItems(ss[1..])
  }

  function TaskItems(ts: seq<Task>): (r: seq<ActivityItem>)
    requires NumericIds(ts)
    ensures |r| == |ts| && forall i :: 0 <= i < |ts| ==> r[i] == TaskItem(ts[i])
  {
    if ts == [] then [] else [TaskItem(ts[0])] + TaskItems(ts[1..])
  }

  function SleepItems(es: seq<SleepEntry>): (r: seq<ActivityItem>)
    ensures |r| == |es| && forall i :: 0 <= i < |es| ==> r[i] == SleepItem(es[i])
  {
    if es == [] then [] else [SleepItem(es[0])] + SleepItems(es[1..])
  }

  /** One item per chat session. */
  function ChatItems(history: seq<ChatMessage>): seq<ActivityItem>
  {
    SessionsPartitionHistory(history);
    SessionItems(Sessions(history))
  }

  /** Every record as an item, in the order the page spreads them, before sorting. */
  function Unsorted(d: PageData): seq<ActivityItem>
    requires NumericIds(d.tasks)
  {
    MoodItems(d.moodHistory) + JournalItems(d.journalHistory) + BreathingItems(d.breathingHistory) +
    ChatItems(d.chatHistory) + TaskItems(d.tasks) + SleepItems(d.sleepHistory)
  }

  function ItemTime(a: ActivityItem): ExtInt
  {
    Fin(a.timestamp)
  }

  /** `activities`: all items, newest first. */
  function Feed(d: PageData): seq<ActivityItem>
    requires NumericIds(d.tasks)
  {
    SortDescBy(Unsorted(d), ItemTime)
  }

  /** Two equally long sequences that agree position by position on where `x` and `y`
      stand hold them equally often. */
  lemma {:induction false} CountCorresponding<A, B>(xs: seq<A>, ys: seq<B>, x: A, y: B)
    requires |ys| == |xs|
    requires forall i :: 0 <= i < |xs| ==> (ys[i] == y <==> xs[i] == x)
    ensures multiset(ys)[y] == multiset(xs)[x]
  {
    if xs != [] {
      CountCorresponding(xs[1..], ys[1..], x, y);
      assert xs == [xs[0]] + xs[1..];
      assert ys == [ys[0]] + ys[1..];
    }
  }

  /** Different mood entries give different items (the item keeps its record). */
  lemma MoodItemsCount(ms: seq<MoodEntry>, m: MoodEntry)
    ensures multiset(MoodItems(ms))[MoodItem(m)] == multiset(ms)[m]
  {
    var r := MoodItems(ms);
    forall i | 0 <= i < |ms| ensures (r[i] == MoodItem(m) <==> ms[i] == m) {
      assert r[i].data == MoodData(ms[i]);
    }
    CountCorresponding(ms, r, m, MoodItem(m));
  }

  /** Different journal entries give different items (the item keeps its record). */
  lemma JournalItemsCount(js: seq<JournalEntry>, j: JournalEntry)
    ensures multiset(JournalItems(js))[JournalItem(j)] == multiset(js)[j]
  {
    var r := JournalItems(js);
    forall i | 0 <= i < |js| ensures (r[i] == JournalItem(j) <==> js[i] == j) {
      assert r[i].data == JournalData(js[i]);
    }
    CountCorresponding(js, r, j, JournalItem(j));
  }

  /** Different breathing sessions give different items (the item keeps its record). */
  lemma BreathingItemsCount(bs: seq<BreathingSession>, b: BreathingSession)
    ensures multiset(BreathingItems(bs))[BreathingItem(b)] == multiset(bs)[b]
  {
    var r := BreathingItems(bs);
    forall i | 0 <= i < |bs| ensures (r[i] == BreathingItem(b) <==> bs[i] == b) {
      assert r[i].data == BreathingData(bs[i]);
    }
    CountCorresponding(bs, r, b, BreathingItem(b));
  }

  /** Different chat sessions give different items (the item keeps its record). */
  lemma SessionItemsCount(ss: seq<seq<ChatMessage>>, s: seq<ChatMessage>)
    requires NonEmptySessions(ss) && |s| > 0
    ensures multiset(SessionItems(ss))[ChatItem(s)] == multiset(ss)[s]
  {
    var r := SessionItems(ss);
    forall i | 0 <= i < |ss| ensures (r[i] == ChatItem(s) <==> ss[i] == s) {
      assert r[i].data == ChatData(ss[i]);
    }
    CountCorresponding(ss, r, s, ChatItem(s));
  }

  /** Different tasks give different items (the item keeps its record). */
  lemma TaskItemsCount(ts: seq<Task>, t: Task)
    requires NumericIds(ts) && AllDigits(t.id)
    ensures multiset(TaskItems(ts))[TaskItem(t)] == multiset(ts)[t]
  {
    var r := TaskItems(ts);
    forall i | 0 <= i < |ts| ensures (r[i] == TaskItem(t) <==> ts[i] == t) {
      assert r[i].data == TaskData(ts[i]);
    }
    CountCorresponding(ts, r, t, TaskItem(t));
  }

  /** Different sleep entries give different items (the item keeps its record). */
  lemma SleepItemsCount(es: seq<SleepEntry>, e: SleepEntry)
    ensures multiset(SleepItems(es))[SleepItem(e)] == multiset(es)[e]
  {
    var r := SleepItems(es);
    forall i | 0 <= i < |es| ensures (r[i] == SleepItem(e) <==> es[i] == e) {
      assert r[i].data == SleepData(es[i]);
    }
    CountCorresponding(es, r, e, SleepItem(e));
  }

  /** The chat part of the feed is one item per session. */
  lemma ChatItemsSessions(history: seq<ChatMessage>)
    ensures NonEmptySessions(Sessions(history))
    ensures ChatItems(history) == SessionItems(Sessions(history))
  {
    SessionsPartitionHistory(history);
  }

  /** Sorting keeps every item: an item occurs in the feed as often as in the six parts together. */
  lemma FeedCountSplit(d: PageData, y: ActivityItem)
    requires NumericIds(d.tasks)
    ensures multiset(Feed(d))[y] ==
      multiset(MoodItems(d.moodHistory))[y] + multiset(JournalItems(d.journalHistory))[y] +
      multiset(BreathingItems(d.breathingHistory))[y] + multiset(ChatItems(d.chatHistory))[y] +
      multiset(TaskItems(d.tasks))[y] + multiset(SleepItems(d.sleepHistory))[y]
  {
  }

  /** A list of mood entry items holds no item of another kind. */
  lemma MoodItemsOnly(ms: seq<MoodEntry>, y: ActivityItem)
    requires y.kind != MoodKind
    ensures multiset(MoodItems(ms))[y] == 0
  {
    assert forall i :: 0 <= i < |ms| ==> MoodItems(ms)[i] != y;
  }

  /** A list of journal entry items holds no item of another kind. */
  lemma JournalItemsOnly(js: seq<JournalEntry>, y: ActivityItem)
    requires y.kind != JournalKind
    ensures multiset(JournalItems(js))[y] == 0
  {
    assert forall i :: 0 <= i < |js| ==> JournalItems(js)[i] != y;
  }

  /** A list of breathing session items holds no item of another kind. */
  lemma BreathingItemsOnly(bs: seq<BreathingSession>, y: ActivityItem)
    requires y.kind != BreathingKind
    ensures multiset(BreathingItems(bs))[y] == 0
  {
    assert forall i :: 0 <= i < |bs| ==> BreathingItems(bs)[i] != y;
  }

  /** A list of chat session items holds no item of another kind. */
  lemma SessionItemsOnly(ss: seq<seq<ChatMessage>>, y: ActivityItem)
    requires NonEmptySessions(ss)
    requires y.kind != ChatKind
    ensures multiset(SessionItems(ss))[y] == 0
  {
    assert forall i :: 0 <= i < |ss| ==> SessionItems(ss)[i] != y;
  }

  /** A list of task items holds no item of another kind. */
  lemma TaskItemsOnly(ts: seq<Task>, y: ActivityItem)
    requires NumericIds(ts)
    requires y.kind != TaskKind
    ensures multiset(TaskItems(ts))[y] == 0
  {
    assert forall i :: 0 <= i < |ts| ==> TaskItems(ts)[i] != y;
  }

  /** A list of sleep entry items holds no item of another kind. */
  lemma SleepItemsOnly(es: seq<SleepEntry>, y: ActivityItem)
    requires y.kind != SleepKind
    ensures multiset(SleepItems(es))[y] == 0
  {
    assert forall i :: 0 <= i < |es| ==> SleepItems(es)[i] != y;
  }

  /** A mood entry occurs in the feed as often as in its source list. */
  lemma FeedMoodCount(d: PageData, m: MoodEntry)
    requires NumericIds(d.tasks)
    ensures multiset(Feed(d))[MoodItem(m)] == multiset(d.moodHistory)[m]
  {
    var y := MoodItem(m);
    FeedCountSplit(d, y);
    ChatItemsSessions(d.chatHistory);
    MoodItemsCount(d.moodHistory, m);
    JournalItemsOnly(d.journalHistory, y);
    BreathingItemsOnly(d.breathingHistory, y);
    SessionItemsOnly(Sessions(d.chatHistory), y);
    TaskItemsOnly(d.tasks, y);
    SleepItemsOnly(d.sleepHistory, y);
  }

  /** A journal entry occurs in the feed as often as in its source list. */
  lemma FeedJournalCount(d: PageData, j: JournalEntry)
    requires NumericIds(d.tasks)
    ensures multiset(Feed(d))[JournalItem(j)] == multiset(d.journalHistory)[j]
  {
    var y := JournalItem(j);
    FeedCountSplit(d, y);
    ChatItemsSessions(d.chatHistory);
    MoodItemsOnly(d.moodHistory, y);
    JournalItemsCount(d.journalHistory, j);
    BreathingItemsOnly(d.breathingHistory, y);
    SessionItemsOnly(Sessions(d.chatHistory), y);
    TaskItemsOnly(d.tasks, y);
    SleepItemsOnly(d.sleepHistory, y);
  }

  /** A breathing session occurs in the feed as often as in its source list. */
  lemma FeedBreathingCount(d: PageData, b: BreathingSession)
    requires NumericIds(d.tasks)
    ensures multiset(Feed(d))[BreathingItem(b)] == multiset(d.breathingHistory)[b]
  {
    var y := BreathingItem(b);
    FeedCountSplit(d, y);
    ChatItemsSessions(d.chatHistory);
    MoodItemsOnly(d.moodHistory, y);
    JournalItemsOnly(d.journalHistory, y);
    BreathingItemsCount(d.breathingHistory, b);
    SessionItemsOnly(Sessions(d.chatHistory), y);
    TaskItemsOnly(d.tasks, y);
    SleepItemsOnly(d.sleepHistory, y);
  }

  /** A chat session occurs in the feed as often as in its source list. */
  lemma FeedSessionCount(d: PageData, s: seq<ChatMessage>)
    requires NumericIds(d.tasks)
    requires |s| > 0
    ensures multiset(Feed(d))[ChatItem(s)] == multiset(Sessions(d.chatHistory))[s]
  {
    var y := ChatItem(s);
    FeedCountSplit(d, y);
    ChatItemsSessions(d.chatHistory);
    MoodItemsOnly(d.moodHistory, y);
    JournalItemsOnly(d.journalHistory, y);
    BreathingItemsOnly(d.breathingHistory, y);
    SessionItemsCount(Sessions(d.chatHistory), s);
    TaskItemsOnly(d.tasks, y);
    SleepItemsOnly(d.sleepHistory, y);
  }

  /** A task occurs in the feed as often as in its source list. */
  lemma FeedTaskCount(d: PageData, t: Task)
    requires NumericIds(d.tasks)
    requires AllDigits(t.id)
    ensures multiset(Feed(d))[TaskItem(t)] == multiset(d.tasks)[t]
  {
    var y := TaskItem(t);
    FeedCountSplit(d, y);
    ChatItemsSessions(d.chatHistory);
    MoodItemsOnly(d.moodHistory, y);
    JournalItemsOnly(d.journalHistory, y);
    BreathingItemsOnly(d.breathingHistory, y);
    SessionItemsOnly(Sessions(d.chatHistory), y);
    TaskItemsCount(d.tasks, t);
    SleepItemsOnly(d.sleepHistory, y);
  }

  /** A sleep entry occurs in the feed as often as in its source list. */
  lemma FeedSleepCount(d: PageData, e: SleepEntry)
    requires NumericIds(d.tasks)
    ensures multiset(Feed(d))[SleepItem(e)] == multiset(d.sleepHistory)[e]
  {
    var y := SleepItem(e);
    FeedCountSplit(d, y);
    ChatItemsSessions(d.chatHistory);
    MoodItemsOnly(d.moodHistory, y);
    JournalItemsOnly(d.journalHistory, y);
    BreathingItemsOnly(d.breathingHistory, y);
    SessionItemsOnly(Sessions(d.chatHistory), y);
    TaskItemsOnly(d.tasks, y);
    SleepItemsCount(d.sleepHistory, e);
  }

  /** The feed is sorted newest first and holds exactly one item per mood, journal,
      breathing, task and sleep record and one per chat session. */
  lemma FeedOneItemPerRecord(d: PageData)
    requires NumericIds(d.tasks)
    ensures SortedDescBy(Feed(d), ItemTime)
    ensures |Feed(d)| == |d.moodHistory| + |d.journalHistory| + |d.breathingHistory| +
                         |Sessions(d.chatHistory)| + |d.tasks| + |d.sleepHistory|
    ensures forall m: MoodEntry :: multiset(Feed(d))[MoodItem(m)] == multiset(d.moodHistory)[m]
    ensures forall j: JournalEntry :: multiset(Feed(d))[JournalItem(j)] == multiset(d.journalHistory)[j]
    ensures forall b: BreathingSession ::
              multiset(Feed(d))[BreathingItem(b)] == multiset(d.breathingHistory)[b]
    ensures forall s: seq<ChatMessage> | |s| > 0 ::
              multiset(Feed(d))[ChatItem(s)] == multiset(Sessions(d.chatHistory))[s]
    ensures forall t: Task | AllDigits(t.id) :: multiset(Feed(d))[TaskItem(t)] == multiset(d.tasks)[t]
    ensures forall e: SleepEntry :: multiset(Feed(d))[SleepItem(e)] == multiset(d.sleepHistory)[e]
  {
    ChatItemsSessions(d.chatHistory);
    forall m: MoodEntry ensures multiset(Feed(d))[MoodItem(m)] == multiset(d.moodHistory)[m] {
      FeedMoodCount(d, m);
    }
    forall j: JournalEntry ensures multiset(Feed(d))[JournalItem(j)] == multiset(d.journalHistory)[j] {
      FeedJournalCount(d, j);
    }
    forall b: BreathingSession ensures multiset(Feed(d))[BreathingItem(b)] == multiset(d.breathingHistory)[b] {
      FeedBreathingCount(d, b);
    }
    forall s: seq<ChatMessage> | |s| > 0 ensures multiset(Feed(d))[ChatItem(s)] == multiset(Sessions(d.chatHistory))[s] {
      FeedSessionCount(d, s);
    }
    forall t: Task | AllDigits(t.id) ensures multiset(Feed(d))[TaskItem(t)] == multiset(d.tasks)[t] {
      FeedTaskCount(d, t);
    }
    forall e: SleepEntry ensures multiset(Feed(d))[SleepItem(e)] == multiset(d.sleepHistory)[e] {
      FeedSleepCount(d, e);
    }
  }

  /** A journal preview is the content itself up to 60 code units; a longer content keeps
      a proper prefix of 60 code units (59 when the 60th would split a surrogate pair)
      followed by "...". */
  lemma JournalPreviewShape(content: string)
    ensures Utf16Length(JournalPreview(content)) <= PreviewLength + 3
    ensures Utf16Length(content) <= PreviewLength ==> JournalPreview(content) == content
    ensures Utf16Length(content) > PreviewLength ==>
              var p := JournalPreview(content);
              |p| >= 3 && p[..|p| - 3] < content && p[|p| - 3..] == "..." &&
              PreviewLength - 1 <= Utf16Length(p[..|p| - 3]) <= PreviewLength
  {
    var p := JournalPreview(content);
    if Utf16Length(content) > PreviewLength {
      var kept := Utf16Prefix(content, PreviewLength);
      Utf16PrefixCut(content, PreviewLength);
      assert p[..|p| - 3] == kept;
      Utf16LengthAppend(kept, "...");
      Utf16LengthBmp("...");
    }
  }

  /** On Basic Multilingual Plane text, which covers ASCII, the preview of a content over
      60 characters is its first 60 characters followed by "...". */
  lemma JournalPreviewBmp(content: string)
    requires forall i :: 0 <= i < |content| ==> content[i] as int < 0x10000
    requires |content| > PreviewLength
    ensures JournalPreview(content) == content[..PreviewLength] + "..."
  {
    Utf16LengthBmp(content);
    Utf16PrefixBmp(content, PreviewLength);
  }

  /** Reads the duration back from a breathing subtitle "<m>m <s>s session". */
  function ReadBreathingSubtitle(s: string): Option<nat>
  {
    var minutes := ReadNumber(s, 'm');
    if minutes.Some? && |minutes.value.1| > 0 && minutes.value.1[0] == ' ' then
      var seconds := ReadNumber(minutes.value.1[1..], 's');
      if seconds.Some? then Some(minutes.value.0 * 60 + seconds.value.0) else None
    else None
  }

  /** Reads "<a>m <b>s<rest>" back as `a` minutes and `b` seconds. */
  lemma ReadDigitsThenRest(a: string, b: string, rest: string, s: string, n: nat)
    requires AllDigits(a) && AllDigits(b)
    requires s == a + ['m'] + ([' '] + (b + ['s'] + rest))
    requires n == DigitsValue(a) * 60 + DigitsValue(b)
    ensures ReadBreathingSubtitle(s) == Some(n)
  {
    var tail := [' '] + (b + ['s'] + rest);
    ReadNumberJoin(a, 'm', tail);
    assert ReadNumber(s, 'm') == Some((DigitsValue(a), tail));
    assert tail[1..] == b + ['s'] + rest;
    ReadNumberJoin(b, 's', rest);
    assert ReadNumber(tail[1..], 's') == Some((DigitsValue(b), rest));
  }

  /** The breathing subtitle states the whole duration: minutes and seconds read back give it. */
  lemma BreathingSubtitleRoundTrip(seconds: nat)
    ensures ReadBreathingSubtitle(BreathingSubtitle(seconds)) == Some(seconds)
  {
    var a, b := NatToString(seconds / 60), NatToString(seconds % 60);
    NatToStringRoundTrip(seconds / 60);
    NatToStringRoundTrip(seconds % 60);
    var s := BreathingSubtitle(seconds);
    assert s == a + ['m'] + ([' '] + (b + ['s'] + " session"));
    ReadDigitsThenRest(a, b, " session", s, seconds);
  }

  /** Reads the half-hour count back from an hours text "7" or "7.5". */
  function ReadHalfHours(s: string): Option<nat>
  {
    if |s| >= 2 && s[|s| - 2..] == ".5" && AllDigits(s[..|s| - 2]) then Some(DigitsValue(s[..|s| - 2]) * 2 + 1)
    else if AllDigits(s) then Some(DigitsValue(s) * 2)
    else None
  }

  /** The sleep title states the slept time exactly. */
  lemma HoursTextRoundTrip(halfHours: nat)
    ensures ReadHalfHours(HoursText(halfHours)) == Some(halfHours)
  {
    var a := NatToString(halfHours / 2);
    NatToStringRoundTrip(halfHours / 2);
    if halfHours % 2 == 1 {
      var s := a + ".5";
      assert s[..|s| - 2] == a;
    } else {
      assert HoursText(halfHours) == a;
      assert !(|a| >= 2 && a[|a| - 2..] == ".5") by {
        if |a| >= 2 { assert IsDigit(a[|a| - 1]); }
      }
    }
  }

  /** Reads the message count back from a chat subtitle. */
  function ReadMessageCount(s: string): Option<nat>
  {
    match ReadNumber(s, ' ')
    case Some((n, _)) => Some(n)
    case None => None
  }

  /** A number rendered before a space is read back, whatever follows. */
  lemma ReadCountPrefix(n: nat, rest: string, s: string)
    requires s == NatToString(n) + [' '] + rest
    ensures ReadMessageCount(s) == Some(n)
  {
    ReadNumberJoin(NatToString(n), ' ', rest);
    NatToStringRoundTrip(n);
  }

  /** A chat item's subtitle states its session's message count. */
  lemma ChatSubtitleCount(session: seq<ChatMessage>)
    ensures ReadMessageCount(ChatSubtitle(session)) == Some(|session|)
  {
    var rest := "messages \U{2022} " + ChatPreview(session);
    var s := ChatSubtitle(session);
    assert s == NatToString(|session|) + [' '] + rest;
    ReadCountPrefix(|session|, rest, s);
  }

  /** A chat item's preview is the quoted first user message, or "Session started" when no
      message is from the user. */
  lemma ChatPreviewFirstUser(session: seq<ChatMessage>)
    ensures (forall i :: 0 <= i < |session| ==> session[i].role != User) ==>
              ChatPreview(session) == "Session started"
    ensures forall i ::
              (0 <= i < |session| && session[i].role == User &&
               (forall j :: 0 <= j < i ==> session[j].role != User)) ==>
              ChatPreview(session) == "\"" + session[i].text + "\""
  {
    forall i | 0 <= i < |session| && session[i].role == User &&
              (forall j :: 0 <= j < i ==> session[j].role != User)
      ensures ChatPreview(session) == "\"" + session[i].text + "\""
    {
      var r := FirstUserMessage(session);
      var k :| 0 <= k < |session| && session[k] == r.value && r.value.role == User &&
               forall j :: 0 <= j < k ==> session[j].role != User;
      assert k == i;
    }
  }

  /** The filter tabs: everything, or one kind. */
  datatype FeedFilter = AllKinds | OnlyKind(kind: ActivityKind)

  predicate Shows(f: FeedFilter, a: ActivityItem)
  {
    f.AllKinds? || a.kind == f.kind
  }

  /** `activities.filter(a => activeFilter === 'all' || a.type === activeFilter)`. */
  function Filtered(items: seq<ActivityItem>, f: FeedFilter): (r: seq<ActivityItem>)
    ensures |r| <= |items|
  {
    if items == [] then []
    else (if Shows(f, items[0]) then [items[0]] else []) + Filtered(items[1..], f)
  }

  /** The filtered list keeps exactly the items the tab shows, each as often as before. */
  lemma {:induction false} FilteredCount(items: seq<ActivityItem>, f: FeedFilter)
    ensures forall x :: multiset(Filtered(items, f))[x] == if Shows(f, x) then multiset(items)[x] else 0
  {
    if items != [] {
      FilteredCount(items[1..], f);
      assert items == [items[0]] + items[1..];
    }
  }

  /** The 'all' tab keeps the whole feed. */
  lemma {:induction false} FilteredAll(items: seq<ActivityItem>)
    ensures Filtered(items, AllKinds) == items
  {
    if items != [] {
      FilteredAll(items[1..]);
      assert items == [items[0]] + items[1..];
    }
  }

  /** Filtering keeps the newest-first order. */
  lemma {:induction false} FilteredSorted(items: seq<ActivityItem>, f: FeedFilter)
    requires SortedDescBy(items, ItemTime)
    ensures SortedDescBy(Filtered(items, f), ItemTime)
  {
    if items != [] {
      FilteredSorted(items[1..], f);
      FilteredCount(items[1..], f);
      var rest := Filtered(items[1..], f);
      forall i | 0 <= i < |rest| ensures ExtLe(ItemTime(rest[i]), ItemTime(items[0])) {
        assert rest[i] in multiset(rest);
        assert rest[i] in items[1..];
      }
    }
  }

  /** `filteredActivities.slice(0, visibleItems)`. */
  function Displayed(filtered: seq<ActivityItem>, visible: nat): seq<ActivityItem>
  {
    if |filtered| <= visible then filtered else filtered[..visible]
  }

  /** The "Load Previous" button is rendered. */
  predicate HasMore(filtered: seq<ActivityItem>, visible: nat)
  {
    |filtered| > visible
  }

  /** The displayed items are the first `visible` filtered ones; without the button, that is
      all of them; one more page keeps the shown items and, when the button was there,
      shows more. */
  lemma PagingFacts(filtered: seq<ActivityItem>, visible: nat)
    ensures Displayed(filtered, visible) <= filtered
    ensures |Displayed(filtered, visible)| == if HasMore(filtered, visible) then visible else |filtered|
    ensures !HasMore(filtered, visible) ==> Displayed(filtered, visible) == filtered
    ensures Displayed(filtered, visible) <= Displayed(filtered, visible + PageStep)
    ensures HasMore(filtered, visible) ==>
              |Displayed(filtered, visible + PageStep)| > |Displayed(filtered, visible)|
  {
  }

  /** The paging and filter state of the page. */
  class FeedView {
    var visibleItems: nat
    var activeFilter: FeedFilter

    constructor ()
      ensures visibleItems == PageStep && activeFilter == AllKinds
    {
      visibleItems := PageStep;
      activeFilter := AllKinds;
    }

    function Shown(feed: seq<ActivityItem>): seq<ActivityItem>
      reads this
    {
      Displayed(Filtered(feed, activeFilter), visibleItems)
    }

    /** "Load Previous": twenty more items, the same tab. */
    method LoadPrevious()
      modifies this
      ensures visibleItems == old(visibleItems) + PageStep && activeFilter == old(activeFilter)
      ensures forall feed :: old(Shown(feed)) <= Shown(feed)
    {
      visibleItems := visibleItems + PageStep;
      forall feed: seq<ActivityItem> ensures old(Shown(feed)) <= Shown(feed) {
        PagingFacts(Filtered(feed, activeFilter), old(visibleItems));
      }
    }

    /** A filter tab; the number of visible items is kept. */
    method SelectFilter(f: FeedFilter)
      modifies this
      ensures activeFilter == f && visibleItems == old(visibleItems)
    {
      activeFilter := f;
    }
  }
}
