/** The in-memory state of the app shell (App.tsx): the user's lists, the way they are
    cleaned up when loaded, and the handlers that change them. Persisting to Firestore,
    which every handler also does, is not part of this model. */
module AppStore {
  import opened Wrappers
  import opened Types
  import opened Strings
  import opened Sorting
  import opened GeminiService

  // ---------------------------------------------------------------- chat history

  /** No two messages share an id. */
  predicate UniqueIds(h: seq<ChatMessage>)
  {
    forall i, j :: 0 <= i < j < |h| ==> h[i].id != h[j].id
  }

  /** The ids present in `h`. */
  function Ids(h: seq<ChatMessage>): set<string>
  {
    set i | 0 <= i < |h| :: h[i].id
  }

  /** `findIndex(m => m.id === id)`, with `|h|` standing for -1. */
  function FindIndex(h: seq<ChatMessage>, id: string): (k: nat)
    ensures k <= |h|
    ensures forall i :: 0 <= i < k ==> h[i].id != id
    ensures k < |h| ==> h[k].id == id
  {
    if h == [] then 0 else if h[0].id == id then 0 else 1 + FindIndex(h[1..], id)
  }

  /** Stores `msg` under its id: in place of the first message with that id, or at the end.
      This is both the update in `handleAddMessage` and `Map.set` during loading (a `Map`
      keeps a key at the position where it was first inserted). */
  function UpsertMessage(h: seq<ChatMessage>, msg: ChatMessage): seq<ChatMessage>
  {
    var k := FindIndex(h, msg.id);
    if k < |h| then h[k := msg] else h + [msg]
  }

  /** On a history with unique ids, the upsert replaces the message with `msg`'s id where
      it stands (same length), or appends `msg` when the id is new; ids stay unique. */
  lemma UpsertMessageSpec(h: seq<ChatMessage>, msg: ChatMessage)
    requires UniqueIds(h)
    ensures var r := UpsertMessage(h, msg);
            && |r| == |h| + (if msg.id in Ids(h) then 0 else 1)
            && (forall i :: 0 <= i < |h| ==> r[i] == if h[i].id == msg.id then msg else h[i])
            && (msg.id !in Ids(h) ==> r[|h|] == msg)
            && UniqueIds(r)
            && Ids(r) == Ids(h) + {msg.id}
  {
    var r := UpsertMessage(h, msg);
    var k := FindIndex(h, msg.id);
    if k < |h| {
      assert msg.id in Ids(h);
      assert forall i :: 0 <= i < |h| && i != k ==> h[i].id != msg.id;
      assert Ids(r) == Ids(h) + {msg.id} by {
        forall id | id in Ids(r) ensures id in Ids(h) + {msg.id} {
          var i :| 0 <= i < |r| && r[i].id == id;
        }
        forall id | id in Ids(h) ensures id in Ids(r) {
          var i :| 0 <= i < |h| && h[i].id == id;
          assert r[i].id == id;
        }
      }
    } else {
      assert msg.id !in Ids(h);
      assert Ids(r) == Ids(h) + {msg.id} by {
        forall id | id in Ids(r) ensures id in Ids(h) + {msg.id} {
          var i :| 0 <= i < |r| && r[i].id == id;
          if i < |h| { assert h[i].id == id; }
        }
        forall id | id in Ids(h) + {msg.id} ensures id in Ids(r) {
          if id == msg.id {
            assert r[|h|].id == id;
          } else {
            var i :| 0 <= i < |h| && h[i].id == id;
            assert r[i].id == id;
          }
        }
      }
    }
  }

  /** The last message of `s` with id `id`. */
  function LastWithId(s: seq<ChatMessage>, id: string): Option<ChatMessage>
  {
    if s == [] then None
    else if s[|s| - 1].id == id then Some(s[|s| - 1])
    else LastWithId(s[..|s| - 1], id)
  }

  /** The loaded chat after the `uniqueChat` pass: every message with a (truthy) id is
      `set` into the map in turn, messages without an id are dropped. */
  function Dedup(s: seq<ChatMessage>): seq<ChatMessage>
  {
    if s == [] then []
    else
      var d := Dedup(s[..|s| - 1]);
      var m := s[|s| - 1];
      if m.id == "" then d else UpsertMessage(d, m)
  }

  /** Loading keeps one message per id, never one without an id, every id that occurs,
      and for each id the LAST message carrying it. */
  lemma {:induction false} DedupSpec(s: seq<ChatMessage>)
    ensures UniqueIds(Dedup(s))
    ensures forall j :: 0 <= j < |Dedup(s)| ==>
              Dedup(s)[j].id != "" && LastWithId(s, Dedup(s)[j].id) == Some(Dedup(s)[j])
    ensures Ids(Dedup(s)) == Ids(s) - {""}
  {
    if s != [] {
      var init := s[..|s| - 1];
      var m := s[|s| - 1];
      var d := Dedup(init);
      DedupSpec(init);
      assert Ids(s) == Ids(init) + {m.id} by {
        assert forall i :: 0 <= i < |init| ==> s[i] == init[i];
        forall id | id in Ids(s) ensures id in Ids(init) + {m.id} {
          var i :| 0 <= i < |s| && s[i].id == id;
        }
        forall id | id in Ids(init) ensures id in Ids(s) {
          var i :| 0 <= i < |init| && init[i].id == id;
          assert s[i].id == id;
        }
      }
      if m.id != "" {
        UpsertMessageSpec(d, m);
      }
    }
  }

  /** The sort key of `(a, b) => a.timestamp - b.timestamp` on messages. */
  function MessageKey(m: ChatMessage): ExtInt
  {
    Fin(m.timestamp)
  }

  /** The sort keys of the other timestamp comparators used on load. */
  function MoodKey(m: MoodEntry): ExtInt { Fin(m.timestamp) }
  function JournalKey(j: JournalEntry): ExtInt { Fin(j.timestamp) }
  function SleepKey(e: SleepEntry): ExtInt { Fin(e.timestamp) }

  /** The chat history as loading leaves it: de-duplicated, then sorted by timestamp. */
  function LoadedChat(raw: seq<ChatMessage>): seq<ChatMessage>
  {
    SortBy(Dedup(raw), MessageKey)
  }

  /** Removing one element keeps ids unique. */
  lemma UniqueIdsWithout(a: seq<ChatMessage>, p: nat)
    requires p < |a| && UniqueIds(a)
    ensures UniqueIds(a[..p] + a[p + 1..])
    ensures forall y :: y in a[..p] + a[p + 1..] ==> y.id != a[p].id
  {
    var b := a[..p] + a[p + 1..];
    assert forall i :: 0 <= i < |b| ==> b[i] == if i < p then a[i] else a[i + 1];
  }

  lemma MultisetWithout<T>(a: seq<T>, p: nat)
    requires p < |a|
    ensures multiset(a[..p] + a[p + 1..]) == multiset(a) - multiset{a[p]}
  {
    assert a == a[..p] + [a[p]] + a[p + 1..];
  }

  /** A rearrangement of a history with unique ids has unique ids. */
  lemma {:induction false} UniqueIdsPermutation(a: seq<ChatMessage>, b: seq<ChatMessage>)
    requires multiset(a) == multiset(b) && UniqueIds(a)
    ensures UniqueIds(b)
    decreases |b|
  {
    if b != [] {
      var x := b[|b| - 1];
      var b' := b[..|b| - 1];
      var p := PermutationDropLast(a, b);
      var a' := a[..p] + a[p + 1..];
      UniqueIdsWithout(a, p);
      UniqueIdsPermutation(a', b');
      forall i | 0 <= i < |b'| ensures b'[i].id != x.id {
        assert b'[i] in multiset(a');
      }
      UniqueIdsSnoc(b', x);
      assert b == b' + [x];
    }
  }

  /** The last element of `b` sits at some position `p` of its rearrangement `a`, and the
      rest of `a` rearranges the rest of `b`. */
  lemma PermutationDropLast<T>(a: seq<T>, b: seq<T>) returns (p: nat)
    requires multiset(a) == multiset(b) && b != []
    ensures p < |a| && a[p] == b[|b| - 1]
    ensures multiset(a[..p] + a[p + 1..]) == multiset(b[..|b| - 1])
  {
    var x := b[|b| - 1];
    assert x in a by { assert x in multiset(b); }
    p :| 0 <= p < |a| && a[p] == x;
    MultisetWithout(a, p);
    assert multiset(b[..|b| - 1]) == multiset(b) - multiset{x} by {
      assert b == b[..|b| - 1] + [x];
    }
  }

  lemma UniqueIdsSnoc(h: seq<ChatMessage>, x: ChatMessage)
    requires UniqueIds(h) && forall i :: 0 <= i < |h| ==> h[i].id != x.id
    ensures UniqueIds(h + [x])
  {
  }

  /** After loading, the history is sorted by timestamp, has unique non-empty ids, holds
      exactly the ids that occurred, and holds the last message loaded for each of them. */
  lemma LoadedChatSpec(raw: seq<ChatMessage>)
    ensures SortedBy(LoadedChat(raw), MessageKey)
    ensures UniqueIds(LoadedChat(raw))
    ensures Ids(LoadedChat(raw)) == Ids(raw) - {""}
    ensures forall m :: m in LoadedChat(raw) ==> m.id != "" && LastWithId(raw, m.id) == Some(m)
  {
    var d := Dedup(raw);
    var r := LoadedChat(raw);
    DedupSpec(raw);
    UniqueIdsPermutation(d, r);
    forall m | m in r ensures m.id != "" && LastWithId(raw, m.id) == Some(m) {
      assert m in multiset(d);
    }
    assert Ids(r) == Ids(d) by {
      forall id | id in Ids(r) ensures id in Ids(d) {
        var i :| 0 <= i < |r| && r[i].id == id;
        assert r[i] in multiset(d);
      }
      forall id | id in Ids(d) ensures id in Ids(r) {
        var i :| 0 <= i < |d| && d[i].id == id;
        assert d[i] in multiset(r);
      }
    }
  }

  /** The `forEach` that fills the `uniqueChat` map. */
  method DedupChat(raw: seq<ChatMessage>) returns (unique: seq<ChatMessage>)
    ensures unique == Dedup(raw)
  {
    unique := [];
    for i := 0 to |raw|
      invariant unique == Dedup(raw[..i])
    {
      assert raw[..i + 1][..i] == raw[..i];
      if raw[i].id != "" {
        unique := UpsertMessage(unique, raw[i]);
      }
    }
    assert raw[..|raw|] == raw;
  }

  /** The chat part of loading: the map pass, then the ascending sort. */
  method LoadChat(raw: seq<ChatMessage>) returns (chat: seq<ChatMessage>)
    ensures chat == LoadedChat(raw)
    ensures UniqueIds(chat) && "" !in Ids(chat)
  {
    var unique := DedupChat(raw);
    LoadedChatSpec(raw);
    chat := SortBy(unique, MessageKey);
  }

  // ---------------------------------------------------------------- tasks

  /** Some task has id `id`. */
  predicate HasTask(tasks: seq<Task>, id: string)
  {
    exists i :: 0 <= i < |tasks| && tasks[i].id == id
  }

  /** `prev.map(t => t.id === u.id ? u : t)`. */
  function ReplaceTasks(tasks: seq<Task>, u: Task): (r: seq<Task>)
    ensures |r| == |tasks|
    ensures forall i :: 0 <= i < |tasks| ==> r[i] == if tasks[i].id == u.id then u else tasks[i]
  {
    if tasks == [] then [] else [if tasks[0].id == u.id then u else tasks[0]] + ReplaceTasks(tasks[1..], u)
  }

  /** `handleUpdateTask`: replace every task with `u`'s id, or put `u` in front when there is none. */
  function UpsertTask(tasks: seq<Task>, u: Task): seq<Task>
  {
    if HasTask(tasks, u.id) then ReplaceTasks(tasks, u) else [u] + tasks
  }

  /** The upsert keeps the set of ids apart from adding `u`'s, and `u` is afterwards the only
      task with its id; with a known id nothing else moves, with a new one `u` comes first. */
  lemma UpsertTaskSpec(tasks: seq<Task>, u: Task)
    ensures var r := UpsertTask(tasks, u);
            && u in r
            && (forall t :: t in r && t.id == u.id ==> t == u)
            && (forall t :: t in tasks && t.id != u.id ==> t in r)
            && (forall t :: t in r ==> t == u || t in tasks)
            && (HasTask(tasks, u.id) ==> |r| == |tasks|)
            && (!HasTask(tasks, u.id) ==> r[0] == u && r[1..] == tasks)
  {
    var r := UpsertTask(tasks, u);
    if HasTask(tasks, u.id) {
      var i :| 0 <= i < |tasks| && tasks[i].id == u.id;
      assert r[i] == u;
      forall t | t in tasks && t.id != u.id ensures t in r {
        var j :| 0 <= j < |tasks| && tasks[j] == t;
        assert r[j] == t;
      }
    }
  }

  /** `filter(t => t.id !== id)`. */
  function RemoveTasks(tasks: seq<Task>, id: string): (r: seq<Task>)
    ensures |r| <= |tasks|
  {
    if tasks == [] then [] else (if tasks[0].id == id then [] else [tasks[0]]) + RemoveTasks(tasks[1..], id)
  }

  /** Deleting removes every task with that id and keeps each other task as often as before. */
  lemma RemoveTasksSpec(tasks: seq<Task>, id: string)
    ensures forall t :: multiset(RemoveTasks(tasks, id))[t] == if t.id == id then 0 else multiset(tasks)[t]
    ensures !HasTask(RemoveTasks(tasks, id), id)
  {
    var r := RemoveTasks(tasks, id);
    forall t {
      RemoveTasksCount(tasks, id, t);
    }
    forall t | t in r ensures t.id != id {
      assert t in multiset(r);
    }
  }

  lemma {:induction false} RemoveTasksCount(tasks: seq<Task>, id: string, t: Task)
    ensures multiset(RemoveTasks(tasks, id))[t] == if t.id == id then 0 else multiset(tasks)[t]
  {
    if tasks != [] {
      RemoveTasksCount(tasks[1..], id, t);
      assert tasks == [tasks[0]] + tasks[1..];
      var head := if tasks[0].id == id then [] else [tasks[0]];
      assert multiset(RemoveTasks(tasks, id)) == multiset(head) + multiset(RemoveTasks(tasks[1..], id));
    }
  }

  /** Deleting works piece by piece, so the remaining tasks keep their order. */
  lemma {:induction false} RemoveTasksAppend(a: seq<Task>, b: seq<Task>, id: string)
    ensures RemoveTasks(a + b, id) == RemoveTasks(a, id) + RemoveTasks(b, id)
  {
    if a != [] {
      RemoveTasksAppend(a[1..], b, id);
      assert (a + b)[1..] == a[1..] + b;
    } else {
      assert a + b == b;
    }
  }

  /** `tasks.find(t => t.id === id)`. */
  function FindTask(tasks: seq<Task>, id: string): (r: Option<Task>)
    ensures r.Some? ==> r.value in tasks && r.value.id == id
    ensures r.None? <==> !HasTask(tasks, id)
  {
    if tasks == [] then None
    else if tasks[0].id == id then Some(tasks[0])
    else
      var r := FindTask(tasks[1..], id);
      assert HasTask(tasks[1..], id) ==> HasTask(tasks, id) by {
        if HasTask(tasks[1..], id) {
          var i :| 0 <= i < |tasks[1..]| && tasks[1..][i].id == id;
          assert tasks[i + 1].id == id;
        }
      }
      r
  }

  /** A task with `completed` flipped. */
  function Flipped(t: Task): Task
  {
    t.(completed := !t.completed)
  }

  /** `handleToggleTask`: flip the first task with that id through `handleUpdateTask`;
      an unknown id changes nothing. */
  function Toggled(tasks: seq<Task>, id: string): seq<Task>
  {
    match FindTask(tasks, id)
    case None => tasks
    case Some(t) => UpsertTask(tasks, Flipped(t))
  }

  /** Toggling an unknown id changes nothing; toggling a known one keeps the length and
      touches only tasks with that id, and on a list with unique ids it flips exactly the
      task with that id. */
  lemma ToggledSpec(tasks: seq<Task>, id: string)
    ensures !HasTask(tasks, id) ==> Toggled(tasks, id) == tasks
    ensures |Toggled(tasks, id)| == |tasks|
    ensures forall i :: 0 <= i < |tasks| && tasks[i].id != id ==> Toggled(tasks, id)[i] == tasks[i]
    ensures (forall i, j :: 0 <= i < j < |tasks| ==> tasks[i].id != tasks[j].id) ==>
              forall i :: 0 <= i < |tasks| && tasks[i].id == id ==> Toggled(tasks, id)[i] == Flipped(tasks[i])
  {
    match FindTask(tasks, id)
    case None =>
    case Some(t) =>
      assert HasTask(tasks, t.id);
      var k :| 0 <= k < |tasks| && tasks[k] == t;
      assert (forall i, j :: 0 <= i < j < |tasks| ==> tasks[i].id != tasks[j].id) ==>
               forall i :: 0 <= i < |tasks| && tasks[i].id == id ==> tasks[i] == t;
  }

  // ---------------------------------------------------------------- categories

  predicate NoDuplicates(s: seq<string>)
  {
    forall i, j :: 0 <= i < j < |s| ==> s[i] != s[j]
  }

  /** `if (!categories.includes(c)) categories = [...categories, c]`. */
  function AddIfAbsent(categories: seq<string>, c: string): seq<string>
  {
    if c in categories then categories else categories + [c]
  }

  /** Adding a category keeps the list free of duplicates, keeps the old categories in front,
      and afterwards the category is present. */
  lemma AddIfAbsentSpec(categories: seq<string>, c: string)
    ensures c in AddIfAbsent(categories, c)
    ensures categories <= AddIfAbsent(categories, c)
    ensures |AddIfAbsent(categories, c)| == |categories| + (if c in categories then 0 else 1)
    ensures NoDuplicates(categories) ==> NoDuplicates(AddIfAbsent(categories, c))
  {
  }

  // ---------------------------------------------------------------- the state

  /** The user's collections, as fetched or as held. */
  datatype UserData = UserData(
    tasks: seq<Task>, moods: seq<MoodEntry>, journals: seq<JournalEntry>, breathing: seq<BreathingSession>,
    chat: seq<ChatMessage>, sleep: seq<SleepEntry>, categories: seq<string>)

  /** What loading makes of the fetched collections: the chat de-duplicated and sorted
      ascending, tasks newest id first, moods and sleep ascending and journals descending by
      timestamp; breathing sessions and categories as fetched. */
  function Loaded(raw: UserData): UserData
  {
    UserData(SortDescBy(raw.tasks, IdKey), SortBy(raw.moods, MoodKey), SortDescBy(raw.journals, JournalKey),
             raw.breathing, LoadedChat(raw.chat), SortBy(raw.sleep, SleepKey), raw.categories)
  }

  /** After loading, each list is a rearrangement of what was fetched (the chat: of its
      de-duplicated form, see `LoadedChatSpec`) in the order its comparator asks for. */
  lemma LoadedSpec(raw: UserData)
    ensures var d := Loaded(raw);
            && SortedDescBy(d.tasks, IdKey) && multiset(d.tasks) == multiset(raw.tasks)
            && SortedBy(d.moods, MoodKey) && multiset(d.moods) == multiset(raw.moods)
            && SortedDescBy(d.journals, JournalKey) && multiset(d.journals) == multiset(raw.journals)
            && SortedBy(d.sleep, SleepKey) && multiset(d.sleep) == multiset(raw.sleep)
            && d.breathing == raw.breathing && d.categories == raw.categories
            && SortedBy(d.chat, MessageKey) && UniqueIds(d.chat) && Ids(d.chat) == Ids(raw.chat) - {""}
  {
    LoadedChatSpec(raw.chat);
  }

  /** Loading keeps the journals newest first, so the last `n` of them, which the Gemini
      requests send (`journalHistory.slice(-n)`), are the OLDEST journals: no journal left
      out is older than one sent. */
  lemma LastJournalsAreOldest(raw: UserData, n: nat)
    ensures var js := Loaded(raw).journals;
            var k := |js| - |LastN(js, n)|;
            forall i, j :: 0 <= i < k <= j < |js| ==> js[j].timestamp <= js[i].timestamp
  {
    var js := Loaded(raw).journals;
    assert SortedDescBy(js, JournalKey);
    forall i, j | 0 <= i < j < |js|
      ensures js[j].timestamp <= js[i].timestamp
    {
      assert ExtLe(JournalKey(js[j]), JournalKey(js[i]));
    }
  }

  /** Loading keeps the moods oldest first, so the last `n` of them, which the Gemini
      requests send (`moodHistory.slice(-n)`), are the NEWEST moods: no mood left out is
      newer than one sent. */
  lemma LastMoodsAreNewest(raw: UserData, n: nat)
    ensures var ms := Loaded(raw).moods;
            var k := |ms| - |LastN(ms, n)|;
            forall i, j :: 0 <= i < k <= j < |ms| ==> ms[i].timestamp <= ms[j].timestamp
  {
    var ms := Loaded(raw).moods;
    assert SortedBy(ms, MoodKey);
    forall i, j | 0 <= i < j < |ms|
      ensures ms[i].timestamp <= ms[j].timestamp
    {
      assert ExtLe(MoodKey(ms[i]), MoodKey(ms[j]));
    }
  }

  /** The lists the app holds for the signed-in user and whether the crisis modal is open. */
  class AppState {
    var tasks: seq<Task>
    var moodHistory: seq<MoodEntry>
    var journalHistory: seq<JournalEntry>
    var breathingHistory: seq<BreathingSession>
    var chatHistory: seq<ChatMessage>
    var sleepHistory: seq<SleepEntry>
    var categories: seq<string>
    var crisisModalOpen: bool
    /** Set when loading failed for want of permission; the page then shows its notice. */
    var permissionError: bool

    /** The lists as one value. */
    function Data(): UserData
      reads this
    {
      UserData(tasks, moodHistory, journalHistory, breathingHistory, chatHistory, sleepHistory, categories)
    }

    /** The chat history never holds two messages with one id, nor one without an id. */
    predicate Valid()
      reads this
    {
      UniqueIds(chatHistory) && "" !in Ids(chatHistory)
    }

    /** Every list starts empty and the crisis modal closed. */
    constructor ()
      ensures Valid()
      ensures tasks == [] && moodHistory == [] && journalHistory == [] && breathingHistory == []
      ensures chatHistory == [] && sleepHistory == [] && categories == [] && !crisisModalOpen
      ensures !permissionError
    {
      tasks, moodHistory, journalHistory, breathingHistory := [], [], [], [];
      chatHistory, sleepHistory, categories, crisisModalOpen := [], [], [], false;
      permissionError := false;
    }

    /** `loadUserData` when the profile and the collections are fetched: the permission
        notice is cleared first; for a user who has finished onboarding every list is then
        replaced by its loaded form, and for one who has not the lists stay as they are. */
    method Load(onboarded: bool, raw: UserData)
      requires onboarded ==> NumericIds(raw.tasks)
      modifies this
      ensures onboarded ==> Valid() && Data() == Loaded(raw)
      ensures !onboarded ==> Data() == old(Data())
      ensures crisisModalOpen == old(crisisModalOpen) && !permissionError
    {
      permissionError := false;
      if onboarded {
        var chat := LoadChat(raw.chat);
        SetData(Loaded(raw));
        assert chatHistory == chat;
      }
    }

    /** `loadUserData` when a fetch throws: the lists stay as they are; the permission
        notice, cleared when the load began, is raised exactly for a `permission-denied`
        code or a message that mentions missing or insufficient permissions. */
    method LoadFailed(code: string, message: string)
      modifies this`permissionError
      ensures permissionError ==
                (code == "permission-denied" || Contains(message, "Missing or insufficient permissions"))
    {
      permissionError := code == "permission-denied" || Contains(message, "Missing or insufficient permissions");
    }

    /** Replaces the held lists by `d`. */
    method SetData(d: UserData)
      modifies this
      ensures Data() == d
      ensures crisisModalOpen == old(crisisModalOpen) && permissionError == old(permissionError)
    {
      chatHistory, tasks, moodHistory, journalHistory, breathingHistory, sleepHistory, categories :=
        d.chat, d.tasks, d.moods, d.journals, d.breathing, d.sleep, d.categories;
    }

    /** `handleAddTask`: a new task goes in front; its category is added when new. The
        outcome of saving it is a parameter: `None` when the save succeeds (or nobody is
        signed in), otherwise the code it is refused with; a `permission-denied` refusal
        raises the permission notice. */
    method AddTask(task: Task, saveFailure: Option<string>)
      modifies this
      ensures tasks == [task] + old(tasks)
      ensures categories == AddIfAbsent(old(categories), task.category)
      ensures permissionError == (old(permissionError) || saveFailure == Some("permission-denied"))
      ensures unchanged(this`moodHistory, this`journalHistory, this`breathingHistory, this`chatHistory,
                        this`sleepHistory, this`crisisModalOpen)
    {
      tasks := [task] + tasks;
      if saveFailure == Some("permission-denied") {
        permissionError := true;
      }
      if task.category !in categories {
        categories := categories + [task.category];
      }
    }

    /** `handleUpdateTask`. */
    method UpdateTask(u: Task)
      modifies this`tasks
      ensures tasks == UpsertTask(old(tasks), u)
    {
      tasks := UpsertTask(tasks, u);
    }

    /** `handleDeleteTask`. */
    method DeleteTask(id: string)
      modifies this`tasks
      ensures tasks == RemoveTasks(old(tasks), id)
    {
      tasks := RemoveTasks(tasks, id);
    }

    /** `handleToggleTask`. */
    method ToggleTask(id: string)
      modifies this`tasks
      ensures tasks == Toggled(old(tasks), id)
    {
      var found := FindTask(tasks, id);
      if found.Some? {
        UpdateTask(Flipped(found.value));
      }
    }

    /** `handleLogMood`: a crisis phrase in the note opens the crisis modal; the entry is
        appended. The handler reads the clock twice: `idNow` gives the id and `now` the
        timestamp. */
    method LogMood(mood: MoodType, note: string, idNow: nat, now: nat)
      modifies this`moodHistory, this`crisisModalOpen
      ensures moodHistory == old(moodHistory) + [MoodEntry(NatToString(idNow), mood, note, now)]
      ensures crisisModalOpen == (old(crisisModalOpen) || DetectCrisis(note))
    {
      if DetectCrisis(note) {
        crisisModalOpen := true;
      }
      moodHistory := moodHistory + [MoodEntry(NatToString(idNow), mood, note, now)];
    }

    /** `handleAddJournal`: a crisis phrase in the title or the content opens the crisis
        modal; the entry goes in front. */
    method AddJournal(entry: JournalEntry)
      modifies this`journalHistory, this`crisisModalOpen
      ensures journalHistory == [entry] + old(journalHistory)
      ensures crisisModalOpen == (old(crisisModalOpen) || DetectCrisis(entry.title) || DetectCrisis(entry.content))
    {
      if DetectCrisis(entry.title) || DetectCrisis(entry.content) {
        crisisModalOpen := true;
      }
      journalHistory := [entry] + journalHistory;
    }

    /** `handleLogBreathing`: the session goes in front, with its id from the first clock
        reading `idNow` and its timestamp from the second, `now`. */
    method LogBreathing(seconds: nat, idNow: nat, now: nat)
      modifies this`breathingHistory
      ensures breathingHistory == [BreathingSession(NatToString(idNow), now, seconds)] + old(breathingHistory)
    {
      breathingHistory := [BreathingSession(NatToString(idNow), now, seconds)] + breathingHistory;
    }

    /** `handleLogSleep`: the entry goes in front. */
    method LogSleep(entry: SleepEntry)
      modifies this`sleepHistory
      ensures sleepHistory == [entry] + old(sleepHistory)
    {
      sleepHistory := [entry] + sleepHistory;
    }

    /** `handleAddMessage`: a message without an id is ignored; a user message with a crisis
        phrase opens the crisis modal; the message is stored under its id. */
    method AddMessage(msg: ChatMessage)
      requires Valid()
      modifies this`chatHistory, this`crisisModalOpen
      ensures Valid()
      ensures msg.id == "" ==> chatHistory == old(chatHistory) && crisisModalOpen == old(crisisModalOpen)
      ensures msg.id != "" ==> chatHistory == UpsertMessage(old(chatHistory), msg)
      ensures msg.id != "" ==> crisisModalOpen == (old(crisisModalOpen) || (msg.role == User && DetectCrisis(msg.text)))
    {
      if msg.id == "" {
        return;
      }
      if msg.role == User && DetectCrisis(msg.text) {
        crisisModalOpen := true;
      }
      UpsertMessageSpec(chatHistory, msg);
      chatHistory := UpsertMessage(chatHistory, msg);
    }

    /** `handleAddCategory`. */
    method AddCategory(c: string)
      modifies this`categories
      ensures categories == AddIfAbsent(old(categories), c)
    {
      if c !in categories {
        categories := categories + [c];
      }
    }
  }
}
