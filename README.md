# SereneMind wellness app — a verified Dafny model of its core

SereneMind is a mental-wellness app. It has a React front end (mood, journal, breathing,
sleep and task tracking, an analytics page, an AI chat) and a Python backend (a chat endpoint
that routes each message through a small LangGraph agent, plus a long-term memory of facts
about the user). This project models the app's decision logic in Dafny and proves properties
of it:

- **Analytics page**:
  - the chat sessionizer;
  - the activity feed of six record kinds, with its filter, paging and day grouping;
  - the mood and sentiment counts.
- **App shell**:
  - the lists it keeps;
  - the chat de-duplication on load;
  - the upserts of tasks and messages;
  - the log handlers, with their crisis check.
- **Pages**: Home task ordering and thresholds; Tools journal, tag and task rules; the
  sign-in page's password rule and error messages.
- **Services**:
  - crisis detection and request shaping for the AI service;
  - the content recommendations;
  - the Firestore day keys and history flattening.
- **Components and hooks**: the countdown and stepper state machines of the breathing
  player, lesson timer, urge-surfing exercise, self check-in wizard, mood card and task
  editor; and the notification hook.
- **Backend**: the chat endpoint's history building and stream chunking, the agent's intent
  router, and the memory store.

How things are modelled:

- Each source file is one module. The shared records of `types.ts` are in `Types`.
- Helper modules:
  - `Wrappers`: `Option`.
  - `Strings`: ASCII lower-casing, JavaScript `trim`, substring search, decimal rendering and
    parsing, and JavaScript's `length` and `substring(0, n)`, which count UTF-16 code units:
    a character outside the Basic Multilingual Plane (an emoji) counts two.
  - `Sorting`: a stable insertion sort keyed by an integer extended with ±Infinity. This is
    what `Array.prototype.sort` does with a subtracting comparator.
- **Pure code** (maps, filters, conditionals) becomes functions and lemmas.
- **Stateful components and handlers** become classes. Their fields are the React state, and
  their methods are the handlers, each with `modifies` and a contract on the new state.
- **Loops in the source** become methods with loops, proved against a specification function.
  Examples: the sessionizer's buffer loop, the `uniqueChat` map pass, the day-grouping
  reduce, the keyword-to-tag `forEach`, the backend's history loops and chunk loop, and the
  memory append loop.
- **Clocks, timers, the network, Firebase and the language model** become parameters:
  - the current instant, the hour, the calendar date;
  - the reply of a request (`None` when it throws);
  - explicit `Tick` methods for intervals.

## Model

| member | source | states |
|---|---|---|
| ChatSessionizer.Segment | pages/AnalyticsPage.tsx:130-153 | sessions of a sorted list: none exactly for the empty list |
| ChatSessionizer.SegmentShape | pages/AnalyticsPage.tsx:137-153 | every session is non-empty and the last one ends with the last message |
| ChatSessionizer.SegmentFlatten | pages/AnalyticsPage.tsx:130-153 | concatenating the sessions gives the sorted list back |
| ChatSessionizer.SegmentGapsWithin | pages/AnalyticsPage.tsx:139-148 | inside a session consecutive messages are less than an hour apart |
| ChatSessionizer.SegmentGapsBetween | pages/AnalyticsPage.tsx:139-148 | consecutive sessions are at least an hour apart |
| ChatSessionizer.SegmentLastTimesIncrease | pages/AnalyticsPage.tsx:128-153 | on sorted input, the sessions' last timestamps strictly increase |
| ChatSessionizer.SessionsAreReversedSegments | pages/AnalyticsPage.tsx:156-160 | newest-first sorting of the sessions is exactly their reversal |
| ChatSessionizer.SessionsPartitionHistory | pages/AnalyticsPage.tsx:124-161 | read oldest first, the sessions are the history stably sorted by timestamp: nothing lost, added or duplicated; no sessions iff no messages; none empty |
| ChatSessionizer.ChatSessions | pages/AnalyticsPage.tsx:124-161 | the result is the sessions of the sorted history, newest last message first |
| ChatSessionizer.CutSessions | pages/AnalyticsPage.tsx:130-153 | the buffer loop over the sorted messages cuts exactly the sessions, oldest first |
| ChatSessionizer.WorkedExample | pages/AnalyticsPage.tsx:139-160 | messages at 0 ms and 1000 ms share a session, one an hour later starts a new one, and the newer session comes first |
| ActivityFeed.MoodItem | pages/AnalyticsPage.tsx:165-175 | a mood record becomes a mood item carrying that record |
| ActivityFeed.JournalItem | pages/AnalyticsPage.tsx:176-186 | a journal becomes a journal item carrying that record and its timestamp, titled by its title or 'Journal Entry'; a content of at most 60 UTF-16 code units is shown whole |
| ActivityFeed.BreathingItem | pages/AnalyticsPage.tsx:187-197 | a breathing session becomes a breathing item carrying it |
| ActivityFeed.FirstUserMessage | pages/AnalyticsPage.tsx:202 | none iff the session has no user message; otherwise the first one |
| ActivityFeed.ChatItem | pages/AnalyticsPage.tsx:199-216 | a session becomes a chat item carrying it |
| ActivityFeed.TaskItem | pages/AnalyticsPage.tsx:217-227 | a task becomes a task item dated by its numeric id |
| ActivityFeed.SleepItem | pages/AnalyticsPage.tsx:228-238 | a sleep entry becomes a sleep item carrying it |
| ActivityFeed.MoodItems | pages/AnalyticsPage.tsx:165 | one item per mood record, in order |
| ActivityFeed.JournalItems | pages/AnalyticsPage.tsx:176 | one item per journal, in order |
| ActivityFeed.BreathingItems | pages/AnalyticsPage.tsx:187 | one item per breathing session, in order |
| ActivityFeed.SessionItems | pages/AnalyticsPage.tsx:199 | one item per chat session, in order |
| ActivityFeed.TaskItems | pages/AnalyticsPage.tsx:217 | one item per task, in order |
| ActivityFeed.SleepItems | pages/AnalyticsPage.tsx:228 | one item per sleep entry, in order |
| ActivityFeed.MoodItemsCount | pages/AnalyticsPage.tsx:165 | a mood record's item occurs as often as the record |
| ActivityFeed.JournalItemsCount | pages/AnalyticsPage.tsx:176 | a journal's item occurs as often as the journal |
| ActivityFeed.BreathingItemsCount | pages/AnalyticsPage.tsx:187 | a session's item occurs as often as the session |
| ActivityFeed.SessionItemsCount | pages/AnalyticsPage.tsx:199 | a chat session's item occurs as often as the session |
| ActivityFeed.TaskItemsCount | pages/AnalyticsPage.tsx:217 | a task's item occurs as often as that task |
| ActivityFeed.SleepItemsCount | pages/AnalyticsPage.tsx:228 | a sleep entry's item occurs as often as the entry |
| ActivityFeed.ChatItemsSessions | pages/AnalyticsPage.tsx:199-216 | the chat part of the feed is one item per session |
| ActivityFeed.FeedCountSplit | pages/AnalyticsPage.tsx:164-239 | sorting keeps every item: the feed holds each as often as the six parts together |
| ActivityFeed.MoodItemsOnly | pages/AnalyticsPage.tsx:166 | mood items are never of another kind |
| ActivityFeed.JournalItemsOnly | pages/AnalyticsPage.tsx:177 | journal items are never of another kind |
| ActivityFeed.BreathingItemsOnly | pages/AnalyticsPage.tsx:188 | breathing items are never of another kind |
| ActivityFeed.SessionItemsOnly | pages/AnalyticsPage.tsx:201 | chat items are never of another kind |
| ActivityFeed.TaskItemsOnly | pages/AnalyticsPage.tsx:218 | task items are never of another kind |
| ActivityFeed.SleepItemsOnly | pages/AnalyticsPage.tsx:229 | sleep items are never of another kind |
| ActivityFeed.FeedMoodCount | pages/AnalyticsPage.tsx:164-239 | each mood record occurs in the feed exactly as often as in the history |
| ActivityFeed.FeedJournalCount | pages/AnalyticsPage.tsx:164-239 | each journal occurs in the feed exactly as often as in the history |
| ActivityFeed.FeedBreathingCount | pages/AnalyticsPage.tsx:164-239 | each breathing session occurs in the feed exactly as often as in the history |
| ActivityFeed.FeedSessionCount | pages/AnalyticsPage.tsx:164-239 | each chat session occurs in the feed exactly as often as among the sessions |
| ActivityFeed.FeedTaskCount | pages/AnalyticsPage.tsx:164-239 | each task occurs in the feed exactly as often as in the list |
| ActivityFeed.FeedSleepCount | pages/AnalyticsPage.tsx:164-239 | each sleep entry occurs in the feed exactly as often as in the history |
| ActivityFeed.FeedOneItemPerRecord | pages/AnalyticsPage.tsx:164-239 | the feed is newest first, its length is the sum of the record counts plus the session count, and it holds one item per record |
| ActivityFeed.JournalPreviewShape | pages/AnalyticsPage.tsx:181 | a content of at most 60 UTF-16 code units is its own preview; a longer one keeps a proper prefix of 60 code units (59 where the 60th would split a surrogate pair) and "..." |
| ActivityFeed.JournalPreviewBmp | pages/AnalyticsPage.tsx:181 | on Basic Multilingual Plane text over 60 characters, the preview is the first 60 characters and "..." |
| ActivityFeed.BreathingSubtitleRoundTrip | pages/AnalyticsPage.tsx:192 | the "<m>m <s>s session" subtitle reads back as the duration |
| ActivityFeed.HoursTextRoundTrip | pages/AnalyticsPage.tsx:233 | the sleep title reads back as the slept half-hours |
| ActivityFeed.ChatSubtitleCount | pages/AnalyticsPage.tsx:210 | the chat subtitle reads back as the session's message count |
| ActivityFeed.ChatPreviewFirstUser | pages/AnalyticsPage.tsx:202-203 | the preview is the quoted first user message, or "Session started" when there is none |
| ActivityFeed.Filtered | pages/AnalyticsPage.tsx:241 | the filtered list is never longer than the feed |
| ActivityFeed.FilteredCount | pages/AnalyticsPage.tsx:241 | the tab keeps exactly the items of its kind, each as often as before |
| ActivityFeed.FilteredAll | pages/AnalyticsPage.tsx:241 | the 'all' tab keeps the whole feed |
| ActivityFeed.FilteredSorted | pages/AnalyticsPage.tsx:241 | filtering keeps the newest-first order |
| ActivityFeed.PagingFacts | pages/AnalyticsPage.tsx:242 | the displayed items are a prefix of `visibleItems` items, the whole list when no "Load Previous" button shows, and loading more only extends them |
| ActivityFeed.FeedView.constructor | pages/AnalyticsPage.tsx:36-38 | twenty items visible, the 'all' tab |
| ActivityFeed.FeedView.LoadPrevious | pages/AnalyticsPage.tsx:707-710 | twenty more items visible, the shown list only grows |
| ActivityFeed.FeedView.SelectFilter | pages/AnalyticsPage.tsx:645 | the tab changes and the visible count is kept |
| DayGrouping.GroupsFor | pages/AnalyticsPage.tsx:245-259 | one group per key, holding the items of that label |
| DayGrouping.GroupByDay | pages/AnalyticsPage.tsx:245-259 | the reduce into the accumulator gives the groups in first-appearance order |
| DayGrouping.Entries | pages/AnalyticsPage.tsx:245-259 | the accumulator read in key order gives the groups |
| DayGrouping.MembersLabelled | pages/AnalyticsPage.tsx:245-259 | every item of a group carries the group's label |
| DayGrouping.MembersCount | pages/AnalyticsPage.tsx:245-259 | an item's group holds it as often as the displayed list does |
| DayGrouping.MembersLength | pages/AnalyticsPage.tsx:245-259 | a group is no longer than the list, and non-empty when some item has its label |
| DayGrouping.KeysExact | pages/AnalyticsPage.tsx:245-259 | the labels are exactly the items' labels, each once; none for no items |
| DayGrouping.FirstIndex | pages/AnalyticsPage.tsx:245-259 | the index of the first item with a label, or the length when none has it |
| DayGrouping.KeysByFirstAppearance | pages/AnalyticsPage.tsx:245-259 | groups come in the order their labels first appear |
| DayGrouping.MembersSorted | pages/AnalyticsPage.tsx:245-259 | a newest-first list stays newest first inside every group |
| DayGrouping.MembersSubset | pages/AnalyticsPage.tsx:245-259 | a group holds only displayed items |
| DayGrouping.MembersOfAbsent | pages/AnalyticsPage.tsx:245-259 | a label no item has gets no items |
| DayGrouping.GroupedLabels | pages/AnalyticsPage.tsx:245-259 | no groups iff no items; labels distinct and in first-appearance order |
| DayGrouping.GroupedCovers | pages/AnalyticsPage.tsx:245-259 | each displayed item is in its label's group, as often as displayed |
| DayGrouping.GroupedGroup | pages/AnalyticsPage.tsx:245-259 | each group is non-empty, single-label and newest first |
| DayGrouping.GroupingFacts | pages/AnalyticsPage.tsx:245-259 | every displayed item lands in exactly one group, in its sorted relative order, groups by first appearance |
| MoodStats.MoodsInRange | pages/AnalyticsPage.tsx:54-76 | the 'all' range keeps the whole history |
| MoodStats.AtOrAfterExact | pages/AnalyticsPage.tsx:75 | the cutoff filter keeps exactly the entries at or after the cutoff, each as often as before |
| MoodStats.MoodCountsTotal | pages/AnalyticsPage.tsx:79-100 | the six mood counts add up to the number of entries |
| MoodStats.MoodFrequency | pages/AnalyticsPage.tsx:79-100 | six buckets in the order Happy to Angry, each counting the entries of its mood |
| MoodStats.MoodFrequencyTotal | pages/AnalyticsPage.tsx:79-100 | the buckets add up to the charted entries |
| MoodStats.SentimentData | pages/AnalyticsPage.tsx:103-119 | empty when no journal has a known label; otherwise the three label counts |
| MoodStats.LabelledTotal | pages/AnalyticsPage.tsx:103-119 | the total is the sum of the three counts, and zero iff no journal is labelled |
| AppStore.FindIndex | App.tsx:247 | the index of the first message with the id, or the length when there is none |
| AppStore.UpsertMessageSpec | App.tsx:246-256 | an existing id is replaced in place with the length kept; a new id is appended; unique ids stay unique |
| AppStore.DedupSpec | App.tsx:83-89 | the pass keeps one message per id, drops id-less messages, keeps every id, and each kept message is the last with its id |
| AppStore.UniqueIdsPermutation | App.tsx:90 | reordering keeps ids unique |
| AppStore.LoadedChatSpec | App.tsx:83-90 | the loaded chat is sorted by timestamp, has unique non-empty ids, every id of the raw data, and the last message of each |
| AppStore.DedupChat | App.tsx:83-89 | the `forEach` over the map computes the de-duplicated chat |
| AppStore.LoadChat | App.tsx:83-90 | loading gives the de-duplicated, sorted chat with unique non-empty ids |
| AppStore.ReplaceTasks | App.tsx:176-178 | same length; each task with the id becomes the update, the others stay |
| AppStore.UpsertTaskSpec | App.tsx:173-182 | update in place or prepend: the ids are the old ones plus the updated one |
| AppStore.RemoveTasks | App.tsx:184-187 | deleting never lengthens the list |
| AppStore.RemoveTasksSpec | App.tsx:184-187 | every task with the id is removed; every other task is kept as often as before |
| AppStore.RemoveTasksAppend | App.tsx:184-187 | deletion works piece by piece, so the kept tasks keep their order |
| AppStore.FindTask | App.tsx:190 | a found task is in the list with that id; none iff no task has the id |
| AppStore.ToggledSpec | App.tsx:189-195 | an unknown id changes nothing; otherwise the length and the other tasks are kept and, with unique ids, only that task's completion flips |
| AppStore.AddIfAbsentSpec | App.tsx:263-269 | the category is present afterwards, the old ones stay in front, it is added only when absent, and no duplicates arise |
| AppStore.LoadedSpec | App.tsx:92-97 | each loaded list is a rearrangement of the fetched one, sorted as the app sorts it |
| AppStore.LastJournalsAreOldest | App.tsx:94 | after loading, the last n journals (what `journalHistory.slice(-n)` sends) are the oldest: none left out is older than one sent |
| AppStore.LastMoodsAreNewest | App.tsx:93 | after loading, the last n moods (what `moodHistory.slice(-n)` sends) are the newest: none left out is newer than one sent |
| AppStore.AppState.constructor | App.tsx:160-171 | every list starts empty and the crisis modal closed |
| AppStore.AppState.Load | App.tsx:62-98 | the permission notice is cleared; for an onboarded user the held lists are the loaded ones and the chat invariant holds; otherwise the lists stay as they are |
| AppStore.AppState.LoadFailed | App.tsx:62-104 | after a failed load the permission notice shows exactly for a `permission-denied` code or a message about missing or insufficient permissions, whatever it was before; the lists are left alone |
| AppStore.AppState.AddTask | App.tsx:160-171 | a new task goes in front and its category is added when new; a save refused with `permission-denied` raises the permission notice; nothing else changes |
| AppStore.AppState.UpdateTask | App.tsx:173-182 | the list becomes the upsert |
| AppStore.AppState.DeleteTask | App.tsx:184-187 | every task with that id is dropped |
| AppStore.AppState.ToggleTask | App.tsx:189-195 | the list becomes the toggled list |
| AppStore.AppState.LogMood | App.tsx:197-208 | the entry, with its id from the first clock reading and its timestamp from the second, is appended; a crisis phrase in the note opens the crisis modal |
| AppStore.AppState.AddJournal | App.tsx:210-214 | the entry goes in front; a crisis phrase in the title or content opens the modal |
| AppStore.AppState.LogBreathing | App.tsx:216-224 | a session goes in front, its id from the first clock reading and its timestamp from the second |
| AppStore.AppState.LogSleep | App.tsx:226-229 | the entry goes in front |
| AppStore.AppState.AddMessage | App.tsx:236-261 | an id-less message is ignored; otherwise upserted with ids kept unique; a user crisis message opens the modal |
| AppStore.AppState.AddCategory | App.tsx:263-269 | the category is added when absent |
| Home.Visible | pages/Home.tsx:155 | never more tasks are listed than exist |
| Home.VisibleSpec | pages/Home.tsx:155 | exactly the open tasks and the exiting ones are listed, each as often as present |
| Home.SortedTasksPermutation | pages/Home.tsx:153-175 | every sort option lists a rearrangement of the listed tasks |
| Home.SortedTasksById | pages/Home.tsx:157-161 | 'newest' orders ids descending, 'oldest' ascending |
| Home.SortedTasksByDue | pages/Home.tsx:162-173 | 'due-soon' orders due instants ascending and 'due-late' descending, undated tasks last in both |
| Home.GrowthBands | pages/Home.tsx:72-76 | Sprouting below 3, Blooming for 3 to 9, Thriving from 10; more completions never lower the stage |
| Home.CompletedCount | pages/Home.tsx:68 | the count is at most the number of tasks |
| Home.CompletedCountComplete | pages/Home.tsx:68 | completing an open task raises the count by one |
| Home.GreetingBands | pages/Home.tsx:80-85 | morning before 12, afternoon from 12 to 17, evening from 18 |
| Home.TaskClick | pages/Home.tsx:98-102 | a completed task opens nothing; an open one opens its completion dialog |
| Home.CompleteReflection | pages/Home.tsx:125-151 | nothing without a task; with a save handler that task is saved completed with the reflection, otherwise toggled |
| Home.CompletionKeepsTask | pages/Home.tsx:133-138 | the saved task differs from the clicked one only in being completed and carrying the reflection |
| ToolsPage.IsLongExtend | pages/ToolsPage.tsx:31 | an entry over 80 UTF-16 code units or with a line break stays long when more is written |
| ToolsPage.FilterTasks | pages/ToolsPage.tsx:129-132 | the tab's list is never longer than the full list |
| ToolsPage.FilterTasksSpec | pages/ToolsPage.tsx:129-132 | the tab keeps exactly its tasks, each as often as present |
| ToolsPage.FilteredTasksSpec | pages/ToolsPage.tsx:129-133 | the organiser lists the tab's tasks, newest id first |
| ToolsPage.TaskClick | pages/ToolsPage.tsx:141-147 | a completed task is toggled back, an open one is asked for a reflection |
| ToolsPage.CompleteWithReflection | pages/ToolsPage.tsx:284-288 | that task saved completed with the reflection, all else kept |
| ToolsPage.MergeKeywordsSpec | pages/ToolsPage.tsx:468-474 | the old tags stay in front, only new keywords are added, never beyond five tags, and no duplicates arise |
| ToolsPage.MergeKeywordsAdds | pages/ToolsPage.tsx:468-474 | a new keyword is added when there is room at its turn |
| ToolsPage.MergeKeywordTags | pages/ToolsPage.tsx:469-473 | the push loop computes the merge |
| ToolsPage.WithoutTag | pages/ToolsPage.tsx:502-504 | removing never lengthens the tags |
| ToolsPage.RemoveTagSpec | pages/ToolsPage.tsx:502-504 | every copy of the tag goes, every other tag stays as often as before |
| ToolsPage.RemoveTagNoDuplicates | pages/ToolsPage.tsx:502-504 | a duplicate-free list stays duplicate-free |
| ToolsPage.BreathingToLog | pages/ToolsPage.tsx:513-518 | a duration is logged iff it is positive |
| ToolsPage.JournalEditor.constructor | pages/ToolsPage.tsx:391-397 | an empty editor |
| ToolsPage.JournalEditor.AddTag | pages/ToolsPage.tsx:495-500 | the trimmed input becomes a tag when non-empty and new |
| ToolsPage.JournalEditor.RemoveTag | pages/ToolsPage.tsx:502-504 | the tags lose every copy of the tag |
| ToolsPage.JournalEditor.SaveJournal | pages/ToolsPage.tsx:458-493 | blank title and content save nothing; otherwise the entry with the 'Untitled Entry' default, id and timestamp from two clock readings, the sentiment asked only over 20 UTF-16 code units, the merged tags, and a cleared editor |
| GeminiService.DetectCrisisIgnoresCase | services/geminiService.ts:9 | the check does not see ASCII case |
| GeminiService.DetectCrisisInContext | services/geminiService.ts:7-15 | a crisis phrase is detected whatever surrounds it |
| GeminiService.DetectCrisisIff | services/geminiService.ts:7-15 | true exactly for a non-empty text whose lower-cased form contains one of the seven phrases |
| GeminiService.SentimentOrFallback | services/geminiService.ts:73-82 | a failed analysis is score 0, Neutral, no emotions and no keywords |
| GeminiService.TaskBreakdown | services/geminiService.ts:84-91 | a failed breakdown is the empty text |
| GeminiService.QuestionsOrFallback | services/geminiService.ts:170-189 | a failed request gives the three fixed questions |
| GeminiService.AssessmentOrFallback | services/geminiService.ts:191-213 | a failed request gives the "Quiet and Reflective" fallback |
| Strings.Utf16LengthAppend | pages/ToolsPage.tsx:31 | the `length` of a concatenation is the sum of the parts' lengths |
| Strings.Utf16LengthBmp | pages/ToolsPage.tsx:31 | on Basic Multilingual Plane text `length` counts the characters |
| Strings.Utf16Prefix | services/geminiService.ts:159 | `substring(0, n)`: a prefix of at most n code units that no further whole character fits |
| Strings.Utf16PrefixCut | services/geminiService.ts:159 | a string of at most n code units is kept whole; a longer one keeps n code units, or n - 1 when the next character is a surrogate pair |
| Strings.Utf16PrefixBmp | pages/AnalyticsPage.tsx:181 | on Basic Multilingual Plane text `substring(0, n)` is the first n characters |
| GeminiService.ClipContent | services/geminiService.ts:159 | a prefix of the content of at most 150 UTF-16 code units (the whole of a shorter one, at least 149 of a longer one) and always "..." |
| GeminiService.DatedJournals | services/geminiService.ts:159 | one dated, clipped entry per journal |
| GeminiService.ClinicalSummaryRequest | services/geminiService.ts:150-168 | the last 20 moods and the last 5 journals, clipped |
| GeminiService.Contents | services/geminiService.ts:178 | the contents of the journals, in order |
| GeminiService.AssessmentQuestionsRequest | services/geminiService.ts:170-189 | the last 5 moods and the contents of the last 3 journals |
| GeminiService.TitledJournals | services/geminiService.ts:200 | each journal reduced to its title and content |
| GeminiService.WellnessAssessmentRequest | services/geminiService.ts:191-213 | the last 10 moods, the last 5 journals reduced to title and content, and the answers |
| ContentService.FindById | services/contentService.ts:113-123 | `find` by id on the course and the pathway tables: none iff no entry has the id; otherwise the first with it |
| ContentService.LookupTables | services/contentService.ts:113-123 | every table entry is found by its own id |
| ContentService.RecommendTags | services/contentService.ts:128-132 | 'Anxiety' iff Anxious or Angry among the last five moods, 'Therapy' iff Sad, and no other tag |
| ContentService.CoursesFor | services/contentService.ts:135 | the course filter never lengthens the library |
| ContentService.PathwaysFor | services/contentService.ts:138 | the pathway filter never lengthens the table |
| ContentService.CoursesForSpec | services/contentService.ts:135 | exactly the courses whose category is a tag, in library order |
| ContentService.RecommendUsesLastFive | services/contentService.ts:128 | older moods do not change the recommendation |
| ContentService.RecommendOutcomes | services/contentService.ts:126-143 | the result for each mood pattern, with the first course and pathway as the default |
| ContentService.CoursesForTable | services/contentService.ts:135 | on the real library, the courses each tag picks |
| ContentService.PathwaysForTable | services/contentService.ts:138 | on the real table, only the calm pathway can match, and only with 'Anxiety' |
| DbService.DayKeyRoundTrip | services/dbService.ts:109-112 | the key reads back as year, month counted from 1, and day |
| DbService.DayKeyInjective | services/dbService.ts:109-112 | different dates have different keys |
| DbService.DayKeyLength | services/dbService.ts:109-112 | a key is ten characters for a four-digit year |
| DbService.FlattenSkips | services/dbService.ts:71 | a document without a messages array contributes nothing |
| DbService.FlattenMembership | services/dbService.ts:68-76 | a message is in the history iff it is in some document's array |
| DbService.GetChatHistory | services/dbService.ts:60-82 | the loop gives the flattened history; only a permission error is re-thrown |
| DbService.FindDoc | services/dbService.ts:115 | the first document with the key, or none |
| DbService.SavedDocsOnlyItsDay | services/dbService.ts:115-123 | saving changes only the document of the message's day |
| DbService.SavedMessageRead | services/dbService.ts:119-123 | a saved message is read back by the history |
| DbService.SaveIdempotent | services/dbService.ts:119-123 | saving a message twice is the same as once |
| DbService.DailyChats.constructor | services/dbService.ts:64 | the documents as listed |
| DbService.DailyChats.SaveChatMessage | services/dbService.ts:105-124 | the documents become the merge of the message into its day's document |
| DbService.GetCollection | services/dbService.ts:46-57 | no database or a non-permission error gives []; a permission error is re-thrown |
| DbService.GetCategories | services/dbService.ts:142-155 | the stored list when present; the three defaults otherwise; a permission error is re-thrown |
| Notifications.RemindSpec | hooks/useNotifications.ts:54-70 | reminders go only to open, dated tasks due within 15 minutes whose id was not yet notified; each goes at most once and its id is recorded |
| Notifications.RemindOnce | hooks/useNotifications.ts:63-67 | an id already notified is never reminded again |
| Notifications.RemindSkips | hooks/useNotifications.ts:55 | completed or undated tasks never get a reminder |
| Notifications.Notifier.constructor | hooks/useNotifications.ts:5-12 | the browser's permission when supported, otherwise default |
| Notifications.Notifier.RequestPermission | hooks/useNotifications.ts:14-19 | false without the API; otherwise the answer is stored and the result is whether it is granted |
| Notifications.Notifier.Tick | hooks/useNotifications.ts:35-71 | nothing without permission; otherwise the check-in and the reminders |
| Notifications.CheckInOncePerDay | hooks/useNotifications.ts:44-51 | after the check-in, no other check-in is due that day |
| Breathing.Phases | components/BreathingExercise.tsx:11-54 | every technique has at least two phases, all positive |
| Breathing.NextPhase | components/BreathingExercise.tsx:77 | the next index stays in range, wraps only from the last phase, otherwise advances by one |
| Breathing.Ticked | components/BreathingExercise.tsx:67-92 | a tick adds a second; time left counts down; at zero the next phase starts, and a cycle is counted on wrapping |
| Breathing.CountDown | components/BreathingExercise.tsx:72-73 | a phase counts down in as many ticks as seconds left |
| Breathing.RestOfCycle | components/BreathingExercise.tsx:67-92 | from phase i the rest of the cycle runs out and returns to phase 0 with one more cycle |
| Breathing.PhaseRunsOut | components/BreathingExercise.tsx:67-92 | a phase shows its duration down to 0, then gives way to the next |
| Breathing.FullCycle | components/BreathingExercise.tsx:11-92 | a full cycle takes 22, 20 or 14 seconds and counts one cycle |
| Breathing.Breather.ShownPhase | components/BreathingExercise.tsx:170-171 | in a valid state the shown phase exists and is one of the technique's durations |
| Breathing.Breather.constructor | components/BreathingExercise.tsx:57-62 | no technique, paused, all counters zero |
| Breathing.Breather.SelectAsWritten | components/BreathingExercise.tsx:139 | only the technique changes |
| Breathing.Breather.Select | components/BreathingExercise.tsx:139 | a fresh paused session at phase 0, total kept |
| Breathing.Breather.Back | components/BreathingExercise.tsx:185 | the selection screen with every counter kept |
| Breathing.Breather.Tick | components/BreathingExercise.tsx:67-92 | only while active with a technique, the state becomes the ticked one |
| Breathing.Breather.ToggleStart | components/BreathingExercise.tsx:94-105 | nothing without a technique; starting at zero begins phase 0; activity flips |
| Breathing.Breather.Reset | components/BreathingExercise.tsx:107-112 | paused at phase 0, no time, no cycles, total kept |
| Breathing.Breather.Close | components/BreathingExercise.tsx:114-116 | reports the seconds breathed |
| Breathing.SelectAsWrittenOverruns | components/BreathingExercise.tsx:139-171 | the as-written handler leaves no phase to show |
| Breathing.SelectKeepsPhaseInRange | components/BreathingExercise.tsx:139-171 | the corrected handler shows the first resonant phase |
| SessionTimer.FormatTimeShape | components/SessionTimer.tsx:37-41 | minutes, a colon, then two-digit seconds |
| SessionTimer.FormatTimeRoundTrip | components/SessionTimer.tsx:37-41 | the text reads back as the minutes and seconds |
| SessionTimer.FormatTimeInjective | components/SessionTimer.tsx:37-41 | different times never look the same |
| SessionTimer.Ticked | components/SessionTimer.tsx:15-27 | counts down only while running; at zero stopped and completed |
| SessionTimer.RunsDown | components/SessionTimer.tsx:17-20 | k seconds of a running timer leave n - k, still running |
| SessionTimer.PausedStays | components/SessionTimer.tsx:17 | a paused timer stays as it is |
| SessionTimer.Timer.constructor | components/SessionTimer.tsx:11-13 | the full duration, paused, not completed |
| SessionTimer.Timer.Tick | components/SessionTimer.tsx:15-27 | the ticked state, with one completion call on reaching zero |
| SessionTimer.Timer.Toggle | components/SessionTimer.tsx:29 | activity flips |
| SessionTimer.Timer.Reset | components/SessionTimer.tsx:31-35 | the full duration, paused, not completed |
| UrgeSurfing.Ticked | components/UrgeSurfingModal.tsx:24-34 | counts down only while active; inactive at zero |
| UrgeSurfing.RunFromReady | components/UrgeSurfingModal.tsx:24-34 | k seconds in, the countdown shows n - k and stops at 0 |
| UrgeSurfing.ContinueAfterThirtyOneSeconds | components/UrgeSurfingModal.tsx:109 | "Continue" appears exactly from the 31st second on |
| UrgeSurfing.UrgeModal.Open | components/UrgeSurfingModal.tsx:16-22 | step one, 180 seconds, stopped |
| UrgeSurfing.UrgeModal.Reopen | components/UrgeSurfingModal.tsx:16-22 | step one, 180 seconds, stopped |
| UrgeSurfing.UrgeModal.Tick | components/UrgeSurfingModal.tsx:24-34 | the ticked state |
| UrgeSurfing.UrgeModal.ReadyToRide | components/UrgeSurfingModal.tsx:87 | step one leads to the breathing step with the countdown running |
| UrgeSurfing.UrgeModal.Continue | components/UrgeSurfingModal.tsx:109-111 | the ride step, only when "Continue" is offered |
| SelfAssessment.Answer | components/SelfAssessmentModal.tsx:57-68 | blank input is ignored; an answer is appended, then the next question or the analysis |
| SelfAssessment.AnswerRest | components/SelfAssessmentModal.tsx:57-68 | answering the remaining questions records every answer and reaches the analysis |
| SelfAssessment.AnswerAllQuestions | components/SelfAssessmentModal.tsx:57-68 | answering all questions from the start records all answers and analyses |
| SelfAssessment.QaPairs | components/SelfAssessmentModal.tsx:70 | each question paired with its answer by index |
| SelfAssessment.AssessmentModal.constructor | components/SelfAssessmentModal.tsx:24-29 | the intro step with nothing answered |
| SelfAssessment.AssessmentModal.Start | components/SelfAssessmentModal.tsx:41-55 | the questions step with the fetched questions, or the single fallback question |
| SelfAssessment.AssessmentModal.NextQuestion | components/SelfAssessmentModal.tsx:57-79 | the answer step, then after the last answer the result or the intro |
| MoodTracker.InterventionFor | components/MoodTracker.tsx:32-65 | Anxious leads to breathing, Angry and Happy to the journal, Sad to voice chat; Calm and Neutral get none |
| MoodTracker.InterventionTargets | components/MoodTracker.tsx:32-65 | only those three targets are ever suggested, the journal exactly for Angry and Happy |
| MoodTracker.MoodCard.constructor | components/MoodTracker.tsx:22-25 | nothing selected, not submitted |
| MoodTracker.MoodCard.Select | components/MoodTracker.tsx:142 | the mood is selected |
| MoodTracker.MoodCard.Submit | components/MoodTracker.tsx:27-78 | nothing without a mood; otherwise exactly the mood and note are logged, the suggestion is set, and the auto-reset is pending only without one |
| MoodTracker.MoodCard.ResetForm | components/MoodTracker.tsx:79-84 | mood, note, submitted flag and suggestion cleared |
| MoodTracker.MoodCard.TimerFires | components/MoodTracker.tsx:72-76 | a pending auto-reset resets the form |
| TaskModal.DefaultCategory | components/TaskModal.tsx:42 | the first category, or 'Wellness' when there is none |
| TaskModal.BuildTask | components/TaskModal.tsx:52-79 | an edit keeps id, completion and due date; a new task gets the first clock reading as id and is due at the second; the title is trimmed; an empty description is replaced by the generated one |
| TaskModal.NewTaskCreatedAt | components/TaskModal.tsx:69 | a new task's id reads back as its creation instant |
| TaskModal.SaveEditedInPlace | components/TaskModal.tsx:68-77 | saving an edited task replaces it in place in the app's list |
| TaskModal.WithSteps | components/TaskModal.tsx:86 | steps follow the description after a blank line, or replace an empty one |
| TaskModal.TaskForm.Open | components/TaskModal.tsx:33-48 | opening runs the opening effect for the task being edited |
| TaskModal.TaskForm.RunOpenEffect | components/TaskModal.tsx:33-48 | an edit copies title, description and category; a new task clears them with the default category of the given list; the category input closes and generation stops |
| TaskModal.TaskForm.Save | components/TaskModal.tsx:52-79 | a blank title saves nothing; otherwise the built task |
| TaskModal.TaskForm.GenerateSteps | components/TaskModal.tsx:81-92 | with a title, the steps are added to the description and generation stops; a blank title changes nothing |
| TaskModal.TaskForm.AddNewCategory | components/TaskModal.tsx:94-102 | a non-blank name is trimmed, added and selected; a blank one is ignored |
| TaskModal.TaskForm.AddNewCategoryAsWritten | components/TaskModal.tsx:33-48 | with App's handler: a name not yet listed extends the list and the opening effect runs again on it, resetting the form; a listed name is selected with the rest kept; a blank one changes nothing |
| TaskModal.NewCategoryResetsForm | components/TaskModal.tsx:94-102 | adding "Family" while typing "Call mom" leaves "Work" selected and nothing to save |
| TaskModal.NewCategoryKeepsForm | components/TaskModal.tsx:94-102 | without the re-run, "Family" stays selected and the task saves with its title under it |
| TaskModal.TaskForm.Delete | components/TaskModal.tsx:104-109 | deletes only when editing and a handler exists, with that task's id |
| AuthPage.FirstLineLength | pages/AuthPage.tsx:22 | the UTF-16 code units before the first line terminator; for one line, the whole `length` |
| AuthPage.ClassesSeenIff | pages/AuthPage.tsx:22 | the scan finds a class exactly when the regular expression's lookahead for it succeeds |
| AuthPage.FirstLineLengthIff | pages/AuthPage.tsx:22 | the first line is long enough exactly when `(?=.{6,})` succeeds |
| AuthPage.ValidatePasswordIff | pages/AuthPage.tsx:22-29 | no message exactly when the regular expression matches; otherwise the fixed message |
| AuthPage.SingleLineRule | pages/AuthPage.tsx:22 | on one line the regular expression matches iff the `length` is at least 6 code units and each class occurs somewhere |
| AuthPage.ValidateSingleLine | pages/AuthPage.tsx:22-29 | on one line: a `length` of at least 6 UTF-16 code units with an uppercase letter, a digit and a symbol |
| AuthPage.EmojiCountsTwice | pages/AuthPage.tsx:22 | "Ab1!" and one emoji, five characters but six code units, passes the rule |
| AuthPage.FriendlyMessage | pages/AuthPage.tsx:31-44 | the sentinel exactly for the unauthorized domain, the generic message exactly for unknown codes |
| AuthPage.AuthForm.constructor | pages/AuthPage.tsx:13-17 | sign-in mode, empty fields |
| AuthPage.AuthForm.SetMode | pages/AuthPage.tsx:110-116 | the mode changes and the error is cleared |
| AuthPage.AuthForm.EmailAuth | pages/AuthPage.tsx:46-70 | sign-in is sent unchecked; sign-up checks the rule, then the match; a thrown code shows its message |
| AuthPage.AuthForm.PopupOrGuestLogin | pages/AuthPage.tsx:72-90 | the error is cleared, then a thrown code shows its message |
| BackendMain.UserText | backend/main.py:138 | the last message's first part, when there is one |
| BackendMain.AgentHistory | backend/main.py:140-154 | the memory system message, each prior message converted in order, then the user text; none iff unreadable |
| BackendMain.Chunks | backend/main.py:168-172 | the chunks join to the reply; each is 1 to 10 characters; all but the last are 10 |
| BackendMain.BackgroundHistory | backend/main.py:181-185 | each prior message's role and first text, then the user text, then the reply |
| BackendMain.ChatEndpoint | backend/main.py:131-193 | an unreadable request fails; otherwise the agent input, the streamed reply and the background history |
| BackendMain.BackgroundReplaysAgentInput | backend/main.py:143-185 | the background history holds the conversation the agent read |
| BackendMain.PendingCount | backend/main.py:302 | at most the number of tasks; zero iff none is pending; all iff all are |
| BackendMain.PendingAndDone | backend/main.py:302 | pending and done tasks add up to all tasks |
| AgentService.DetectIntent | backend/agent_service.py:28-47 | never 'start'; 'crisis' exactly when the lower-cased message has a crisis phrase |
| AgentService.EdgeTarget | backend/agent_service.py:128-136 | exactly the three produced phases have a node |
| AgentService.AlwaysRouted | backend/agent_service.py:111-136 | every message reaches a node, and the crisis node exactly the crisis messages |
| AgentService.CrisisOverrides | backend/agent_service.py:36-37 | a crisis phrase anywhere wins in every phase |
| AgentService.CaseInsensitive | backend/agent_service.py:30 | a message decides the same as its lower-cased form |
| AgentService.CbtSticky | backend/agent_service.py:39-47 | CBT stays without "stop" or "exit"; outside it a trigger word is needed |
| AgentService.LastFive | backend/agent_service.py:83 | the last five messages, or all of fewer |
| AgentService.NodeInput | backend/agent_service.py:49-107 | the crisis node reads the protocol and the last message; the others their prompt and the last five |
| AgentService.EndpointStartsFresh | backend/agent_service.py:39-47 | from the endpoint's 'start' phase, only crisis and trigger words decide |
| MemoryService.Migrate | backend/memory_service.py:20 | the i-th string becomes memory `str(i)` dated 2024-01-01 |
| MemoryService.MigrateIdsDistinct | backend/memory_service.py:20 | migrated ids are distinct |
| MemoryService.Loaded | backend/memory_service.py:12-23 | missing or unreadable gives []; legacy migrates; records stay |
| MemoryService.JoinLinesContains | backend/memory_service.py:32 | every line is in the joined text |
| MemoryService.Context | backend/memory_service.py:29-32 | empty iff no memories; otherwise starts with the header |
| MemoryService.ContextMentions | backend/memory_service.py:32 | every memory's bullet is in the context |
| MemoryService.Without | backend/memory_service.py:39 | exactly the memories without the id remain; shorter iff one had it |
| MemoryService.WithoutSpec | backend/memory_service.py:39 | every memory with the id goes; every other keeps its multiplicity |
| MemoryService.WithoutAppend | backend/memory_service.py:39 | the filter distributes over concatenation, so the kept memories keep their order |
| MemoryService.AddFactsSpec | backend/memory_service.py:82-90 | old memories stay in front, every fact is remembered, each added memory is a new fact, and texts stay distinct |
| MemoryService.Snippet | backend/memory_service.py:55-56 | the last two messages are readable exactly when a snippet exists |
| MemoryService.SnippetLastTwo | backend/memory_service.py:55 | only the last two messages matter |
| MemoryService.MemoryStore.constructor | backend/memory_service.py:9-10 | the loaded memories, nothing written |
| MemoryService.MemoryStore.Delete | backend/memory_service.py:37-43 | the memories without the id; true iff one had it; written only then |
| MemoryService.MemoryStore.ExtractMemories | backend/memory_service.py:45-93 | nothing for an empty history; otherwise the de-duplicated append of a non-empty fact list, written once |

## Left out

- Rendering, styling, animation and modal visibility are not modelled. Neither are the pages
  and components outside the core: settings, onboarding, crisis resources, library, course
  player, voice session and chat page.
- The network, Firebase, the Gemini and LangChain calls, local storage, encryption and the
  service worker are left out. Their results are parameters: a reply, or `None` for a
  request that throws.
- Clocks and timers are parameters: `Date.now()`, the local hour and calendar date, and
  `setInterval` and `setTimeout` as explicit `Tick` and `TimerFires` methods. Each
  `Date.now()` call is a parameter of its own, so an id and a timestamp read in one handler
  may differ, as they may in the app.
- Locale date text is not modelled. The analytics day labels, the 'week' and 'month' cutoffs
  and the journal dates of the clinical summary are a day-label function or a given cutoff.
- Floating point is not modelled:
  - sleep hours are counted in half hours;
  - sentiment scores are opaque integers;
  - reminder windows are exact milliseconds.
- `Number(task.id)` on an id that is not a digit string (NaN) is not modelled. Tasks sorted
  by id are required to have digit-string ids.
- Lower-casing covers ASCII only: `toLowerCase` and Python `lower()` on other letters are not
  modelled.
- JSON files that hold neither a list of strings nor a list of records are not modelled.
- The Firestore `date` and `lastUpdated` fields are not modelled, nor the order in which the
  collection lists documents. The documents are taken in a given order.
- The prompt texts sent to the language model are not modelled.
- AgentService.NodeInput: the prompt texts are parameters, and the language model's answer
  is not modelled.
- GeminiService.AssessmentOrFallback: only `currentVibe` and the list lengths of the fallback
  assessment are stated, not its insight and recommendation texts.
- SessionTimer.Timer.Tick: counts one `onComplete` call per completion. React re-runs the
  effect once `isActive` changes while `timeLeft` is still 0, so the component calls it a
  second time, and the model does not follow that re-run.
- GeminiService.ClipContent: `substring(0, 150)` counts UTF-16 code units. When unit 150 is
  the second half of a surrogate pair, the source keeps the lone first half. A Dafny string
  holds Unicode scalar values and cannot, so the model keeps the prefix before that
  character, one code unit shorter.
- GeminiService.DatedJournals and GeminiService.ClinicalSummaryRequest clip through
  `ClipContent` and share its surrogate-pair gap.
- ActivityFeed.JournalPreviewShape: the same holds for the 60-unit journal preview.
- ActivityFeed.JournalItem shows that preview and shares its surrogate-pair gap.
- MemoryService.MemoryStore.ExtractMemories: each fact takes its id and creation time from a
  clock reading passed in. Two facts of one extraction can share a millisecond id, and that
  is not ruled out.
- AgentService.EndpointStartsFresh: the endpoint always starts in the 'start' phase, so the
  "stop"/"exit" exit from CBT is modelled (`DetectIntent`) but never reached through
  `ChatEndpoint`.

## Findings

| source | as written | input that shows it | evidently intended | confidence | as-written member | corrected member |
|---|---|---|---|---|---|---|
| components/TaskModal.tsx:48 | the opening effect depends on `categories`, and adding a new category gives the open form a new array, so the effect resets title, description and selection | new task, categories Work, Personal and Wellness, title "Call mom", add category "Family": the title becomes empty, "Work" is selected, and Save does nothing | adding a category keeps what was typed and selects the new category | not executed | TaskModal.NewCategoryResetsForm | TaskModal.NewCategoryKeepsForm |
| components/BreathingExercise.tsx:139 | choosing a technique sets only the technique, keeping `phaseIndex` from the previous one | choose box, start, run 15 s (phase index 3), go back with "Change", choose resonant (2 phases); line 171 reads `phases[3]`, which is undefined | choosing a technique starts it afresh at phase 0 | not executed | Breathing.SelectAsWrittenOverruns | Breathing.SelectKeepsPhaseInRange |
