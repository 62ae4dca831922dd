/** The tools page's rules (pages/ToolsPage.tsx): the journal list's "long entry" test,
    the to-do organiser's filter and order, and the journal editor with its tags. */
module ToolsPage {
  import opened Wrappers
  import opened Types
  import opened Strings
  import opened Sorting

  /** `isLong`: a journal entry is folded when its content's `length` is over 80 UTF-16 code
      units or it has a line break. */
  predicate IsLong(content: string)
  {
    Utf16Length(content) > 80 || '\n' in content
  }

  /** Writing more never makes an entry short again. */
  lemma IsLongExtend(content: string, more: string)
    requires IsLong(content)
    ensures IsLong(content + more)
  {
    Utf16LengthAppend(content, more);
    if '\n' in content {
      var i :| 0 <= i < |content| && content[i] == '\n';
      assert (content + more)[i] == '\n';
    }
  }

  // ---------------------------------------------------------------- task organiser

  /** The organiser's filter tabs. */
  datatype TaskFilter = AllTasks | Pending | Completed

  predicate Passes(t: Task, filter: TaskFilter)
  {
    match filter
    case AllTasks => true
    case Pending => !t.completed
    case Completed => t.completed
  }

  function FilterTasks(tasks: seq<Task>, filter: TaskFilter): (r: seq<Task>)
    ensures |r| <= |tasks|
  {
    if tasks == [] then []
    else (if Passes(tasks[0], filter) then [tasks[0]] else []) + FilterTasks(tasks[1..], filter)
  }

  /** `filteredTasks`: all tasks of the chosen tab, newest id first. */
  function FilteredTasks(tasks: seq<Task>, filter: TaskFilter): seq<Task>
    requires NumericIds(tasks)
  {
    SortDescBy(FilterTasks(tasks, filter), IdKey)
  }

  lemma {:induction false} FilterTasksSpec(tasks: seq<Task>, filter: TaskFilter)
    ensures forall t :: multiset(FilterTasks(tasks, filter))[t] == if Passes(t, filter) then multiset(tasks)[t] else 0
  {
    if tasks != [] {
      FilterTasksSpec(tasks[1..], filter);
      assert tasks == [tasks[0]] + tasks[1..];
    }
  }

  /** The organiser lists each task of the chosen tab as often as it occurs ('all' lists
      every task, 'pending' the open ones, 'completed' the done ones), newest id first. */
  lemma FilteredTasksSpec(tasks: seq<Task>, filter: TaskFilter)
    requires NumericIds(tasks)
    ensures var r := FilteredTasks(tasks, filter);
            && (forall t :: multiset(r)[t] == if Passes(t, filter) then multiset(tasks)[t] else 0)
            && NumericIds(r)
            && (forall i, j :: 0 <= i < j < |r| ==> CreatedAt(r[j]) <= CreatedAt(r[i]))
  {
    var f := FilterTasks(tasks, filter);
    var r := FilteredTasks(tasks, filter);
    FilterTasksSpec(tasks, filter);
    forall i | 0 <= i < |r| ensures AllDigits(r[i].id) {
      assert r[i] in multiset(f);
      assert r[i] in multiset(tasks);
    }
  }

  /** What a click on a task in the organiser leads to. */
  datatype ClickOutcome = ToggleBack(id: string) | AskReflection(task: Task)

  /** `handleTaskClick`: a completed task is toggled back to open; an open one goes through
      the completion dialog. */
  function TaskClick(task: Task): (r: ClickOutcome)
    ensures task.completed <==> r.ToggleBack?
    ensures r.ToggleBack? ==> r.id == task.id
    ensures r.AskReflection? ==> r.task == task
  {
    if task.completed then ToggleBack(task.id) else AskReflection(task)
  }

  /** The completion dialog's `onComplete`: that task saved completed with the reflection. */
  function CompleteWithReflection(task: Task, reflection: string): (r: Task)
    ensures r.completed && r.reflection == Some(reflection)
    ensures r.id == task.id && r.title == task.title && r.category == task.category
    ensures r.dueDate == task.dueDate && r.description == task.description
  {
    task.(completed := true, reflection := Some(reflection))
  }

  // ---------------------------------------------------------------- journal tags

  /** How many tags the keyword merge fills up to. */
  const MaxAutoTags: nat := 5

  /** One step of the keyword merge: `k` is pushed when it is new and fewer than five tags exist. */
  function MergeStep(tags: seq<string>, k: string): seq<string>
  {
    if k !in tags && |tags| < MaxAutoTags then tags + [k] else tags
  }

  /** The tags after the keywords of the sentiment analysis were merged in, in order. */
  function MergeKeywords(tags: seq<string>, keywords: seq<string>): seq<string>
  {
    if keywords == [] then tags
    else MergeStep(MergeKeywords(tags, keywords[..|keywords| - 1]), keywords[|keywords| - 1])
  }

  predicate NoDuplicates(s: seq<string>)
  {
    forall i, j :: 0 <= i < j < |s| ==> s[i] != s[j]
  }

  /** The merge keeps the tags already there, in front; only adds keywords; never grows
      the list past five (a longer list is left as it is); and adds no duplicates. */
  lemma {:induction false} MergeKeywordsSpec(tags: seq<string>, keywords: seq<string>)
    ensures var r := MergeKeywords(tags, keywords);
            && tags <= r
            && (forall i :: |tags| <= i < |r| ==> r[i] in keywords)
            && |r| <= (if |tags| < MaxAutoTags then MaxAutoTags else |tags|)
            && (NoDuplicates(tags) ==> NoDuplicates(r))
  {
    if keywords != [] {
      var init := keywords[..|keywords| - 1];
      MergeKeywordsSpec(tags, init);
      var m := MergeKeywords(tags, init);
      assert forall i :: |tags| <= i < |m| ==> m[i] in init;
      assert forall k :: k in init ==> k in keywords;
    }
  }

  /** A keyword that is not yet a tag is added when there is room for it when its turn comes. */
  lemma MergeKeywordsAdds(tags: seq<string>, keywords: seq<string>, k: string)
    requires |keywords| > 0 && k == keywords[|keywords| - 1]
    requires k !in MergeKeywords(tags, keywords[..|keywords| - 1])
    requires |MergeKeywords(tags, keywords[..|keywords| - 1])| < MaxAutoTags
    ensures k in MergeKeywords(tags, keywords)
  {
  }

  /** The `forEach` that pushes the keywords into `journalTags`. */
  method MergeKeywordTags(tags: seq<string>, keywords: seq<string>) returns (r: seq<string>)
    ensures r == MergeKeywords(tags, keywords)
  {
    r := tags;
    for i := 0 to |keywords|
      invariant r == MergeKeywords(tags, keywords[..i])
    {
      assert keywords[..i + 1][..i] == keywords[..i];
      var k := keywords[i];
      if k !in r && |r| < MaxAutoTags {
        r := r + [k];
      }
    }
    assert keywords[..|keywords|] == keywords;
  }

  /** `journalTags.filter(tag => tag !== t)`. */
  function WithoutTag(tags: seq<string>, t: string): (r: seq<string>)
    ensures |r| <= |tags|
  {
    if tags == [] then [] else (if tags[0] == t then [] else [tags[0]]) + WithoutTag(tags[1..], t)
  }

  /** Removing a tag removes every copy of it and keeps every other tag as often as before. */
  lemma {:induction false} RemoveTagSpec(tags: seq<string>, t: string)
    ensures forall u :: multiset(WithoutTag(tags, t))[u] == if u == t then 0 else multiset(tags)[u]
  {
    if tags != [] {
      RemoveTagSpec(tags[1..], t);
      assert tags == [tags[0]] + tags[1..];
    }
  }

  /** Removing a tag keeps a duplicate-free list duplicate-free. */
  lemma {:induction false} RemoveTagNoDuplicates(tags: seq<string>, t: string)
    requires NoDuplicates(tags)
    ensures NoDuplicates(WithoutTag(tags, t))
  {
    if tags != [] {
      var rest := WithoutTag(tags[1..], t);
      RemoveTagNoDuplicates(tags[1..], t);
      RemoveTagSpec(tags[1..], t);
      assert tags[0] !in multiset(tags[1..]);
      assert tags[0] !in rest by {
        assert tags[0] !in multiset(rest);
      }
    }
  }

  /** The sentiment attached to a saved entry: the analysis, asked for only when the content's
      `length` is over 20 UTF-16 code units. */
  function SentimentFor(content: string, analysis: SentimentAnalysis): Option<SentimentAnalysis>
  {
    if Utf16Length(content) > 20 then Some(analysis) else None
  }

  /** `handleBreathingClose`: the duration to log, only when it is positive. */
  function BreathingToLog(duration: int): (r: Option<nat>)
    ensures r.Some? <==> duration > 0
    ensures r.Some? ==> r.value == duration
  {
    if duration > 0 then Some(duration) else None
  }

  /** The journal editor's fields. */
  class JournalEditor {
    var title: string
    var content: string
    var tags: seq<string>
    var tagInput: string
    var isWriting: bool

    predicate Valid()
      reads this
    {
      NoDuplicates(tags)
    }

    constructor ()
      ensures Valid()
      ensures title == "" && content == "" && tags == [] && tagInput == "" && !isWriting
    {
      title, content, tags, tagInput, isWriting := "", "", [], "", false;
    }

    /** `handleAddTag`: the trimmed input becomes a tag when it is non-empty and new; then
        the input is cleared. Otherwise nothing changes. */
    method AddTag()
      requires Valid()
      modifies this`tags, this`tagInput
      ensures Valid()
      ensures var t := Trim(old(tagInput));
              if t != [] && t !in old(tags) then tags == old(tags) + [t] && tagInput == ""
              else tags == old(tags) && tagInput == old(tagInput)
    {
      var t := Trim(tagInput);
      if t != [] && t !in tags {
        tags := tags + [t];
        tagInput := "";
      }
    }

    /** `removeTag`. */
    method RemoveTag(t: string)
      requires Valid()
      modifies this`tags
      ensures Valid()
      ensures tags == WithoutTag(old(tags), t)
    {
      RemoveTagNoDuplicates(tags, t);
      tags := WithoutTag(tags, t);
    }

    /** `handleSaveJournal`: nothing happens when title and content are both blank.
        Otherwise the keywords of the analysis are merged into the tags (when the content is
        over 20 code units), the entry is built with "Untitled Entry" for an empty title, its
        id from the first clock reading `idNow` and its timestamp from the second, `now`, and
        the editor is cleared and closed. */
    method SaveJournal(idNow: nat, now: nat, analysis: SentimentAnalysis) returns (saved: Option<JournalEntry>)
      modifies this
      ensures !HasText(old(title)) && !HasText(old(content)) ==>
                saved.None? && title == old(title) && content == old(content) && tags == old(tags) &&
                tagInput == old(tagInput) && isWriting == old(isWriting)
      ensures HasText(old(title)) || HasText(old(content)) ==>
                saved == Some(JournalEntry(NatToString(idNow),
                                           if old(title) == "" then "Untitled Entry" else old(title),
                                           old(content), now,
                                           if Utf16Length(old(content)) > 20 then MergeKeywords(old(tags), analysis.keywords)
                                           else old(tags),
                                           SentimentFor(old(content), analysis))) &&
                title == "" && content == "" && tags == [] && tagInput == "" && !isWriting
    {
      if !HasText(title) && !HasText(content) {
        return None;
      }
      var entryTags := tags;
      if Utf16Length(content) > 20 {
        entryTags := MergeKeywordTags(tags, analysis.keywords);
      }
      var entryTitle := if title == "" then "Untitled Entry" else title;
      saved := Some(JournalEntry(NatToString(idNow), entryTitle, content, now, entryTags,
                                 SentimentFor(content, analysis)));
      title, content, tags, tagInput, isWriting := "", "", [], "", false;
    }
  }
}
